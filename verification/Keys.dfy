/** The names that tie the three levels of the crawl together: the brand's
    `models_url`, the model's composite key and `prices_url`, and the data
    files the pages are saved to (index.js, lines 46, 92, 95, 97 and 188). */
module Keys {
  import opened Alias

  /** A path segment `path.join` leaves as it is: not empty, not `.` or `..`,
      and without a separator. */
  predicate PlainSegment(seg: string) {
    && seg != [] && seg != "." && seg != ".."
    && forall i :: 0 <= i < |seg| ==> seg[i] != '/'
  }

  /** The `/`-separated segments of a path, empty ones included: `"/a"`
      splits into `""` and `"a"`. */
  function Split(p: string): (r: seq<string>)
    ensures |r| >= 1
    decreases |p|
  {
    if p == [] then [""]
    else if p[0] == '/' then [""] + Split(p[1..])
    else
      var rest := Split(p[1..]);
      [[p[0]] + rest[0]] + rest[1..]
  }

  /** One segment of `path.normalize` applied to the segments kept so far:
      empty and `.` segments are dropped, and `..` removes the last kept
      segment. With nothing to remove, `..` is kept in a relative path and
      dropped at the root of an absolute one. */
  function Resolve(kept: seq<string>, seg: string, absolute: bool): seq<string> {
    if seg == "" || seg == "." then kept
    else if seg == ".." then
      if |kept| > 0 && kept[|kept| - 1] != ".." then kept[..|kept| - 1]
      else if absolute then kept
      else kept + [".."]
    else kept + [seg]
  }

  /** The segments resolved from left to right. */
  function ResolveAll(kept: seq<string>, segs: seq<string>, absolute: bool): seq<string>
    decreases |segs|
  {
    if segs == [] then kept else ResolveAll(Resolve(kept, segs[0], absolute), segs[1..], absolute)
  }

  /** The segments put back together with one `/` between each two. */
  function Unsplit(segs: seq<string>): string
    decreases |segs|
  {
    if segs == [] then ""
    else if |segs| == 1 then segs[0]
    else segs[0] + "/" + Unsplit(segs[1..])
  }

  /** `path.normalize` of Node's POSIX path module: the resolved segments,
      with the leading `/` of an absolute path and a trailing `/` kept; an
      empty result is `.` (or `./`, or `/` for an absolute path). */
  function Normalize(p: string): string {
    if p == [] then "."
    else
      var absolute := p[0] == '/';
      var trailing := p[|p| - 1] == '/';
      var body := Unsplit(ResolveAll([], Split(p), absolute));
      if body == [] then (if absolute then "/" else if trailing then "./" else ".")
      else (if absolute then "/" else "") + body + (if trailing then "/" else "")
  }

  /** `path.join` of two arguments: the non-empty ones joined with `/`, then
      normalised. */
  function Join(dir: string, seg: string): string {
    if dir == [] && seg == [] then "."
    else if dir == [] then Normalize(seg)
    else if seg == [] then Normalize(dir)
    else Normalize(dir + "/" + seg)
  }

  /** A character other than `/` joins the first segment of the rest. */
  lemma SplitCons(c: char, u: string)
    requires c != '/'
    ensures Split([c] + u) == [[c] + Split(u)[0]] + Split(u)[1..]
  {
    assert ([c] + u)[0] == c && ([c] + u)[1..] == u;
  }

  lemma Regroup(d: string, t: string)
    ensures "/" + d + "/" + t == "/" + (d + "/" + t)
  {
  }

  /** A leading `/` starts with an empty segment. */
  lemma SplitSlash(u: string)
    ensures Split("/" + u) == [""] + Split(u)
  {
    assert ("/" + u)[0] == '/' && ("/" + u)[1..] == u;
  }

  /** Splitting a text that starts with a segment without `/`. */
  lemma {:induction false} SplitAfterSegment(x: string, t: string)
    requires forall i :: 0 <= i < |x| ==> x[i] != '/'
    ensures Split(x + t) == [x + Split(t)[0]] + Split(t)[1..]
    decreases |x|
  {
    var st := Split(t);
    if x != [] {
      var y := x[1..];
      assert forall i :: 0 <= i < |y| ==> y[i] == x[i + 1];
      SplitAfterSegment(y, t);
      assert x + t == [x[0]] + (y + t);
      SplitCons(x[0], y + t);
      assert [x[0]] + (y + st[0]) == x + st[0];
    } else {
      assert x + t == t && x + st[0] == st[0];
      assert st == [st[0]] + st[1..];
    }
  }

  /** A plain segment followed by `/` splits off as a segment of its own. */
  lemma SplitPlain(x: string, t: string)
    requires PlainSegment(x)
    ensures Split(x + "/" + t) == [x] + Split(t)
  {
    assert x + "/" + t == x + ("/" + t);
    SplitAfterSegment(x, "/" + t);
    assert ("/" + t)[1..] == t;
    var st := Split("/" + t);
    assert st == [""] + Split(t);
    assert x + st[0] == x;
  }

  /** A plain segment alone is one segment. */
  lemma SplitSingle(x: string)
    requires PlainSegment(x)
    ensures Split(x) == [x]
  {
    SplitAfterSegment(x, "");
    assert x + "" == x;
  }

  /** Plain segments are kept as they are, one after the other. */
  lemma {:induction false} ResolvePlainSegments(kept: seq<string>, segs: seq<string>, absolute: bool)
    requires forall i :: 0 <= i < |segs| ==> PlainSegment(segs[i])
    ensures ResolveAll(kept, segs, absolute) == kept + segs
    decreases |segs|
  {
    if segs != [] {
      assert PlainSegment(segs[0]);
      assert Resolve(kept, segs[0], absolute) == kept + [segs[0]];
      ResolvePlainSegments(kept + [segs[0]], segs[1..], absolute);
      assert kept + [segs[0]] + segs[1..] == kept + segs;
    } else {
      assert kept + segs == kept;
    }
  }

  /** One step of the left-to-right resolution. */
  lemma ResolveAllCons(kept: seq<string>, seg: string, rest: seq<string>, absolute: bool)
    ensures ResolveAll(kept, [seg] + rest, absolute) == ResolveAll(Resolve(kept, seg, absolute), rest, absolute)
  {
    assert ([seg] + rest)[0] == seg && ([seg] + rest)[1..] == rest;
  }

  /** An absolute path without a trailing `/` normalises to its resolved
      segments after one `/`. */
  lemma NormalizeAbsolute(p: string, kept: seq<string>)
    requires |p| > 0 && p[0] == '/' && p[|p| - 1] != '/'
    requires ResolveAll([], Split(p), true) == kept && Unsplit(kept) != []
    ensures Normalize(p) == "/" + Unsplit(kept)
  {
    assert "/" + Unsplit(kept) + "" == "/" + Unsplit(kept);
  }

  /** A relative path without a trailing `/` normalises to its resolved
      segments. */
  lemma NormalizeRelative(p: string, kept: seq<string>)
    requires |p| > 0 && p[0] != '/' && p[|p| - 1] != '/'
    requires ResolveAll([], Split(p), false) == kept && Unsplit(kept) != []
    ensures Normalize(p) == Unsplit(kept)
  {
    assert "" + Unsplit(kept) + "" == Unsplit(kept);
  }

  /** `path.join` of a one-segment directory, absolute or relative, and a
      plain segment has nothing to normalise: it is the two with one `/`
      between them. */
  lemma JoinPlain(d: string, seg: string)
    requires PlainSegment(d) && PlainSegment(seg)
    ensures Join("/" + d, seg) == "/" + d + "/" + seg
    ensures Join(d, seg) == d + "/" + seg
  {
    JoinPlainAbsolute(d, seg);
    JoinPlainRelative(d, seg);
  }

  lemma JoinPlainAbsolute(d: string, seg: string)
    requires PlainSegment(d) && PlainSegment(seg)
    ensures Join("/" + d, seg) == "/" + d + "/" + seg
  {
    SplitPlain(d, seg);
    SplitSingle(seg);
    var q := d + "/" + seg;
    var p := "/" + d + "/" + seg;
    Regroup(d, seg);
    SplitSlash(q);
    assert Split(p) == [""] + [d, seg];
    ResolveAllCons([], "", [d, seg], true);
    ResolvePlainSegments([], [d, seg], true);
    assert [d, seg][1..] == [seg];
    assert Unsplit([d, seg]) == q;
    assert p[|p| - 1] == seg[|seg| - 1];
    NormalizeAbsolute(p, [d, seg]);
  }

  lemma JoinPlainRelative(d: string, seg: string)
    requires PlainSegment(d) && PlainSegment(seg)
    ensures Join(d, seg) == d + "/" + seg
  {
    SplitPlain(d, seg);
    SplitSingle(seg);
    var q := d + "/" + seg;
    assert Split(q) == [d, seg];
    ResolvePlainSegments([], [d, seg], false);
    assert [d, seg][1..] == [seg];
    assert Unsplit([d, seg]) == q;
    assert q[0] == d[0] && q[0] != '/';
    assert q[|q| - 1] == seg[|seg| - 1];
    NormalizeRelative(q, [d, seg]);
  }

  /** `..` after a directory removes it again, and `.` is dropped: `join`
      normalises rather than concatenates. */
  lemma JoinResolvesDots(d: string, seg: string)
    requires PlainSegment(d) && PlainSegment(seg)
    ensures Join("/" + d, "../" + seg) == "/" + seg
    ensures Join("/" + d, "./" + seg) == "/" + d + "/" + seg
  {
    JoinResolvesParent(d, seg);
    JoinDropsDot(d, seg);
  }

  /** The segments of `<dot>/<seg>` for a dot segment `.` or `..`. */
  lemma SplitDot(dot: string, seg: string)
    requires dot == "." || dot == ".."
    requires PlainSegment(seg)
    ensures Split(dot + "/" + seg) == [dot, seg]
  {
    SplitAfterSegment(dot, "/" + seg);
    assert dot + ("/" + seg) == dot + "/" + seg;
    assert ("/" + seg)[1..] == seg;
    SplitSingle(seg);
    assert Split("/" + seg) == [""] + [seg];
    assert dot + "" == dot;
  }

  /** The segments of `/<d>/<dot>/<seg>`. */
  lemma SplitWithDot(d: string, dot: string, seg: string)
    requires PlainSegment(d) && PlainSegment(seg)
    requires dot == "." || dot == ".."
    ensures Split("/" + d + "/" + (dot + "/" + seg)) == [""] + ([d] + ([dot] + [seg]))
  {
    var t := dot + "/" + seg;
    SplitDot(dot, seg);
    SplitPlain(d, t);
    SplitSlash(d + "/" + t);
    Regroup(d, t);
  }

  /** The last character of a text that ends with `seg`. */
  lemma EndsWith(a: string, seg: string)
    requires seg != []
    ensures (a + seg)[|a + seg| - 1] == seg[|seg| - 1]
  {
  }

  lemma UnsplitPair(d: string, seg: string)
    ensures Unsplit([d, seg]) == d + "/" + seg
  {
    assert [d, seg][1..] == [seg];
  }

  lemma ResolveParent(d: string, seg: string)
    requires PlainSegment(d) && PlainSegment(seg)
    ensures ResolveAll([], [""] + ([d] + ([".."] + [seg])), true) == [seg]
  {
    ResolveAllCons([], "", [d] + ([".."] + [seg]), true);
    ResolveAllCons([], d, [".."] + [seg], true);
    ResolveAllCons([d], "..", [seg], true);
    assert Resolve([d], "..", true) == [];
    ResolvePlainSegments([], [seg], true);
  }

  lemma ResolveDot(d: string, seg: string)
    requires PlainSegment(d) && PlainSegment(seg)
    ensures ResolveAll([], [""] + ([d] + (["."] + [seg])), true) == [d, seg]
  {
    ResolveAllCons([], "", [d] + (["."] + [seg]), true);
    ResolveAllCons([], d, ["."] + [seg], true);
    ResolveAllCons([d], ".", [seg], true);
    assert Resolve([], "", true) == [] && Resolve([], d, true) == [d] && Resolve([d], ".", true) == [d];
    ResolvePlainSegments([d], [seg], true);
    assert [d] + [seg] == [d, seg];
  }

  lemma JoinResolvesParent(d: string, seg: string)
    requires PlainSegment(d) && PlainSegment(seg)
    ensures Join("/" + d, "../" + seg) == "/" + seg
  {
    var t := "../" + seg;
    assert t == ".." + "/" + seg;
    var p := "/" + d + "/" + t;
    SplitWithDot(d, "..", seg);
    ResolveParent(d, seg);
    assert Unsplit([seg]) == seg;
    EndsWith("../", seg);
    EndsWith("/" + d + "/", t);
    NormalizeAbsolute(p, [seg]);
  }

  lemma JoinDropsDot(d: string, seg: string)
    requires PlainSegment(d) && PlainSegment(seg)
    ensures Join("/" + d, "./" + seg) == "/" + d + "/" + seg
  {
    var t := "./" + seg;
    assert t == "." + "/" + seg;
    var p := "/" + d + "/" + t;
    SplitWithDot(d, ".", seg);
    ResolveDot(d, seg);
    UnsplitPair(d, seg);
    EndsWith("./", seg);
    EndsWith("/" + d + "/", t);
    NormalizeAbsolute(p, [d, seg]);
  }

  /** The data file name of a record: the key with `.json` appended. */
  function JsonName(key: string): string {
    key + ".json"
  }

  /** Every alias names a plain segment once `.json` is appended: an alias
      has no `/` and the suffix keeps it from being `.` or `..`. */
  lemma AliasNameIsPlain(key: string)
    requires IsAlias(key)
    ensures PlainSegment(JsonName(key))
  {
    var seg := JsonName(key);
    assert seg[|seg| - 1] == 'n';
    forall i | 0 <= i < |seg|
      ensures seg[i] != '/'
    {
      if i < |key| {
        assert seg[i] == key[i];
        assert IsAliasChar(key[i]);
      }
    }
  }

  /** `models_url` of a brand: `/models/<alias>.json`. */
  function ModelsUrl(alias: string): (r: string)
    requires IsAlias(alias)
    ensures r == "/models/" + alias + ".json"
  {
    AliasNameIsPlain(alias);
    JoinPlain("models", JsonName(alias));
    assert "/" + "models" == "/models";
    Join("/models", JsonName(alias))
  }

  /** The composite key `<brand>_<alias>` of a model. */
  function CompositeKey(brand: string, alias: string): (r: string)
    ensures |r| == |brand| + 1 + |alias|
    ensures r[..|brand|] == brand && r[|brand|] == '_' && r[|brand| + 1..] == alias
    ensures IsAlias(brand) && IsAlias(alias) ==> IsAlias(r)
  {
    CompositeKeyIsAlias(brand, alias);
    brand + "_" + alias
  }

  /** `prices_url` of a model: `/prices/<key>.json`. */
  function PricesUrl(key: string): (r: string)
    requires IsAlias(key)
    ensures r == "/prices/" + key + ".json"
  {
    AliasNameIsPlain(key);
    JoinPlain("prices", JsonName(key));
    assert "/" + "prices" == "/prices";
    Join("/prices", JsonName(key))
  }

  /** The file, relative to the data directory, that a brand's model list
      is written to. */
  function ModelsFile(brand: string): (r: string)
    requires IsAlias(brand)
    ensures r == "models/" + brand + ".json"
  {
    AliasNameIsPlain(brand);
    JoinPlain("models", JsonName(brand));
    Join("models", JsonName(brand))
  }

  /** The file, relative to the data directory, that a model's prices are
      written to. */
  function PricesFile(key: string): (r: string)
    requires IsAlias(key)
    ensures r == "prices/" + key + ".json"
  {
    AliasNameIsPlain(key);
    JoinPlain("prices", JsonName(key));
    Join("prices", JsonName(key))
  }

  /** Two aliases joined with `_` form an alias again. */
  lemma CompositeKeyIsAlias(brand: string, alias: string)
    ensures IsAlias(brand) && IsAlias(alias) ==> IsAlias(brand + "_" + alias)
  {
    var k := brand + "_" + alias;
    if IsAlias(brand) && IsAlias(alias) {
      forall i | 0 <= i < |k|
        ensures IsAliasChar(k[i])
      {
        if i < |brand| {
          assert k[i] == brand[i];
        } else if i > |brand| {
          assert k[i] == alias[i - |brand| - 1];
        }
      }
    }
  }

  /** The URL a brand record advertises is, up to the leading `/`, the file
      its models are saved to. */
  lemma ModelsUrlNamesModelsFile(brand: string)
    requires IsAlias(brand)
    ensures ModelsUrl(brand) == "/" + ModelsFile(brand)
  {
    SlashBefore("models/", brand);
  }

  /** The URL a model record advertises is, up to the leading `/`, the file
      its prices are saved to. */
  lemma PricesUrlNamesPricesFile(key: string)
    requires IsAlias(key)
    ensures PricesUrl(key) == "/" + PricesFile(key)
  {
    SlashBefore("prices/", key);
  }

  lemma SlashBefore(dir: string, key: string)
    ensures "/" + dir + key + ".json" == "/" + (dir + key + ".json")
  {
  }

  /** The alias a `models_url` was built from, read back from it. */
  function AliasOfModelsUrl(url: string): (alias: string)
    requires |url| >= |"/models/"| + |".json"|
    ensures |alias| == |url| - |"/models/"| - |".json"|
  {
    url[|"/models/"|..|url| - |".json"|]
  }

  /** `models_url` is injective: the alias can be read back from it. */
  lemma ModelsUrlRoundTrip(alias: string)
    requires IsAlias(alias)
    ensures |ModelsUrl(alias)| >= |"/models/"| + |".json"|
    ensures AliasOfModelsUrl(ModelsUrl(alias)) == alias
  {
    var url := ModelsUrl(alias);
    assert url == "/models/" + alias + ".json";
    assert url[|"/models/"|..|url| - |".json"|] == alias;
  }

  /** The composite key is not injective: aliases may contain `_`, so two
      different (brand, model) pairs can share a key and a price file. */
  lemma CompositeKeyCollides()
    ensures IsAlias("a_b") && IsAlias("c") && IsAlias("a") && IsAlias("b_c")
    ensures CompositeKey("a_b", "c") == CompositeKey("a", "b_c")
  {
    assert IsAliasChar('_');
  }
}
