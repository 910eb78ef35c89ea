/** The renderer of the generated region, and what a region tells about its manifest. */
module Render {
  import opened Text
  import opened Splice

  // ---------------------------------------------------------------- the renderer

  method CollectPaths(sources: seq<Source>) returns (out: seq<string>)
    ensures out == Paths(sources)
  {
    out := [];
    for i := 0 to |sources|
      invariant out == Paths(sources[..i])
    {
      assert sources[..i + 1][..i] == sources[..i];
      out := out + [sources[i].path];
    }
    assert sources[..|sources|] == sources;
  }

  method CollectDigests(sources: seq<Source>) returns (out: seq<string>)
    ensures out == Digests(sources)
  {
    out := [];
    for i := 0 to |sources|
      invariant out == Digests(sources[..i])
    {
      assert sources[..i + 1][..i] == sources[..i];
      out := out + [sources[i].sha256];
    }
    assert sources[..|sources|] == sources;
  }

  method CollectTargets(sources: seq<Source>) returns (out: seq<string>)
    ensures out == Targets(sources)
  {
    out := [];
    for i := 0 to |sources|
      invariant out == Targets(sources[..i])
    {
      assert sources[..i + 1][..i] == sources[..i];
      out := out + [InstallTarget(sources[i])];
    }
    assert sources[..|sources|] == sources;
  }

  /** One array assignment. */
  method RenderList(name: ListName, values: seq<string>) returns (out: string)
    ensures out == ListText(List(name, values))
  {
    out := "readonly " + ListNameText(name) + "=(\n";
    var items := "";
    for i := 0 to |values|
      invariant items == ItemLines(values[..i])
    {
      assert values[..i + 1][..i] == values[..i];
      items := items + ItemLine(values[i]);
    }
    assert values[..|values|] == values;
    out := out + items + ")\n";
  }

  lemma FiveTexts(a: List, b: List, c: List, d: List, e: List)
    ensures ListTexts([a, b, c, d, e]) == ListText(a) + ListText(b) + ListText(c) + ListText(d) + ListText(e)
  {
    assert [a, b, c, d, e][..4] == [a, b, c, d] && [a, b, c, d][..3] == [a, b, c];
    assert [a, b, c][..2] == [a, b] && [a, b][..1] == [a] && [a][..0] == [];
    assert Concat(ListText, [a]) == ListText(a);
    assert Concat(ListText, [a, b]) == ListText(a) + ListText(b);
    assert Concat(ListText, [a, b, c]) == ListText(a) + ListText(b) + ListText(c);
    assert Concat(ListText, [a, b, c, d]) == ListText(a) + ListText(b) + ListText(c) + ListText(d);
  }

  method RenderLists(m: Manifest) returns (out: string)
    ensures out == ListTexts(Lists(m))
  {
    var patches := CollectPaths(m.patches);
    out := RenderList(PatchPaths, patches);
    var patchDigests := CollectDigests(m.patches);
    var text := RenderList(PatchDigests, patchDigests);
    out := out + text;
    var overlays := CollectPaths(m.overlays);
    text := RenderList(OverlayPaths, overlays);
    out := out + text;
    var overlayDigests := CollectDigests(m.overlays);
    text := RenderList(OverlayDigests, overlayDigests);
    out := out + text;
    var targets := CollectTargets(m.overlays);
    text := RenderList(OverlayTargets, targets);
    out := out + text;
    FiveTexts(List(PatchPaths, patches), List(PatchDigests, patchDigests), List(OverlayPaths, overlays),
              List(OverlayDigests, overlayDigests), List(OverlayTargets, targets));
  }

  /** The region of a valid manifest: its markers first and last, and no end marker before. */
  method RenderRegion(m: Manifest) returns (region: Option<string>)
    ensures region.Some? <==> Valid(m)
    ensures region.Some? ==> region.value == Region(m)
    ensures region.Some? ==> StartsWith(region.value, BEGIN) && Index(region.value, END) == |region.value| - |END| - 1
  {
    if !Valid(m) { return None; }
    RegionMarkers(m);
    var lists := RenderLists(m);
    region := Some(BEGIN + "\n" + Comments(HEADER) + ScalarLines(Scalars(m)) + lists + END + "\n");
  }

  // ---------------------------------------------------------------- reading a region back

  /** Two texts cut at the last occurrence of a character neither tail contains are cut alike. */
  lemma {:induction false} LastCutUnique(a: string, b: string, x: string, y: string, c: char)
    requires a + [c] + x == b + [c] + y && c !in x && c !in y
    ensures a == b && x == y
    decreases |x|
  {
    var s, t := a + [c] + x, b + [c] + y;
    assert s[|s| - 1] == t[|t| - 1] && s[..|s| - 1] == t[..|t| - 1];
    if x != "" && y != "" {
      var u, v := x[..|x| - 1], y[..|y| - 1];
      assert s[..|s| - 1] == a + [c] + u && t[..|t| - 1] == b + [c] + v;
      LastCutUnique(a, b, u, v, c);
      assert x == u + [x[|x| - 1]] && y == v + [y[|y| - 1]];
    } else {
      assert x == "" ==> s[..|s| - 1] == a && s[|s| - 1] == c;
      assert y == "" ==> t[..|t| - 1] == b && t[|t| - 1] == c;
      assert s[|s| - 1] in x || x == "";
      assert t[|t| - 1] in y || y == "";
    }
  }

  lemma StripSuffix(a: string, b: string, s: string)
    requires a + s == b + s
    ensures a == b
  {
    assert a == (a + s)[..|a|] && b == (b + s)[..|b|];
  }

  /** A quoted value at the end of a text can be read back. */
  lemma StripQuoted(a: string, b: string, x: string, y: string, end: string)
    requires a + Quoted(x) + end == b + Quoted(y) + end && Plain(x) && Plain(y)
    ensures a == b && x == y
  {
    assert a + Quoted(x) + end == (a + "\"" + x) + ("\"" + end);
    assert b + Quoted(y) + end == (b + "\"" + y) + ("\"" + end);
    StripSuffix(a + "\"" + x, b + "\"" + y, "\"" + end);
    LastCutUnique(a, b, x, y, '"');
  }

  lemma Regroup(a: string, b: string, c: string)
    ensures a + (b + c) == a + b + c
  {
  }

  lemma ScalarLineInjective(a: string, b: string, x: Scalar, y: Scalar)
    requires a + ScalarLine(x) == b + ScalarLine(y) && x.name == y.name && Plain(x.value) && Plain(y.value)
    ensures a == b && x == y
  {
    var pre := "readonly " + ScalarText(x.name) + "=";
    assert a + ScalarLine(x) == (a + pre) + Quoted(x.value) + "\n";
    assert b + ScalarLine(y) == (b + pre) + Quoted(y.value) + "\n";
    StripQuoted(a + pre, b + pre, x.value, y.value, "\n");
    StripSuffix(a, b, pre);
  }

  /** At the end of any two equal texts, the lines of `x` and `y` can be taken off, and agree. */
  ghost predicate Cuts<T(!new)>(line: T -> string, x: T, y: T) {
    forall a, b :: a + line(x) == b + line(y) ==> a == b && x == y
  }

  lemma {:induction false} ConcatInjective<T(!new)>(line: T -> string, a: string, b: string, s: seq<T>, t: seq<T>)
    requires |s| == |t| && a + Concat(line, s) == b + Concat(line, t)
    requires forall i :: 0 <= i < |s| ==> Cuts(line, s[i], t[i])
    ensures a == b && s == t
    decreases |s|
  {
    if s == [] {
      assert a + "" == a && b + "" == b;
    } else {
      var k := |s| - 1;
      Regroup(a, Concat(line, s[..k]), line(s[k]));
      Regroup(b, Concat(line, t[..k]), line(t[k]));
      assert Cuts(line, s[k], t[k]);
      ConcatInjective(line, a, b, s[..k], t[..k]);
      assert s == s[..k] + [s[k]] && t == t[..k] + [t[k]];
    }
  }

  lemma ScalarLinesInjective(a: string, b: string, s: seq<Scalar>, t: seq<Scalar>)
    requires |s| == |t| && a + ScalarLines(s) == b + ScalarLines(t)
    requires forall i :: 0 <= i < |s| ==> s[i].name == t[i].name && Plain(s[i].value) && Plain(t[i].value)
    ensures a == b && s == t
  {
    forall i | 0 <= i < |s| ensures Cuts(ScalarLine, s[i], t[i]) {
      forall p, q | p + ScalarLine(s[i]) == q + ScalarLine(t[i]) ensures p == q && s[i] == t[i] {
        ScalarLineInjective(p, q, s[i], t[i]);
      }
    }
    ConcatInjective(ScalarLine, a, b, s, t);
  }

  predicate Opens(a: string) {
    |a| >= 2 && a[|a| - 2] == '('
  }

  lemma ItemsEnd(a: string, v: seq<string>)
    requires Opens(a)
    ensures var s := a + ItemLines(v); |s| >= 2 && s[|s| - 2] == if v == [] then '(' else '"'
  {
    if v != [] {
      var item := ItemLine(v[|v| - 1]);
      assert item[|item| - 2] == '"';
    }
  }

  lemma ItemInjective(a: string, b: string, v: seq<string>, w: seq<string>)
    requires a + ItemLines(v) == b + ItemLines(w) && v != [] && w != [] && AllPlain(v) && AllPlain(w)
    ensures a + ItemLines(v[..|v| - 1]) == b + ItemLines(w[..|w| - 1]) && v[|v| - 1] == w[|w| - 1]
  {
    var k, l := |v| - 1, |w| - 1;
    Regroup(a, ItemLines(v[..k]), ItemLine(v[k]));
    Regroup(b, ItemLines(w[..l]), ItemLine(w[l]));
    ItemLineInjective(a + ItemLines(v[..k]), b + ItemLines(w[..l]), v[k], w[l]);
  }

  lemma ItemLineInjective(a: string, b: string, x: string, y: string)
    requires a + ItemLine(x) == b + ItemLine(y) && Plain(x) && Plain(y)
    ensures a == b && x == y
  {
    assert a + ItemLine(x) == (a + "  ") + Quoted(x) + "\n";
    assert b + ItemLine(y) == (b + "  ") + Quoted(y) + "\n";
    StripQuoted(a + "  ", b + "  ", x, y, "\n");
    StripSuffix(a, b, "  ");
  }

  lemma {:induction false} ItemLinesInjective(a: string, b: string, v: seq<string>, w: seq<string>)
    requires a + ItemLines(v) == b + ItemLines(w) && Opens(a) && Opens(b) && AllPlain(v) && AllPlain(w)
    ensures a == b && v == w
    decreases |v|
  {
    ItemsEnd(a, v);
    ItemsEnd(b, w);
    if v == [] {
      assert a + "" == a && b + "" == b;
    } else {
      ItemInjective(a, b, v, w);
      ItemLinesInjective(a, b, v[..|v| - 1], w[..|w| - 1]);
      assert v == v[..|v| - 1] + [v[|v| - 1]] && w == w[..|w| - 1] + [w[|w| - 1]];
    }
  }

  lemma OpenEnds(a: string, n: ListName)
    ensures Opens(a + ListOpen(n))
  {
    var open := ListOpen(n);
    assert open[|open| - 2] == '(';
  }

  function ListOpen(n: ListName): string { "readonly " + ListNameText(n) + "=(\n" }

  /** The text of a list, regrouped around its items. */
  lemma ListTextIs(a: string, l: List)
    ensures a + ListText(l) == a + ListOpen(l.name) + ItemLines(l.values) + ")\n"
  {
    Regroup(a, ListOpen(l.name) + ItemLines(l.values), ")\n");
    Regroup(a, ListOpen(l.name), ItemLines(l.values));
  }

  lemma ListTextInjective(a: string, b: string, l: List, k: List)
    requires a + ListText(l) == b + ListText(k) && l.name == k.name && AllPlain(l.values) && AllPlain(k.values)
    ensures a == b && l == k
  {
    ListTextIs(a, l);
    ListTextIs(b, k);
    OpenedListInjective(a, b, ListOpen(l.name), l.values, k.values, l.name);
  }

  lemma OpenedListInjective(a: string, b: string, open: string, v: seq<string>, w: seq<string>, n: ListName)
    requires open == ListOpen(n) && AllPlain(v) && AllPlain(w)
    requires a + open + ItemLines(v) + ")\n" == b + open + ItemLines(w) + ")\n"
    ensures a == b && v == w
  {
    StripSuffix(a + open + ItemLines(v), b + open + ItemLines(w), ")\n");
    OpenEnds(a, n);
    OpenEnds(b, n);
    ItemLinesInjective(a + open, b + open, v, w);
    StripSuffix(a, b, open);
  }

  lemma ListTextsInjective(a: string, b: string, s: seq<List>, t: seq<List>)
    requires |s| == |t| && a + ListTexts(s) == b + ListTexts(t)
    requires forall i :: 0 <= i < |s| ==> s[i].name == t[i].name && AllPlain(s[i].values) && AllPlain(t[i].values)
    ensures a == b && s == t
  {
    forall i | 0 <= i < |s| ensures Cuts(ListText, s[i], t[i]) {
      forall p, q | p + ListText(s[i]) == q + ListText(t[i]) ensures p == q && s[i] == t[i] {
        ListTextInjective(p, q, s[i], t[i]);
      }
    }
    ConcatInjective(ListText, a, b, s, t);
  }

  ghost predicate Tagged(tags: seq<string>) {
    |tags| > 0 && forall i :: 0 <= i < |tags| ==> ',' !in tags[i]
  }

  lemma {:induction false} JoinInjective(s: seq<string>, t: seq<string>)
    requires Tagged(s) && Tagged(t) && Join(s) == Join(t)
    ensures s == t
    decreases |s|
  {
    if |s| > 1 && |t| > 1 {
      assert Join(s) == s[0] + [','] + Join(s[1..]) && Join(t) == t[0] + [','] + Join(t[1..]);
      CutUnique(s[0], t[0], Join(s[1..]), Join(t[1..]), ',');
      JoinInjective(s[1..], t[1..]);
      assert s == [s[0]] + s[1..] && t == [t[0]] + t[1..];
    } else {
      assert |s| > 1 ==> ',' in Join(s);
      assert |t| > 1 ==> ',' in Join(t);
    }
  }

  lemma {:induction false} SourcesDetermined(s: seq<Source>, t: seq<Source>, prefix: string)
    requires forall i :: 0 <= i < |s| ==> ValidSource(s[i], prefix)
    requires forall i :: 0 <= i < |t| ==> ValidSource(t[i], prefix)
    requires Paths(s) == Paths(t) && Digests(s) == Digests(t)
    ensures s == t
  {
    SourcesArePlain(s, prefix);
    SourcesArePlain(t, prefix);
    forall i | 0 <= i < |s| ensures s[i] == t[i] {
      assert Paths(s)[i] == Paths(t)[i] && Digests(s)[i] == Digests(t)[i];
    }
  }

  lemma TagsAreTagged(m: Manifest)
    requires Valid(m)
    ensures Tagged(m.tags)
  {
    forall i | 0 <= i < |m.tags| ensures ',' !in m.tags[i] {
      SafeIsPlain(m.tags[i]);
    }
  }

  lemma ScalarsDetermine(m: Manifest, n: Manifest)
    requires Valid(m) && Valid(n) && Scalars(m) == Scalars(n) && Lists(m) == Lists(n)
    ensures m == n
  {
    var s, t := Scalars(m), Scalars(n);
    assert forall i :: 0 <= i < 14 ==> s[i].value == t[i].value;
    assert s[0].value == t[0].value && s[1].value == t[1].value && s[2].value == t[2].value && s[3].value == t[3].value;
    assert s[4].value == t[4].value && s[5].value == t[5].value && s[6].value == t[6].value && s[7].value == t[7].value;
    assert s[10].value == t[10].value && s[11].value == t[11].value && s[12].value == t[12].value && s[13].value == t[13].value;
    TagsAreTagged(m);
    TagsAreTagged(n);
    JoinInjective(m.tags, n.tags);
    DecimalInjective(m.rebuilds, n.rebuilds);
    assert (if m.cgo then "1" else "0")[0] == (if n.cgo then "1" else "0")[0];
    var l, k := Lists(m), Lists(n);
    assert l[0].values == k[0].values && l[1].values == k[1].values && l[2].values == k[2].values && l[3].values == k[3].values;
    SourcesDetermined(m.patches, n.patches, PATCHES);
    SourcesDetermined(m.overlays, n.overlays, OVERLAY);
  }

  lemma ListsArePlain(m: Manifest)
    requires Valid(m)
    ensures forall i :: 0 <= i < |Lists(m)| ==> AllPlain(Lists(m)[i].values)
  {
    SourcesArePlain(m.patches, PATCHES);
    SourcesArePlain(m.overlays, OVERLAY);
  }

  /** Everything after a fixed beginning can be read back. */
  lemma AssignmentsDetermine(m: Manifest, n: Manifest, top: string)
    requires Valid(m) && Valid(n)
    requires top + ScalarLines(Scalars(m)) + ListTexts(Lists(m)) == top + ScalarLines(Scalars(n)) + ListTexts(Lists(n))
    ensures Scalars(m) == Scalars(n) && Lists(m) == Lists(n)
  {
    ScalarValuesArePlain(m);
    ScalarValuesArePlain(n);
    ListsArePlain(m);
    ListsArePlain(n);
    ListTextsInjective(top + ScalarLines(Scalars(m)), top + ScalarLines(Scalars(n)), Lists(m), Lists(n));
    ScalarLinesInjective(top, top, Scalars(m), Scalars(n));
  }

  /** The region determines the manifest: two reviewed manifests that render alike agree on
      every build input, so an unchanged region means unchanged inputs. */
  lemma RegionDeterminesManifest(m: Manifest, n: Manifest)
    requires Valid(m) && Valid(n) && Region(m) == Region(n)
    ensures m == n
  {
    StripMarker(m, n);
    AssignmentsDetermine(m, n, BEGIN + "\n" + Comments(HEADER));
    ScalarsDetermine(m, n);
  }

  lemma StripMarker(m: Manifest, n: Manifest)
    requires Region(m) == Region(n)
    ensures Body(m) == Body(n)
  {
    Regroup(Body(m), END, "\n");
    Regroup(Body(n), END, "\n");
    StripSuffix(Body(m), Body(n), END + "\n");
  }

  // ---------------------------------------------------------------- which name carries which value

  ghost predicate Contains(s: string, t: string) {
    exists p :: Occurs(s, t, p)
  }

  lemma ContainsWithin(a: string, t: string, b: string)
    ensures Contains(a + t + b, t)
  {
    assert (a + t + b)[|a|..|a| + |t|] == t;
    assert Occurs(a + t + b, t, |a|);
  }

  lemma {:induction false} LineIsIn<T>(line: T -> string, s: seq<T>, i: nat, a: string, b: string)
    requires i < |s|
    ensures Contains(a + Concat(line, s) + b, line(s[i]))
    decreases |s|
  {
    var n := |s| - 1;
    if i == n {
      ContainsWithin(a + Concat(line, s[..n]), line(s[n]), b);
      Regroup(a, Concat(line, s[..n]), line(s[n]));
    } else {
      LineIsIn(line, s[..n], i, a, line(s[n]) + b);
      assert a + Concat(line, s[..n]) + (line(s[n]) + b) == a + (Concat(line, s[..n]) + line(s[n])) + b;
    }
  }

  /** Every scalar, and every list, of the manifest is an assignment of the region. */
  lemma ScalarIsIn(m: Manifest, i: nat)
    requires i < |Scalars(m)|
    ensures Contains(Region(m), "readonly " + ScalarText(Scalars(m)[i].name) + "=" + Quoted(Scalars(m)[i].value) + "\n")
  {
    var top, rest := BEGIN + "\n" + Comments(HEADER), ListTexts(Lists(m)) + END + "\n";
    LineIsIn(ScalarLine, Scalars(m), i, top, rest);
    RegionParts(top, ScalarLines(Scalars(m)), ListTexts(Lists(m)), END);
  }

  lemma RegionParts(top: string, scalars: string, lists: string, e: string)
    ensures top + scalars + lists + e + "\n" == top + scalars + (lists + e + "\n")
  {
  }

  lemma ListIsIn(m: Manifest, i: nat)
    requires i < |Lists(m)|
    ensures Contains(Region(m), "readonly " + ListNameText(Lists(m)[i].name) + "=(\n" + ItemLines(Lists(m)[i].values) + ")\n")
  {
    var top := BEGIN + "\n" + Comments(HEADER) + ScalarLines(Scalars(m));
    LineIsIn(ListText, Lists(m), i, top, END + "\n");
    Regroup(top + ListTexts(Lists(m)), END, "\n");
  }

  ghost predicate Assigns(m: Manifest, name: ScalarName, value: string) {
    Contains(Region(m), "readonly " + ScalarText(name) + "=" + Quoted(value) + "\n")
  }

  ghost predicate AssignsList(m: Manifest, name: ListName, values: seq<string>) {
    Contains(Region(m), "readonly " + ListNameText(name) + "=(\n" + ItemLines(values) + ")\n")
  }

  lemma ScalarIsAssigned(m: Manifest, i: nat)
    requires i < |Scalars(m)|
    ensures Assigns(m, Scalars(m)[i].name, Scalars(m)[i].value)
  {
    ScalarIsIn(m, i);
  }

  lemma ListIsAssigned(m: Manifest, i: nat)
    requires i < |Lists(m)|
    ensures AssignsList(m, Lists(m)[i].name, Lists(m)[i].values)
  {
    ListIsIn(m, i);
  }

  /** The region assigns each input of the manifest to its own name. */
  lemma {:induction false} IdentityIsAssigned(m: Manifest)
    ensures Assigns(m, DerivativeVersion, m.derivativeVersion) && Assigns(m, UpstreamRepository, m.repository)
    ensures Assigns(m, UpstreamCommit, m.commit) && Assigns(m, BinarySha256, m.binary) && Assigns(m, BuildImage, m.image)
    ensures Assigns(m, GoVersion, m.goVersion) && Assigns(m, CgoEnabled, if m.cgo then "1" else "0")
  {
    ScalarIsAssigned(m, 0);
    ScalarIsAssigned(m, 1);
    ScalarIsAssigned(m, 2);
    ScalarIsAssigned(m, 13);
    ScalarIsAssigned(m, 3);
    ScalarIsAssigned(m, 4);
    ScalarIsAssigned(m, 5);
  }

  lemma {:induction false} BuildIsAssigned(m: Manifest)
    requires m.rebuilds >= 0
    ensures Assigns(m, TargetOs, m.os) && Assigns(m, TargetArch, m.arch) && Assigns(m, Network, m.network)
    ensures Assigns(m, ModuleMode, m.moduleMode) && Assigns(m, Tags, Join(m.tags))
    ensures Assigns(m, Rebuilds, Decimal(m.rebuilds)) && Assigns(m, Glibc, m.glibc)
  {
    ScalarIsAssigned(m, 6);
    ScalarIsAssigned(m, 7);
    ScalarIsAssigned(m, 8);
    ScalarIsAssigned(m, 9);
    ScalarIsAssigned(m, 10);
    ScalarIsAssigned(m, 11);
    ScalarIsAssigned(m, 12);
  }

  lemma {:induction false} SourcesAreAssigned(m: Manifest)
    ensures AssignsList(m, PatchPaths, Paths(m.patches)) && AssignsList(m, PatchDigests, Digests(m.patches))
    ensures AssignsList(m, OverlayPaths, Paths(m.overlays)) && AssignsList(m, OverlayDigests, Digests(m.overlays))
    ensures AssignsList(m, OverlayTargets, Targets(m.overlays))
  {
    ListIsAssigned(m, 0);
    ListIsAssigned(m, 1);
    ListIsAssigned(m, 2);
    ListIsAssigned(m, 3);
    ListIsAssigned(m, 4);
  }

  /** The names the build script reads. */
  lemma {:induction false} NamesAre()
    ensures ScalarText(DerivativeVersion) == "derivative_version" && ScalarText(UpstreamRepository) == "upstream_repository"
    ensures ScalarText(UpstreamCommit) == "upstream_commit" && ScalarText(BinarySha256) == "expected_binary_sha256"
    ensures ScalarText(BuildImage) == "build_image" && ScalarText(GoVersion) == "build_go_version"
    ensures ScalarText(CgoEnabled) == "build_cgo_enabled" && ScalarText(TargetOs) == "build_target_os"
    ensures ScalarText(TargetArch) == "build_target_arch" && ScalarText(Network) == "build_network"
    ensures ScalarText(ModuleMode) == "build_module_mode" && ScalarText(Tags) == "build_tags"
    ensures ScalarText(Rebuilds) == "build_reproducible_rebuilds" && ScalarText(Glibc) == "build_maximum_required_glibc"
    ensures ListNameText(PatchPaths) == "patch_paths" && ListNameText(PatchDigests) == "patch_sha256s"
    ensures ListNameText(OverlayPaths) == "overlay_paths" && ListNameText(OverlayDigests) == "overlay_sha256s"
    ensures ListNameText(OverlayTargets) == "overlay_targets"
  {
  }

  /** The target of an overlay is its path below the overlay directory. */
  lemma {:induction false} TargetsAreBelow(sources: seq<Source>)
    requires forall i :: 0 <= i < |sources| ==> ValidSource(sources[i], OVERLAY)
    ensures |Targets(sources)| == |sources|
    ensures forall i :: 0 <= i < |sources| ==> OVERLAY + Targets(sources)[i] == sources[i].path
  {
    if sources != [] {
      var front, last := sources[..|sources| - 1], sources[|sources| - 1];
      TargetsAreBelow(front);
      assert ValidSource(last, OVERLAY);
      assert last.path == last.path[..|OVERLAY|] + last.path[|OVERLAY|..];
    }
  }
}
