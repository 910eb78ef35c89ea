/** The generated region of the GARM build script: rendered from the manifest and spliced
    between its markers. */
module Splice {
  import opened Text

  const BEGIN := "#" + " BEGIN GENERATED REGION -- do not edit"
  const END := "#" + " END GENERATED REGION"

  const OVERLAY := "third_party/garm/overlay/"
  const PATCHES := "third_party/garm/patches/"

  // ---------------------------------------------------------------- the manifest

  datatype Source = Source(path: string, sha256: string)

  /** The fields that are build inputs. `reviewed` is the verdict on the checks that concern
      no rendered character: schema, prose, version and digest shapes, clean paths. */
  datatype Manifest = Manifest(
    derivativeVersion: string, repository: string, commit: string, image: string, goVersion: string,
    cgo: bool, os: string, arch: string, network: string, moduleMode: string, tags: seq<string>,
    rebuilds: int, glibc: string, binary: string, patches: seq<Source>, overlays: seq<Source>, reviewed: bool)

  predicate SafeChar(c: char) {
    'A' <= c <= 'Z' || 'a' <= c <= 'z' || '0' <= c <= '9' ||
    c == '@' || c == ':' || c == '/' || c == '.' || c == '_' || c == '+' || c == '-'
  }

  /** `validateScalar`: not empty, and shell-safe throughout. */
  predicate Safe(s: string) {
    s != "" && forall i :: 0 <= i < |s| ==> SafeChar(s[i])
  }

  predicate Hex(s: string, length: nat) {
    |s| == length && forall i :: 0 <= i < |s| ==> '0' <= s[i] <= '9' || 'a' <= s[i] <= 'f'
  }

  predicate StartsWith(s: string, prefix: string) {
    |prefix| <= |s| && s[..|prefix|] == prefix
  }

  predicate ValidSource(s: Source, prefix: string) {
    StartsWith(s.path, prefix) && Safe(s.path) && Hex(s.sha256, 64)
  }

  predicate Valid(m: Manifest) {
    && m.reviewed
    && Safe(m.derivativeVersion) && Safe(m.repository) && Hex(m.commit, 40)
    && |m.patches| > 0 && (forall i :: 0 <= i < |m.patches| ==> ValidSource(m.patches[i], PATCHES))
    && |m.overlays| > 0 && (forall i :: 0 <= i < |m.overlays| ==> ValidSource(m.overlays[i], OVERLAY))
    && Safe(m.image) && Safe(m.goVersion) && Safe(m.os) && Safe(m.arch)
    && m.network == "none" && m.moduleMode == "vendor"
    && |m.tags| > 0 && (forall i :: 0 <= i < |m.tags| ==> Safe(m.tags[i]))
    && m.rebuilds >= 2 && Safe(m.glibc) && Hex(m.binary, 64)
  }

  // ---------------------------------------------------------------- rendering

  /** `strings.Join(tags, ",")`. */
  function Join(tags: seq<string>): string {
    if tags == [] then "" else if |tags| == 1 then tags[0] else tags[0] + "," + Join(tags[1..])
  }

  /** A shell-safe value in Go's %q form: nothing to escape. */
  function Quoted(value: string): string { "\"" + value + "\"" }

  datatype ScalarName =
    | DerivativeVersion | UpstreamRepository | UpstreamCommit | BuildImage | GoVersion | CgoEnabled | TargetOs | TargetArch
    | Network | ModuleMode | Tags | Rebuilds | Glibc | BinarySha256

  function ScalarText(n: ScalarName): string {
    match n
    case DerivativeVersion => "derivative_version"
    case UpstreamRepository => "upstream_repository"
    case UpstreamCommit => "upstream_commit"
    case BuildImage => "build_image"
    case GoVersion => "build_go_version"
    case CgoEnabled => "build_cgo_enabled"
    case TargetOs => "build_target_os"
    case TargetArch => "build_target_arch"
    case Network => "build_network"
    case ModuleMode => "build_module_mode"
    case Tags => "build_tags"
    case Rebuilds => "build_reproducible_rebuilds"
    case Glibc => "build_maximum_required_glibc"
    case BinarySha256 => "expected_binary_sha256"
  }

  datatype Scalar = Scalar(name: ScalarName, value: string)

  function Scalars(m: Manifest): seq<Scalar> {
    [Scalar(DerivativeVersion, m.derivativeVersion),
     Scalar(UpstreamRepository, m.repository),
     Scalar(UpstreamCommit, m.commit),
     Scalar(BuildImage, m.image),
     Scalar(GoVersion, m.goVersion),
     Scalar(CgoEnabled, if m.cgo then "1" else "0"),
     Scalar(TargetOs, m.os),
     Scalar(TargetArch, m.arch),
     Scalar(Network, m.network),
     Scalar(ModuleMode, m.moduleMode),
     Scalar(Tags, Join(m.tags)),
     Scalar(Rebuilds, if m.rebuilds >= 0 then Decimal(m.rebuilds) else "-"),
     Scalar(Glibc, m.glibc),
     Scalar(BinarySha256, m.binary)]
  }

  datatype ListName = PatchPaths | PatchDigests | OverlayPaths | OverlayDigests | OverlayTargets

  function ListNameText(n: ListName): string {
    match n
    case PatchPaths => "patch_paths"
    case PatchDigests => "patch_sha256s"
    case OverlayPaths => "overlay_paths"
    case OverlayDigests => "overlay_sha256s"
    case OverlayTargets => "overlay_targets"
  }

  datatype List = List(name: ListName, values: seq<string>)

  function Paths(sources: seq<Source>): seq<string> {
    if sources == [] then [] else Paths(sources[..|sources| - 1]) + [sources[|sources| - 1].path]
  }

  function Digests(sources: seq<Source>): seq<string> {
    if sources == [] then [] else Digests(sources[..|sources| - 1]) + [sources[|sources| - 1].sha256]
  }

  function InstallTarget(s: Source): string {
    if StartsWith(s.path, OVERLAY) then s.path[|OVERLAY|..] else s.path
  }

  function Targets(sources: seq<Source>): seq<string> {
    if sources == [] then [] else Targets(sources[..|sources| - 1]) + [InstallTarget(sources[|sources| - 1])]
  }

  function Lists(m: Manifest): seq<List> {
    [List(PatchPaths, Paths(m.patches)), List(PatchDigests, Digests(m.patches)),
     List(OverlayPaths, Paths(m.overlays)), List(OverlayDigests, Digests(m.overlays)),
     List(OverlayTargets, Targets(m.overlays))]
  }

  function ScalarLine(s: Scalar): string { "readonly " + ScalarText(s.name) + "=" + Quoted(s.value) + "\n" }

  /** The lines of a list, one after the other. */
  function Concat<T>(line: T -> string, s: seq<T>): string {
    if s == [] then "" else Concat(line, s[..|s| - 1]) + line(s[|s| - 1])
  }

  function ScalarLines(s: seq<Scalar>): string { Concat(ScalarLine, s) }

  function ItemLine(value: string): string { "  " + Quoted(value) + "\n" }

  function ItemLines(values: seq<string>): string { Concat(ItemLine, values) }

  function ListText(l: List): string { "readonly " + ListNameText(l.name) + "=(\n" + ItemLines(l.values) + ")\n" }

  function ListTexts(s: seq<List>): string { Concat(ListText, s) }

  const GENERATOR := " generator: gha-fleet" + " render-garm-build\n"
  const EDIT_SOURCE := " edit-source: " + "config/garm-derivative.yaml\n"
  const NOTE1 := " Every value below is the" + " manifest's. Editing one" + " here detaches the build\n"
  const NOTE2 := " from the provenance it is" + " reviewed against, which" + " is why the region is\n"
  const NOTE3 := " regenerated and compared" + " rather than maintained.\n"

  const HEADER: seq<string> := [GENERATOR, EDIT_SOURCE, "\n", NOTE1, NOTE2, NOTE3]

  function CommentLine(text: string): string { "#" + text }

  function Comments(lines: seq<string>): string { Concat(CommentLine, lines) }

  /** Everything between the markers, the first one included. */
  function Body(m: Manifest): string {
    BEGIN + "\n" + Comments(HEADER) + ScalarLines(Scalars(m)) + ListTexts(Lists(m))
  }

  function Region(m: Manifest): string { Body(m) + END + "\n" }

  // ---------------------------------------------------------------- no end marker inside

  /** No end marker starts in `s`, whatever follows it: each `#` is followed by something else. */
  ghost predicate Clear(s: string) {
    forall p :: 0 <= p < |s| && s[p] == '#' ==> Differs(s, p)
  }

  predicate Differs(s: string, p: int)
    requires 0 <= p < |s|
  {
    (p + 1 < |s| && s[p + 1] != ' ') || (p + 3 < |s| && (s[p + 2] != 'E' || s[p + 3] != 'N'))
  }

  lemma ClearAppend(a: string, b: string)
    requires Clear(a) && Clear(b)
    ensures Clear(a + b)
  {
    var s := a + b;
    forall p | 0 <= p < |s| && s[p] == '#' ensures Differs(s, p) {
      if p < |a| {
        assert a[p] == '#' && Differs(a, p);
      } else {
        assert b[p - |a|] == '#' && Differs(b, p - |a|);
      }
    }
  }

  /** A comment line, without its `#`, that does not look like the end marker. */
  predicate Comment(line: string) {
    line == "\n" || ('#' !in line && |line| > 2 && (line[0] != ' ' || line[1] != 'E' || line[2] != 'N'))
  }

  lemma ClearComment(line: string)
    requires Comment(line)
    ensures Clear("#" + line)
  {
    var s := "#" + line;
    forall p | 0 <= p < |s| && s[p] == '#' ensures Differs(s, p) {
      assert s[p] in line || p == 0;
    }
  }

  lemma CommentOf(a: string, b: string, c: string)
    requires '#' !in a && '#' !in b && '#' !in c && |a| > 2 && (a[1] != 'E' || a[2] != 'N')
    ensures Comment(a + b + c) && Comment(a + b)
  {
  }

  lemma FirstNote()
    ensures Comment(NOTE1)
  {
    CommentOf(" Every value below is the", " manifest's. Editing one", " here detaches the build\n");
  }

  lemma SecondNote()
    ensures Comment(NOTE2)
  {
    CommentOf(" from the provenance it is", " reviewed against, which", " is why the region is\n");
  }

  lemma ThirdNote()
    ensures Comment(NOTE3)
  {
    CommentOf(" regenerated and compared", " rather than maintained.\n", "");
  }

  lemma ToolsAreComments()
    ensures Comment(GENERATOR) && Comment(EDIT_SOURCE)
  {
    CommentOf(" generator: gha-fleet", " render-garm-build\n", "");
    CommentOf(" edit-source: ", "config/garm-derivative.yaml\n", "");
  }

  lemma HeaderIsClear()
    ensures Clear(Comments(HEADER))
  {
    FirstNote();
    SecondNote();
    ThirdNote();
    ToolsAreComments();
    CommentsAreClear(HEADER);
  }

  lemma {:induction false} CommentsAreClear(lines: seq<string>)
    requires forall i :: 0 <= i < |lines| ==> Comment(lines[i])
    ensures Clear(Comments(lines))
  {
    if lines != [] {
      var front, last := lines[..|lines| - 1], lines[|lines| - 1];
      CommentsAreClear(front);
      ClearComment(last);
      ClearAppend(Comments(front), CommentLine(last));
    }
  }

  // ---------------------------------------------------------------- values

  /** Neither a marker nor a closing quote can begin inside. */
  predicate Plain(s: string) {
    '#' !in s && '"' !in s
  }

  lemma SafeIsPlain(s: string)
    requires forall i :: 0 <= i < |s| ==> SafeChar(s[i])
    ensures Plain(s) && ',' !in s
  {
  }

  /** What validation keeps out of a double-quoted shell assignment: quotes, escapes,
      expansions, comments, blanks and line breaks. */
  lemma {:induction false} SafeStaysAValue(s: string)
    requires Safe(s)
    ensures s != "" && '"' !in s && '\'' !in s && '\\' !in s && '$' !in s && '`' !in s && '#' !in s && ' ' !in s && '\n' !in s && ',' !in s
  {
  }

  lemma HexIsPlain(s: string, length: nat)
    requires Hex(s, length)
    ensures Plain(s)
  {
  }

  lemma {:induction false} JoinIsPlain(tags: seq<string>)
    requires forall i :: 0 <= i < |tags| ==> Safe(tags[i])
    ensures Plain(Join(tags))
  {
    if tags != [] {
      SafeIsPlain(tags[0]);
      JoinIsPlain(tags[1..]);
    }
  }

  ghost predicate AllPlain(values: seq<string>) {
    forall i :: 0 <= i < |values| ==> Plain(values[i])
  }

  lemma {:induction false} SourcesArePlain(sources: seq<Source>, prefix: string)
    requires forall i :: 0 <= i < |sources| ==> ValidSource(sources[i], prefix)
    ensures AllPlain(Paths(sources)) && AllPlain(Digests(sources)) && AllPlain(Targets(sources))
    ensures |Paths(sources)| == |sources| && |Digests(sources)| == |sources|
    ensures forall i :: 0 <= i < |sources| ==> Paths(sources)[i] == sources[i].path && Digests(sources)[i] == sources[i].sha256
  {
    if sources != [] {
      var front, last := sources[..|sources| - 1], sources[|sources| - 1];
      SourcesArePlain(front, prefix);
      assert ValidSource(last, prefix);
      SafeIsPlain(last.path);
      SafeIsPlain(InstallTarget(last));
      HexIsPlain(last.sha256, 64);
    }
  }

  lemma ScalarValuesArePlain(m: Manifest)
    requires Valid(m)
    ensures forall i :: 0 <= i < |Scalars(m)| ==> Plain(Scalars(m)[i].value)
  {
    SafeIsPlain(m.derivativeVersion);
    SafeIsPlain(m.repository);
    HexIsPlain(m.commit, 40);
    SafeIsPlain(m.image);
    SafeIsPlain(m.goVersion);
    SafeIsPlain(m.os);
    SafeIsPlain(m.arch);
    JoinIsPlain(m.tags);
    SafeIsPlain(Decimal(m.rebuilds));
    SafeIsPlain(m.glibc);
    HexIsPlain(m.binary, 64);
  }

  lemma ScalarNamesHaveNoMarker(n: ScalarName)
    ensures '#' !in ScalarText(n)
  {
    if EarlyName(n) { EarlyNamesHaveNoMarker(n); } else { LateNamesHaveNoMarker(n); }
  }

  predicate EarlyName(n: ScalarName) {
    n.DerivativeVersion? || n.UpstreamRepository? || n.UpstreamCommit? || n.BuildImage? || n.GoVersion? || n.CgoEnabled? || n.TargetOs?
  }

  lemma EarlyNamesHaveNoMarker(n: ScalarName)
    requires EarlyName(n)
    ensures '#' !in ScalarText(n)
  {
  }

  lemma LateNamesHaveNoMarker(n: ScalarName)
    requires !EarlyName(n)
    ensures '#' !in ScalarText(n)
  {
  }

  lemma ListNamesHaveNoMarker(n: ListName)
    ensures '#' !in ListNameText(n)
  {
  }

  lemma {:induction false} NoMarkerIn<T>(line: T -> string, s: seq<T>)
    requires forall x :: x in s ==> '#' !in line(x)
    ensures '#' !in Concat(line, s)
  {
    if s != [] {
      NoMarkerIn(line, s[..|s| - 1]);
    }
  }

  lemma ScalarLinesAreClear(s: seq<Scalar>)
    requires forall i :: 0 <= i < |s| ==> Plain(s[i].value)
    ensures '#' !in ScalarLines(s)
  {
    forall x | x in s ensures '#' !in ScalarLine(x) {
      ScalarNamesHaveNoMarker(x.name);
    }
    NoMarkerIn(ScalarLine, s);
  }

  lemma ListTextsAreClear(s: seq<List>)
    requires forall i :: 0 <= i < |s| ==> AllPlain(s[i].values)
    ensures '#' !in ListTexts(s)
  {
    forall l | l in s ensures '#' !in ListText(l) {
      ListNamesHaveNoMarker(l.name);
      NoMarkerIn(ItemLine, l.values);
    }
    NoMarkerIn(ListText, s);
  }

  lemma BeginIsClear()
    ensures Clear(BEGIN + "\n")
  {
    ClearComment(" BEGIN GENERATED REGION -- do not edit");
    assert Clear("\n");
    ClearAppend(BEGIN, "\n");
  }

  lemma ClearParts(a: string, b: string, c: string, d: string)
    requires Clear(a) && Clear(b) && '#' !in c && '#' !in d
    ensures Clear(a + b + c + d)
  {
    ClearAppend(a, b);
    ClearAppend(a + b, c);
    ClearAppend(a + b + c, d);
  }

  lemma StartsWithPart(a: string, b: string, c: string, d: string, e: string)
    ensures StartsWith(a + b + c + d + e, a)
  {
  }

  lemma AssignmentsAreClear(m: Manifest)
    requires Valid(m)
    ensures '#' !in ScalarLines(Scalars(m)) && '#' !in ListTexts(Lists(m))
  {
    ScalarValuesArePlain(m);
    ScalarLinesAreClear(Scalars(m));
    SourcesArePlain(m.patches, PATCHES);
    SourcesArePlain(m.overlays, OVERLAY);
    ListTextsAreClear(Lists(m));
  }

  /** Shell-safe values cannot spell the end marker, and no comment of the header does. */
  lemma {:induction false} BodyIsClear(m: Manifest)
    requires Valid(m)
    ensures Clear(Body(m)) && StartsWith(Body(m), BEGIN)
  {
    BeginIsClear();
    HeaderIsClear();
    AssignmentsAreClear(m);
    ClearParts(BEGIN + "\n", Comments(HEADER), ScalarLines(Scalars(m)), ListTexts(Lists(m)));
    StartsWithPart(BEGIN, "\n", Comments(HEADER), ScalarLines(Scalars(m)), ListTexts(Lists(m)));
  }

  // ---------------------------------------------------------------- splicing

  predicate Occurs(s: string, t: string, p: int) {
    0 <= p && p + |t| <= |s| && s[p..p + |t|] == t
  }

  /** `strings.Index`: the first occurrence, or -1. */
  function Index(s: string, t: string): (i: int)
    ensures i == -1 || Occurs(s, t, i)
    ensures forall p :: Occurs(s, t, p) ==> 0 <= i <= p
  {
    IndexFrom(s, t, 0)
  }

  function IndexFrom(s: string, t: string, k: nat): (i: int)
    ensures i == -1 || (k <= i && Occurs(s, t, i))
    ensures forall p :: k <= p && Occurs(s, t, p) ==> k <= i <= p
    decreases |s| - k
  {
    if k + |t| > |s| then -1 else if s[k..k + |t|] == t then k else IndexFrom(s, t, k + 1)
  }

  /** `OutOfRange` is the run-time panic when nothing follows the end marker. */
  datatype Spliced = Ok(script: string) | Invalid | NoBegin | NoEnd | OutOfRange

  function SpliceText(b: string, e: string, region: string, script: string): Spliced {
    var begin, end := Index(script, b), Index(script, e);
    if begin < 0 then NoBegin
    else if end < begin then NoEnd
    else if end + |e| + 1 > |script| then OutOfRange
    else Ok(script[..begin] + region + script[end + |e| + 1..])
  }

  /** `SpliceRegion`. */
  function SpliceRegion(m: Manifest, script: string): Spliced {
    if !Valid(m) then Invalid else SpliceText(BEGIN, END, Region(m), script)
  }

  /** `marker` does not start anywhere in `body`, whatever follows. */
  ghost predicate Bars(body: string, marker: string) {
    forall p, rest :: 0 <= p < |body| ==> !Occurs(body + rest, marker, p)
  }

  lemma ClearBarsEnd(body: string)
    requires Clear(body)
    ensures Bars(body, END)
  {
    forall p, rest | 0 <= p < |body| ensures !Occurs(body + rest, END, p) {
      EndBegins(body + rest, p);
    }
  }

  lemma EndBegins(s: string, p: int)
    ensures Occurs(s, END, p) ==> s[p] == '#' && s[p + 1] == ' ' && s[p + 2] == 'E' && s[p + 3] == 'N'
  {
    if Occurs(s, END, p) {
      var o := s[p..p + |END|];
      assert s[p] == o[0] && s[p + 1] == o[1] && s[p + 2] == o[2] && s[p + 3] == o[3];
    }
  }

  /** Where texts agree, so do the occurrences that fit in. */
  lemma OccursInPrefix(s: string, t: string, common: nat, marker: string, p: int)
    requires common <= |s| && common <= |t| && s[..common] == t[..common]
    requires p + |marker| <= common && Occurs(t, marker, p)
    ensures Occurs(s, marker, p)
  {
    assert s[p..p + |marker|] == s[..common][p..p + |marker|];
    assert t[p..p + |marker|] == t[..common][p..p + |marker|];
  }

  lemma OccursShift(head: string, s: string, marker: string, p: int)
    requires |head| <= p
    ensures Occurs(head + s, marker, p) <==> Occurs(s, marker, p - |head|)
  {
    if p + |marker| <= |head + s| {
      assert (head + s)[p..p + |marker|] == s[p - |head|..p - |head| + |marker|];
    }
  }

  /** Where the markers are found, and what stands around them. */
  ghost predicate Cut(b: string, e: string, script: string, head: string, tail: string) {
    && Index(script, b) == |head| <= Index(script, e) && Index(script, e) + |e| + 1 <= |script|
    && head == script[..|head|] && tail == script[Index(script, e) + |e| + 1..]
  }

  lemma SpliceAtCut(b: string, e: string, region: string, script: string, head: string, tail: string)
    requires Cut(b, e, script, head, tail)
    ensures SpliceText(b, e, region, script) == Ok(head + region + tail)
  {
  }

  /** The begin marker is found where it was: an earlier occurrence would straddle into the
      region, but the region begins as the old one did. */
  lemma BeginAgain(b: string, e: string, script: string, head: string, tail: string, rest: string)
    requires Cut(b, e, script, head, tail) && StartsWith(rest, b)
    ensures Index(head + rest, b) == |head|
    ensures (head + rest)[..|head| + |b|] == script[..|head| + |b|]
  {
    var t := head + rest;
    var common := |head| + |b|;
    assert t[..common] == head + b;
    assert script[..common] == head + script[|head|..common];
    OccursShift(head, rest, b, |head|);
    if Index(t, b) < |head| {
      OccursInPrefix(script, t, common, b, Index(t, b));
    }
  }

  /** The end marker is found at the end of the new region. */
  lemma EndAgain(b: string, e: string, script: string, head: string, tail: string, body: string, after: string)
    requires Cut(b, e, script, head, tail) && StartsWith(body, b) && Bars(body, e) && |e| <= |b|
    ensures Index(head + (body + (e + after)), e) == |head| + |body|
  {
    var rest := body + (e + after);
    var t := head + rest;
    assert rest[..|b|] == body[..|b|];
    BeginAgain(b, e, script, head, tail, rest);
    OccursShift(head, rest, e, |head| + |body|);
    OccursShift(body, e + after, e, |body|);
    assert Occurs(e + after, e, 0);
    var p := Index(t, e);
    if p < |head| {
      OccursInPrefix(script, t, |head| + |b|, e, p);
    } else {
      OccursShift(head, rest, e, p);
    }
  }

  lemma SplicedIs(head: string, body: string, e: string, tail: string)
    ensures head + (body + e + "\n") + tail == head + (body + (e + ("\n" + tail)))
  {
  }

  /** A spliced script is cut again at the region, with the same text around it. */
  lemma CutAgain(b: string, e: string, script: string, head: string, tail: string, body: string)
    requires Cut(b, e, script, head, tail) && StartsWith(body, b) && Bars(body, e) && |e| <= |b|
    ensures Cut(b, e, head + (body + e + "\n") + tail, head, tail)
    ensures Index(head + (body + e + "\n") + tail, e) == |head| + |body|
  {
    var rest := body + (e + ("\n" + tail));
    var t := head + rest;
    SplicedIs(head, body, e, tail);
    assert rest[..|b|] == body[..|b|];
    BeginAgain(b, e, script, head, tail, rest);
    EndAgain(b, e, script, head, tail, body, "\n" + tail);
    assert t[..|head|] == head;
    assert t[|head| + |body| + |e| + 1..] == tail;
  }

  lemma CutOf(b: string, e: string, region: string, script: string) returns (head: string, tail: string)
    requires SpliceText(b, e, region, script).Ok?
    ensures Cut(b, e, script, head, tail)
  {
    head, tail := script[..Index(script, b)], script[Index(script, e) + |e| + 1..];
  }

  // ---------------------------------------------------------------- the promises

  lemma RegionShape(m: Manifest)
    requires Valid(m)
    ensures StartsWith(Body(m), BEGIN) && Bars(Body(m), END) && |END| <= |BEGIN|
  {
    BodyIsClear(m);
    ClearBarsEnd(Body(m));
  }

  /** A region begins with its begin marker, and its only end marker is its last line. */
  lemma RegionMarkers(m: Manifest)
    requires Valid(m)
    ensures StartsWith(Region(m), BEGIN) && Index(Region(m), BEGIN) == 0
    ensures Index(Region(m), END) == |Region(m)| - |END| - 1
  {
    RegionShape(m);
    MarkersOf(BEGIN, END, Body(m));
  }

  lemma MarkersOf(b: string, e: string, body: string)
    requires StartsWith(body, b) && Bars(body, e)
    ensures StartsWith(body + e + "\n", b) && Index(body + e + "\n", b) == 0 && Index(body + e + "\n", e) == |body|
  {
    var s := body + (e + "\n");
    assert s == body + e + "\n";
    assert s[..|b|] == body[..|b|];
    assert Occurs(s, b, 0);
    OccursShift(body, e + "\n", e, |body|);
    assert Occurs(e + "\n", e, 0);
  }

  /** Both markers are found, the begin marker first. */
  predicate Marked(b: string, e: string, script: string) {
    0 <= Index(script, b) <= Index(script, e)
  }

  /** How much text follows the end marker. */
  function Remaining(e: string, script: string): int {
    |script| - Index(script, e) - |e|
  }

  /** What a caller can check: the manifest is valid, the script is marked, and some
      character follows the end marker. */
  predicate Spliceable(m: Manifest, script: string) {
    Valid(m) && Marked(BEGIN, END, script) && Remaining(END, script) > 0
  }

  lemma SpliceTextOutcome(b: string, e: string, region: string, script: string)
    ensures var r := SpliceText(b, e, region, script);
            && (r.Ok? <==> Marked(b, e, script) && Remaining(e, script) > 0)
            && (r.OutOfRange? <==> Marked(b, e, script) && Remaining(e, script) == 0)
            && (r.NoBegin? <==> forall p :: !Occurs(script, b, p))
            && !r.Invalid?
  {
    var begin := Index(script, b);
    assert begin >= 0 ==> Occurs(script, b, begin);
  }

  /** Exactly when a splice succeeds, and exactly when it runs out of the script instead of
      reporting an error: when the end marker ends the script. */
  lemma {:induction false} SpliceOutcome(m: Manifest, script: string)
    ensures SpliceRegion(m, script).Ok? <==> Spliceable(m, script)
    ensures SpliceRegion(m, script).OutOfRange? <==>
            Valid(m) && Marked(BEGIN, END, script) && Index(script, END) + |END| == |script|
  {
    SpliceTextOutcome(BEGIN, END, Region(m), script);
  }

  /** Splicing is a projection: it works again on its result and changes nothing, and
      splicing another manifest over it is the same as splicing that one alone. */
  lemma {:induction false} SpliceIsAProjection(m: Manifest, n: Manifest, script: string)
    requires Spliceable(m, script)
    ensures SpliceRegion(m, script).Ok?
    ensures Spliceable(m, SpliceRegion(m, script).script)
    ensures SpliceRegion(m, SpliceRegion(m, script).script) == SpliceRegion(m, script)
    ensures SpliceRegion(n, SpliceRegion(m, script).script) == SpliceRegion(n, script)
  {
    SpliceOutcome(m, script);
    RegionShape(m);
    SpliceOver(BEGIN, END, Body(m), Region(m), script);
    SpliceOver(BEGIN, END, Body(m), Region(n), script);
    SpliceOutcome(m, SpliceRegion(m, script).script);
  }

  lemma SpliceOver(b: string, e: string, body: string, other: string, script: string)
    requires StartsWith(body, b) && Bars(body, e) && |e| <= |b|
    requires SpliceText(b, e, body + e + "\n", script).Ok?
    ensures SpliceText(b, e, other, SpliceText(b, e, body + e + "\n", script).script) == SpliceText(b, e, other, script)
  {
    var head, tail := CutOf(b, e, body + e + "\n", script);
    SpliceAtCut(b, e, body + e + "\n", script, head, tail);
    SpliceAtCut(b, e, other, script, head, tail);
    CutAgain(b, e, script, head, tail, body);
    SpliceAtCut(b, e, other, head + (body + e + "\n") + tail, head, tail);
  }

  /** The text from the end marker on, the marker excluded; empty when there is none. */
  function After(script: string, e: string): string {
    var end := Index(script, e);
    if end < 0 then "" else script[end + |e|..]
  }

  function Before(script: string, b: string): string {
    var begin := Index(script, b);
    if begin < 0 then "" else script[..begin]
  }

  /** `t` keeps all text of `script` before the region, and the text after it exactly when a
      line break follows the end marker, for the character that stands there is replaced
      by one; and its region is the given one. */
  predicate Keeps(b: string, e: string, region: string, script: string, t: string) {
    && Before(t, b) == Before(script, b)
    && After(script, e) != "" && After(t, e) != "" && After(t, e)[1..] == After(script, e)[1..]
    && (After(t, e) == After(script, e) <==> After(script, e)[0] == '\n')
    && t == Before(t, b) + region + After(t, e)[1..]
  }

  /** A spliced script is the old one with its region replaced. */
  lemma {:induction false} SpliceReplacesRegion(m: Manifest, script: string)
    requires Spliceable(m, script)
    ensures SpliceRegion(m, script).Ok?
    ensures Keeps(BEGIN, END, Region(m), script, SpliceRegion(m, script).script)
  {
    SpliceOutcome(m, script);
    RegionShape(m);
    OutsideOf(BEGIN, END, Body(m), script);
  }

  /** The splice succeeded and all text outside the region is as it was. */
  predicate OutsideKept(m: Manifest, script: string) {
    var r := SpliceRegion(m, script);
    r.Ok? && Before(r.script, BEGIN) == Before(script, BEGIN) && After(r.script, END) == After(script, END)
  }

  predicate LineBreakFollows(e: string, script: string) {
    After(script, e) != "" && After(script, e)[0] == '\n'
  }

  /** For every manifest and script: the text outside the region is kept if and only if the
      manifest is valid, the script is marked and a line break follows the end marker. */
  lemma {:induction false} OutsideIsKeptIff(m: Manifest, script: string)
    ensures OutsideKept(m, script) <==> Valid(m) && Marked(BEGIN, END, script) && LineBreakFollows(END, script)
  {
    SpliceOutcome(m, script);
    AfterRemains(END, script);
    if Spliceable(m, script) {
      SpliceReplacesRegion(m, script);
    }
  }

  lemma AfterRemains(e: string, script: string)
    requires e != ""
    ensures Index(script, e) >= 0 ==> |After(script, e)| == Remaining(e, script)
  {
  }

  // ---------------------------------------------------------------- scripts that fail

  /** The shortest region: the two markers, and then anything. */
  lemma ShortScript(rest: string)
    ensures Index(BEGIN + (END + rest), BEGIN) == 0 && Index(BEGIN + (END + rest), END) == |BEGIN|
  {
    ClearComment(" BEGIN GENERATED REGION -- do not edit");
    ClearBarsEnd(BEGIN);
    FirstAfter(BEGIN, END, rest);
  }

  lemma FirstAfter(b: string, e: string, rest: string)
    requires Bars(b, e)
    ensures Index(b + (e + rest), b) == 0 && Index(b + (e + rest), e) == |b|
  {
    var s := b + (e + rest);
    assert Occurs(s, b, 0);
    OccursShift(b, e + rest, e, |b|);
    assert Occurs(e + rest, e, 0);
    assert Occurs(s, e, |b|);
  }

  function Repeated(n: nat): (s: string)
    ensures Hex(s, n)
  {
    if n == 0 then "" else Repeated(n - 1) + "0"
  }

  lemma PrefixesAreSafe()
    ensures Safe(PATCHES) && Safe(OVERLAY)
  {
  }

  lemma SafePath(prefix: string, digest: string)
    requires Safe(prefix) && Hex(digest, 64)
    ensures ValidSource(Source(prefix + "x", digest), prefix)
  {
  }

  /** Valid manifests exist. */
  lemma SomeManifest() returns (m: Manifest)
    ensures Valid(m)
  {
    var digest := Repeated(64);
    PrefixesAreSafe();
    SafePath(PATCHES, digest);
    SafePath(OVERLAY, digest);
    m := ManifestOf(Repeated(40), digest, Source(PATCHES + "x", digest), Source(OVERLAY + "x", digest));
  }

  lemma ManifestOf(commit: string, digest: string, patch: Source, overlay: Source) returns (m: Manifest)
    requires Hex(commit, 40) && Hex(digest, 64) && ValidSource(patch, PATCHES) && ValidSource(overlay, OVERLAY)
    ensures Valid(m)
  {
    m := Manifest("v", "r", commit, "i", "g", false, "o", "a", "none", "vendor", ["t"], 2, "2", digest, [patch], [overlay], true);
  }

  /** A script that loses the character after its end marker, for every valid manifest. */
  lemma DroppedCharacter(m: Manifest) returns (script: string)
    requires Valid(m)
    ensures Spliceable(m, script) && SpliceRegion(m, script).Ok? && !OutsideKept(m, script)
  {
    script := BEGIN + (END + "x");
    ShortScript("x");
    AfterShort(BEGIN, END, "x");
    OutsideIsKeptIff(m, script);
    SpliceOutcome(m, script);
  }

  lemma AfterShort(b: string, e: string, rest: string)
    requires Index(b + (e + rest), e) == |b|
    ensures After(b + (e + rest), e) == rest && Remaining(e, b + (e + rest)) == |rest|
  {
  }

  /** A script that ends at its end marker makes every valid manifest run out of range. */
  lemma PanicAtTheEnd(m: Manifest) returns (script: string)
    requires Valid(m)
    ensures SpliceRegion(m, script).OutOfRange?
  {
    script := BEGIN + (END + "");
    ShortScript("");
    AfterShort(BEGIN, END, "");
    SpliceOutcome(m, script);
  }

  lemma OutsideOf(b: string, e: string, body: string, script: string)
    requires StartsWith(body, b) && Bars(body, e) && |e| <= |b|
    requires SpliceText(b, e, body + e + "\n", script).Ok?
    ensures Keeps(b, e, body + e + "\n", script, SpliceText(b, e, body + e + "\n", script).script)
  {
    var head, tail := CutOf(b, e, body + e + "\n", script);
    SpliceAtCut(b, e, body + e + "\n", script, head, tail);
    CutAgain(b, e, script, head, tail, body);
    CutAfter(b, e, script, head, tail);
    var t := head + (body + e + "\n") + tail;
    CutAfter(b, e, t, head, tail);
    SplicedIs(head, body, e, tail);
    assert After(t, e)[0] == t[|head| + |body| + |e|] == '\n';
  }

  lemma CutAfter(b: string, e: string, script: string, head: string, tail: string)
    requires Cut(b, e, script, head, tail)
    ensures Before(script, b) == head
    ensures After(script, e) != "" && After(script, e)[1..] == tail && After(script, e) == [After(script, e)[0]] + tail
  {
  }
}
