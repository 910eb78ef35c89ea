/** Cache keys: organization/repository/trust/class roots and the objects below them. */
module Namespace {
  import opened Text

  // ---------------------------------------------------------------- paths

  ghost predicate NoSlash(parts: seq<string>) {
    forall i :: 0 <= i < |parts| ==> '/' !in parts[i]
  }

  /** `strings.Split` at every slash. */
  function Split(s: string): (parts: seq<string>)
    ensures |parts| >= 1 && NoSlash(parts)
  {
    if s == "" then [""]
    else if s[0] == '/' then [""] + Split(s[1..])
    else var rest := Split(s[1..]); [[s[0]] + rest[0]] + rest[1..]
  }

  /** `strings.Join` with slashes. */
  function Join(parts: seq<string>): string {
    if parts == [] then "" else if |parts| == 1 then parts[0] else parts[0] + "/" + Join(parts[1..])
  }

  lemma {:induction false} JoinSplit(s: string)
    ensures Join(Split(s)) == s
  {
    if s != "" {
      JoinSplit(s[1..]);
      var rest := Split(s[1..]);
      if s[0] == '/' {
        assert ([""] + rest)[1..] == rest;
      } else {
        assert Split(s)[1..] == rest[1..];
      }
    }
  }

  /** A text without a slash in front of a slash splits off as the first part. */
  lemma {:induction false} SplitCons(a: string, s: string)
    requires '/' !in a
    ensures Split(a + "/" + s) == [a] + Split(s)
    ensures Split(a) == [a]
  {
    if a == "" {
      assert (a + "/" + s)[1..] == s;
    } else {
      SplitCons(a[1..], s);
      assert (a + "/" + s)[1..] == a[1..] + "/" + s;
      assert [a[0]] + a[1..] == a;
    }
  }

  lemma {:induction false} SplitJoin(parts: seq<string>)
    requires |parts| >= 1 && NoSlash(parts)
    ensures Split(Join(parts)) == parts
  {
    SplitCons(parts[0], Join(parts[1..]));
    if |parts| == 1 {
      assert parts == [parts[0]];
    } else {
      SplitJoin(parts[1..]);
    }
  }

  lemma {:induction false} JoinFlat(a: seq<string>, b: seq<string>)
    requires |a| >= 1
    ensures Join([Join(a)] + b) == Join(a + b)
  {
    if b == [] {
      assert [Join(a)] + b == [Join(a)] && a + b == a;
    } else if |a| == 1 {
      assert [Join(a)] + b == a + b;
    } else {
      JoinFlat(a[1..], b);
      assert ([Join(a)] + b)[1..] == b && ([Join(a[1..])] + b)[1..] == b && (a + b)[1..] == a[1..] + b;
      assert Join([Join(a)] + b) == a[0] + "/" + Join(a[1..]) + "/" + Join(b);
      assert Join(a + b) == a[0] + "/" + Join(a[1..] + b);
      assert Join([Join(a[1..])] + b) == Join(a[1..]) + "/" + Join(b);
    }
  }

  /** Two paths that agree, cut after the same number of slash-free parts, agree part by part. */
  lemma {:induction false} PathCut(a: seq<string>, b: seq<string>, x: string, y: string)
    requires |a| == |b| >= 1 && NoSlash(a) && NoSlash(b)
    requires Join(a) + "/" + x == Join(b) + "/" + y
    ensures a == b && x == y
  {
    if |a| == 1 {
      CutUnique(a[0], b[0], x, y, '/');
    } else {
      var u, v := Join(a[1..]) + "/" + x, Join(b[1..]) + "/" + y;
      assert Join(a) + "/" + x == a[0] + ['/'] + u && Join(b) + "/" + y == b[0] + ['/'] + v;
      CutUnique(a[0], b[0], u, v, '/');
      PathCut(a[1..], b[1..], x, y);
      assert a == [a[0]] + a[1..] && b == [b[0]] + b[1..];
    }
  }

  // ---------------------------------------------------------------- trust roots

  const TRUSTED := "trusted"
  const UNTRUSTED := "untrusted"
  const PROMOTED := "promoted"
  const TRUST := "trust"

  predicate ValidClass(c: string) {
    c == TRUSTED || c == UNTRUSTED || c == PROMOTED
  }

  predicate ValidSegment(s: string) {
    s != "" && s != "." && s != ".." && '/' !in s && '\\' !in s
  }

  predicate IsRepository(parts: seq<string>) {
    |parts| == 2 && ValidSegment(parts[0]) && ValidSegment(parts[1])
  }

  function RootParts(repository: seq<string>, class_: string): seq<string> {
    repository + [TRUST, class_]
  }

  function PrefixRootFor(repository: string, class_: string): Option<string> {
    if !ValidClass(class_) then None
    else
      var parts := Split(repository);
      if !IsRepository(parts) then None else Some(Join(RootParts(parts, class_)))
  }

  datatype Root = Root(repository: string, class_: string)

  function ParsePrefixRoot(prefix: string): Option<Root> {
    var parts := Split(prefix);
    if |parts| != 4 || !ValidSegment(parts[0]) || !ValidSegment(parts[1]) || parts[2] != TRUST then None
    else if !ValidClass(parts[3]) then None
    else Some(Root(parts[0] + "/" + parts[1], parts[3]))
  }

  lemma WordsHaveNoSlash(class_: string)
    requires ValidClass(class_)
    ensures '/' !in class_ && '/' !in TRUST
  {
  }

  /** The parts of a printed root. */
  lemma RootIs(repository: string, class_: string)
    requires PrefixRootFor(repository, class_).Some?
    ensures var parts := RootParts(Split(repository), class_);
            && |parts| == 4 && NoSlash(parts) && Split(PrefixRootFor(repository, class_).value) == parts
            && parts[0] + "/" + parts[1] == repository
  {
    var parts := RootParts(Split(repository), class_);
    WordsHaveNoSlash(class_);
    SplitJoin(parts);
    JoinSplit(repository);
    PairJoin(Split(repository));
  }

  lemma PairJoin(parts: seq<string>)
    requires |parts| == 2
    ensures Join(parts) == parts[0] + "/" + parts[1]
  {
    assert parts[1..] == [parts[1]];
  }

  /** Printer and parser are inverse to each other: a root is printed for a repository and
      class exactly when it is parsed as that repository and class. */
  lemma PrintsIffParses(repository: string, class_: string, prefix: string)
    ensures PrefixRootFor(repository, class_) == Some(prefix) <==> ParsePrefixRoot(prefix) == Some(Root(repository, class_))
  {
    if PrefixRootFor(repository, class_) == Some(prefix) {
      RootIs(repository, class_);
    }
    if ParsePrefixRoot(prefix) == Some(Root(repository, class_)) {
      var parts := Split(prefix);
      JoinSplit(prefix);
      PairJoin(parts[..2]);
      SplitJoin(parts[..2]);
      assert RootParts(parts[..2], class_) == parts;
    }
  }

  /** The trees below two roots never meet, unless the roots are the same. */
  lemma RootsAreApart(r: string, c: string, s: string, d: string, x: string, y: string)
    requires PrefixRootFor(r, c).Some? && PrefixRootFor(s, d).Some?
    requires PrefixRootFor(r, c).value + "/" + x == PrefixRootFor(s, d).value + "/" + y
    ensures r == s && c == d && x == y
  {
    RootIs(r, c);
    RootIs(s, d);
    PathCut(RootParts(Split(r), c), RootParts(Split(s), d), x, y);
  }

  /** In particular no root is a path prefix of another: it has no further segment. */
  lemma NoRootBelowAnother(r: string, c: string, s: string, d: string, x: string)
    requires PrefixRootFor(r, c).Some? && PrefixRootFor(s, d).Some?
    ensures PrefixRootFor(r, c).value + "/" + x != PrefixRootFor(s, d).value
  {
    RootIs(r, c);
    RootIs(s, d);
    var parts := RootParts(Split(r), c);
    if PrefixRootFor(r, c).value + "/" + x == PrefixRootFor(s, d).value {
      JoinSplit(x);
      JoinMore(parts, Split(x));
      SplitJoin(parts + Split(x));
    }
  }

  lemma {:induction false} JoinMore(a: seq<string>, b: seq<string>)
    requires |a| >= 1 && |b| >= 1
    ensures Join(a + b) == Join(a) + "/" + Join(b)
  {
    assert (a + b)[1..] == a[1..] + b;
    if |a| > 1 {
      JoinMore(a[1..], b);
    } else {
      assert a[1..] + b == b;
    }
  }

  // ---------------------------------------------------------------- objects

  datatype Object = Object(
    class_: string, platform: string, arch: string, toolchain: string, lockDigest: string, refClass: string, name: string)

  function Components(o: Object): seq<string> {
    [o.platform, o.arch, o.toolchain, o.lockDigest, o.refClass]
  }

  predicate ValidName(name: string) {
    name != "" && name[0] != '/' && !(exists i :: 0 <= i < |name| - 1 && name[i] == '.' && name[i + 1] == '.')
  }

  /** The object's components are single segments and its name stays inside. */
  predicate Named(o: Object) {
    (forall i :: 0 <= i < 5 ==> ValidSegment(Components(o)[i])) && ValidName(o.name)
  }

  function KeyUnder(repository: string, o: Object): Option<string> {
    var root := PrefixRootFor(repository, o.class_);
    if root.None? || !Named(o) then None
    else Some(Join([root.value] + Components(o)) + "/" + o.name)
  }

  /** A key in its nine parts and the name. */
  lemma KeyIs(repository: string, o: Object)
    requires KeyUnder(repository, o).Some?
    ensures var parts := RootParts(Split(repository), o.class_) + Components(o);
            |parts| == 9 && NoSlash(parts) && KeyUnder(repository, o).value == Join(parts) + "/" + o.name
  {
    RootIs(repository, o.class_);
    JoinFlat(RootParts(Split(repository), o.class_), Components(o));
    forall i | 0 <= i < 5 ensures '/' !in Components(o)[i] {
      assert ValidSegment(Components(o)[i]);
    }
  }

  /** Keys are injective, over all repositories too: equal keys name the same object, in
      every component, although the name may contain slashes. */
  lemma KeysAreInjective(r: string, s: string, o: Object, p: Object)
    requires KeyUnder(r, o).Some? && KeyUnder(r, o) == KeyUnder(s, p)
    ensures o == p && r == s
  {
    KeyIs(r, o);
    KeyIs(s, p);
    var a, b := RootParts(Split(r), o.class_), RootParts(Split(s), p.class_);
    RootIs(r, o.class_);
    RootIs(s, p.class_);
    PathCut(a + Components(o), b + Components(p), o.name, p.name);
    assert a == (a + Components(o))[..4] && b == (b + Components(p))[..4];
    assert Components(o) == (a + Components(o))[4..] && Components(p) == (b + Components(p))[4..];
    assert a[3] == o.class_ && b[3] == p.class_;
    SameComponents(o, p);
  }

  lemma SameComponents(o: Object, p: Object)
    requires Components(o) == Components(p) && o.class_ == p.class_ && o.name == p.name
    ensures o == p
  {
    var c, d := Components(o), Components(p);
    assert c[0] == d[0] && c[1] == d[1] && c[2] == d[2] && c[3] == d[3] && c[4] == d[4];
  }

  /** A key lies below the root of its own class and of no other, in any repository. */
  lemma KeyStaysInItsClass(r: string, o: Object, s: string, d: string, y: string)
    requires KeyUnder(r, o).Some? && PrefixRootFor(s, d).Some?
    requires KeyUnder(r, o).value == PrefixRootFor(s, d).value + "/" + y
    ensures s == r && d == o.class_ && y == Join(Components(o)) + "/" + o.name
  {
    var root := PrefixRootFor(r, o.class_).value;
    var below := Join(Components(o)) + "/" + o.name;
    JoinMore([root], Components(o));
    assert KeyUnder(r, o).value == root + "/" + below;
    RootsAreApart(r, o.class_, s, d, below, y);
  }

  /** `Object.Key`, for any configured repository: the segments are checked and appended
      one by one. */
  method Key(repository: string, o: Object) returns (key: Option<string>)
    ensures key == KeyUnder(repository, o)
  {
    var root := PrefixRootFor(repository, o.class_);
    if root.None? { return None; }
    var segments := Components(o);
    var parts := [root.value];
    for i := 0 to |segments|
      invariant parts == [root.value] + segments[..i]
      invariant forall j :: 0 <= j < i ==> ValidSegment(segments[j])
    {
      if segments[i] == "" || '/' in segments[i] || '\\' in segments[i] || segments[i] == "." || segments[i] == ".." {
        assert !ValidSegment(Components(o)[i]);
        return None;
      }
      assert segments[..i + 1] == segments[..i] + [segments[i]];
      parts := parts + [segments[i]];
    }
    assert segments[..|segments|] == segments;
    if !ValidName(o.name) { return None; }
    key := Some(Join(parts) + "/" + o.name);
  }

  /** The shape of a root, segment by segment. */
  lemma {:induction false} RootPathIs(repository: string, class_: string)
    requires PrefixRootFor(repository, class_).Some?
    ensures PrefixRootFor(repository, class_).value == repository + "/" + ("trust" + "/" + class_)
  {
    RootIs(repository, class_);
    JoinSplit(repository);
    JoinMore(Split(repository), [TRUST, class_]);
    PairJoin([TRUST, class_]);
  }

  /** And of a key: the root, the five components in this order, the name. */
  lemma {:induction false} KeyPathIs(repository: string, o: Object)
    requires KeyUnder(repository, o).Some?
    ensures KeyUnder(repository, o).value ==
            PrefixRootFor(repository, o.class_).value + "/"
            + (o.platform + "/" + o.arch + "/" + o.toolchain + "/" + o.lockDigest + "/" + o.refClass) + "/" + o.name
  {
    FiveJoin(o.platform, o.arch, o.toolchain, o.lockDigest, o.refClass);
    JoinMore([PrefixRootFor(repository, o.class_).value], Components(o));
  }

  lemma FiveJoin(a: string, b: string, c: string, d: string, e: string)
    ensures Join([a, b, c, d, e]) == a + "/" + b + "/" + c + "/" + d + "/" + e
  {
    assert [a, b, c, d, e][1..] == [b, c, d, e] && [b, c, d, e][1..] == [c, d, e];
    assert [c, d, e][1..] == [d, e] && [d, e][1..] == [e];
    assert Join([d, e]) == d + "/" + e;
    assert Join([c, d, e]) == c + "/" + d + "/" + e;
    assert Join([b, c, d, e]) == b + "/" + c + "/" + d + "/" + e;
  }

  predicate OneSegment(s: string) {
    s != "" && s != "." && s != ".." && (forall i :: 0 <= i < |s| ==> s[i] != '/' && s[i] != '\\')
  }

  ghost predicate IsPair(repository: string, organization: string, name: string) {
    repository == organization + "/" + name && OneSegment(organization) && OneSegment(name)
  }

  /** A root exists for exactly the three classes and the repositories that are two segments,
      neither of them a dot path. */
  lemma {:induction false} RootExistsIff(repository: string, class_: string)
    ensures PrefixRootFor(repository, class_).Some? <==>
            (class_ == "trusted" || class_ == "untrusted" || class_ == "promoted")
            && exists organization, name :: IsPair(repository, organization, name)
  {
    var parts := Split(repository);
    JoinSplit(repository);
    if IsRepository(parts) {
      PairJoin(parts);
      assert IsPair(repository, parts[0], parts[1]);
    }
    if exists organization, name :: IsPair(repository, organization, name) {
      var organization, name :| IsPair(repository, organization, name);
      SplitCons(organization, name);
      SplitCons(name, "");
      assert Split(repository) == [organization, name];
    }
  }

  /** And a key for exactly the objects whose components are single segments and whose name
      neither starts at the top nor climbs. */
  lemma {:induction false} KeyExistsIff(repository: string, o: Object)
    ensures KeyUnder(repository, o).Some? <==>
            && PrefixRootFor(repository, o.class_).Some?
            && OneSegment(o.platform) && OneSegment(o.arch) && OneSegment(o.toolchain) && OneSegment(o.lockDigest) && OneSegment(o.refClass)
            && o.name != "" && o.name[0] != '/' && forall i :: 0 <= i < |o.name| - 1 ==> !(o.name[i] == '.' && o.name[i + 1] == '.')
  {
    var c := Components(o);
    assert c[0] == o.platform && c[1] == o.arch && c[2] == o.toolchain && c[3] == o.lockDigest && c[4] == o.refClass;
  }
}
