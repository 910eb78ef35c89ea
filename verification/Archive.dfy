/** The entry and manifest check of `verifyArchive`: an accepted archive holds the
    manifest and the artifacts it declares, and nothing else. */
module Archive {
  import opened Text
  import opened Spool

  /** One tar entry; `plain` is the regular-file and mode verdict. */
  datatype Entry = Entry(name: string, plain: bool, size: int, content: string)

  datatype Artifact = Artifact(path: string, bytes: int, sha: Digest)

  datatype Manifest = Manifest(artifacts: seq<Artifact>)

  const MANIFEST := "manifest.json"
  const MAX_MANIFEST_BYTES := 1024 * 1024
  const MAX_ENTRIES := 33

  /** What the checks depend on besides the archive itself: the path rule, the
      configured bounds, and the decoder that also binds schema, capture time,
      scope and file name. */
  datatype Rules = Rules(safePath: string -> bool, maxBytes: int, decode: string -> Option<Manifest>)

  predicate SafeEntry(rules: Rules, e: Entry) {
    e.plain && 0 <= e.size <= rules.maxBytes && rules.safePath(e.name) && |e.content| == e.size
  }

  predicate SafeArtifact(rules: Rules, a: Artifact) {
    rules.safePath(a.path) && a.path != MANIFEST
  }

  /** A bounded sequence of safe, distinctly named entries led by a bounded manifest. */
  ghost predicate Framed(rules: Rules, tar: seq<Entry>) {
    && 0 < |tar| <= MAX_ENTRIES
    && (forall i :: 0 <= i < |tar| ==> SafeEntry(rules, tar[i]))
    && Distinct(tar)
    && tar[0].name == MANIFEST && 0 < |tar[0].content| <= MAX_MANIFEST_BYTES
  }

  ghost predicate Distinct(tar: seq<Entry>) {
    forall i, j :: 0 <= i < j < |tar| ==> tar[i].name != tar[j].name
  }

  /** Entry `e` is an artifact of the manifest, with the declared size and digest. */
  ghost predicate DeclaredIn(m: Manifest, e: Entry) {
    exists j :: 0 <= j < |m.artifacts| && Describes(m.artifacts[j], e)
  }

  /** Artifact `a` is an entry after the manifest, with the declared size and digest. */
  ghost predicate FoundIn(tar: seq<Entry>, a: Artifact) {
    exists i :: 0 < i < |tar| && Describes(a, tar[i])
  }

  /** An archive that is exactly its manifest: the declarative meaning of acceptance. */
  ghost predicate Exact(rules: Rules, tar: seq<Entry>, m: Manifest) {
    && Framed(rules, tar)
    && rules.decode(tar[0].content) == Some(m)
    && Stable(rules, m.artifacts)
    && (forall i :: 0 < i < |tar| ==> DeclaredIn(m, tar[i]))
    && (forall j :: 0 <= j < |m.artifacts| ==> FoundIn(tar, m.artifacts[j]))
  }

  /** Safe paths in strictly ascending order. */
  ghost predicate Stable(rules: Rules, artifacts: seq<Artifact>) {
    && (forall i :: 0 <= i < |artifacts| ==> SafeArtifact(rules, artifacts[i]) && artifacts[i].path != "")
    && (forall i, j :: 0 <= i < j < |artifacts| ==> Less(artifacts[i].path, artifacts[j].path))
  }

  predicate Describes(a: Artifact, e: Entry) {
    a.path == e.name && a.bytes == |e.content| && a.sha == Sha256(e.content)
  }

  ghost predicate NameIn(tar: seq<Entry>, n: string) {
    exists i :: 0 <= i < |tar| && tar[i].name == n
  }

  /** `entries` maps each name of the archive to its content. */
  ghost predicate Indexes(entries: map<string, string>, tar: seq<Entry>) {
    && (forall i :: 0 <= i < |tar| ==> tar[i].name in entries && entries[tar[i].name] == tar[i].content)
    && (forall n :: n in entries ==> NameIn(tar, n))
    && |entries| == |tar|
  }

  /** A bounded list of safe entries without duplicates. */
  ghost predicate Listed(rules: Rules, tar: seq<Entry>) {
    |tar| <= MAX_ENTRIES && Distinct(tar) && forall k :: 0 <= k < |tar| ==> SafeEntry(rules, tar[k])
  }

  /** The entry loop. */
  method IndexEntries(rules: Rules, tar: seq<Entry>) returns (ok: bool, entries: map<string, string>)
    ensures ok <==> Listed(rules, tar)
    ensures ok ==> Indexes(entries, tar)
  {
    entries := map[];
    for i := 0 to |tar|
      invariant Listed(rules, tar[..i]) && Indexes(entries, tar[..i])
    {
      if i == MAX_ENTRIES || !SafeEntry(rules, tar[i]) {
        return false, entries;
      }
      if tar[i].name in entries {
        DuplicateName(entries, tar, i);
        return false, entries;
      }
      ListedNext(rules, entries, tar, i);
      IndexesNext(entries, tar, i);
      entries := entries[tar[i].name := tar[i].content];
    }
    assert tar[..|tar|] == tar;
    ok := true;
  }

  lemma ListedNext(rules: Rules, entries: map<string, string>, tar: seq<Entry>, i: nat)
    requires i < |tar| && i < MAX_ENTRIES && Listed(rules, tar[..i]) && Indexes(entries, tar[..i])
    requires SafeEntry(rules, tar[i]) && tar[i].name !in entries
    ensures Listed(rules, tar[..i + 1])
  {
    DistinctNext(entries, tar, i);
    var shorter, longer := tar[..i], tar[..i + 1];
    forall k | 0 <= k < |longer| ensures SafeEntry(rules, longer[k]) {
      assert k < i ==> longer[k] == shorter[k];
    }
  }

  /** The entries, with a bounded manifest first. */
  method ReadEntries(rules: Rules, tar: seq<Entry>) returns (ok: bool, entries: map<string, string>)
    ensures ok <==> Framed(rules, tar)
    ensures ok ==> Indexes(entries, tar)
  {
    ok, entries := IndexEntries(rules, tar);
    ok := ok && tar != [] && tar[0].name == MANIFEST && 0 < |tar[0].content| <= MAX_MANIFEST_BYTES;
  }

  /** Accepts exactly the archives that are their manifest. */
  method VerifyArchive(rules: Rules, tar: seq<Entry>) returns (r: Option<Manifest>)
    ensures r.Some? ==> Exact(rules, tar, r.value)
    ensures r.None? ==> forall m :: !Exact(rules, tar, m)
  {
    var framed, entries := ReadEntries(rules, tar);
    if !framed {
      return None;
    }
    var manifest := rules.decode(tar[0].content);
    if manifest.None? {
      return None;
    }
    ExactIsDeclared(rules, tar, entries, manifest.value);
    if |entries| != |manifest.value.artifacts| + 1 {
      return None;
    }
    var ok := CheckArtifacts(rules, entries, manifest.value.artifacts);
    if !ok {
      return None;
    }
    EveryEntryDeclared(rules, tar, entries, manifest.value);
    return manifest;
  }

  lemma DuplicateName(entries: map<string, string>, tar: seq<Entry>, i: nat)
    requires i < |tar| && Indexes(entries, tar[..i]) && tar[i].name in entries
    ensures !Distinct(tar)
  {
    assert NameIn(tar[..i], tar[i].name);
    var k :| 0 <= k < |tar[..i]| && tar[..i][k].name == tar[i].name;
    assert tar[k].name == tar[i].name;
  }

  lemma IndexesNext(entries: map<string, string>, tar: seq<Entry>, i: nat)
    requires i < |tar| && Indexes(entries, tar[..i]) && tar[i].name !in entries
    ensures Indexes(entries[tar[i].name := tar[i].content], tar[..i + 1])
  {
    var next, shorter, longer := entries[tar[i].name := tar[i].content], tar[..i], tar[..i + 1];
    assert longer == shorter + [tar[i]];
    assert next.Keys == entries.Keys + {tar[i].name};
    forall n | n in next ensures NameIn(longer, n) {
      if n in entries {
        assert NameIn(shorter, n);
        var k :| 0 <= k < |shorter| && shorter[k].name == n;
        assert longer[k].name == n;
      } else {
        assert longer[i].name == n;
      }
    }
    forall k | 0 <= k < |longer| ensures longer[k].name in next && next[longer[k].name] == longer[k].content {
      if k < i { assert longer[k] == shorter[k]; }
    }
  }

  lemma DistinctNext(entries: map<string, string>, tar: seq<Entry>, i: nat)
    requires i < |tar| && Indexes(entries, tar[..i]) && Distinct(tar[..i]) && tar[i].name !in entries
    ensures Distinct(tar[..i + 1])
  {
    var shorter, longer := tar[..i], tar[..i + 1];
    forall k, l | 0 <= k < l < |longer| ensures longer[k].name != longer[l].name {
      assert longer[k] == shorter[k] && shorter[k].name in entries;
      assert l < i ==> longer[l] == shorter[l];
    }
  }

  /** The artifact loop: strictly ascending safe paths, each present with its size and digest. */
  ghost predicate Declared(rules: Rules, entries: map<string, string>, artifacts: seq<Artifact>) {
    && Stable(rules, artifacts)
    && (forall i :: 0 <= i < |artifacts| ==> Present(entries, artifacts[i]))
  }

  predicate Present(entries: map<string, string>, a: Artifact) {
    a.path in entries && |entries[a.path]| == a.bytes && a.sha == Sha256(entries[a.path])
  }

  method CheckArtifacts(rules: Rules, entries: map<string, string>, artifacts: seq<Artifact>) returns (ok: bool)
    ensures ok <==> Declared(rules, entries, artifacts)
  {
    var previous := "";
    for i := 0 to |artifacts|
      invariant Declared(rules, entries, artifacts[..i])
      invariant previous == if i == 0 then "" else artifacts[i - 1].path
    {
      var record := artifacts[i];
      if !SafeArtifact(rules, record) || !Less(previous, record.path) {
        if i > 0 { assert artifacts[i - 1].path == previous; }
        return false;
      }
      previous := record.path;
      if !Present(entries, record) {
        return false;
      }
      DeclaredNext(rules, entries, artifacts, i);
    }
    assert artifacts[..|artifacts|] == artifacts;
    return true;
  }

  lemma DeclaredNext(rules: Rules, entries: map<string, string>, artifacts: seq<Artifact>, i: nat)
    requires i < |artifacts| && Declared(rules, entries, artifacts[..i])
    requires SafeArtifact(rules, artifacts[i]) && Present(entries, artifacts[i])
    requires Less(if i == 0 then "" else artifacts[i - 1].path, artifacts[i].path)
    ensures Declared(rules, entries, artifacts[..i + 1])
  {
    var longer := artifacts[..i + 1];
    forall k | 0 <= k < i ensures Less(longer[k].path, artifacts[i].path) {
      if k < i - 1 {
        assert Less(artifacts[..i][k].path, artifacts[..i][i - 1].path);
        LessTransitive(artifacts[k].path, artifacts[i - 1].path, artifacts[i].path);
      }
    }
    forall k | 0 <= k < i ensures SafeArtifact(rules, longer[k]) && longer[k].path != "" && Present(entries, longer[k]) {
      assert longer[k] == artifacts[..i][k];
    }
    forall k, l | 0 <= k < l < i + 1 ensures Less(longer[k].path, longer[l].path) {
      if l < i { assert longer[k] == artifacts[..i][k] && longer[l] == artifacts[..i][l]; }
    }
  }

  function Paths(artifacts: seq<Artifact>): set<string> { set a | a in artifacts :: a.path }

  lemma {:induction false} PathCount(artifacts: seq<Artifact>)
    requires forall i, j :: 0 <= i < j < |artifacts| ==> artifacts[i].path != artifacts[j].path
    ensures |Paths(artifacts)| == |artifacts|
  {
    if artifacts != [] {
      var last, init := artifacts[|artifacts| - 1], artifacts[..|artifacts| - 1];
      PathCount(init);
      assert artifacts == init + [last];
      assert Paths(artifacts) == Paths(init) + {last.path};
    }
  }

  lemma AscendingDistinct(artifacts: seq<Artifact>)
    requires forall i, j :: 0 <= i < j < |artifacts| ==> Less(artifacts[i].path, artifacts[j].path)
    ensures forall i, j :: 0 <= i < j < |artifacts| ==> artifacts[i].path != artifacts[j].path
  {
    forall i, j | 0 <= i < j < |artifacts| ensures artifacts[i].path != artifacts[j].path {
      LessIrreflexive(artifacts[i].path);
    }
  }

  /** The counting argument: with as many entries as artifacts plus one, every artifact
      present and the manifest apart, no entry is left undeclared. */
  lemma EveryEntryDeclared(rules: Rules, tar: seq<Entry>, entries: map<string, string>, m: Manifest)
    requires Framed(rules, tar) && Indexes(entries, tar)
    requires Declared(rules, entries, m.artifacts) && |entries| == |m.artifacts| + 1
    ensures forall i :: 0 < i < |tar| ==> DeclaredIn(m, tar[i])
    ensures forall j :: 0 <= j < |m.artifacts| ==> FoundIn(tar, m.artifacts[j])
  {
    AscendingDistinct(m.artifacts);
    PathCount(m.artifacts);
    var declared := Paths(m.artifacts) + {MANIFEST};
    ManifestApart(rules, m.artifacts);
    assert declared <= entries.Keys;
    SameSizeSubset(declared, entries.Keys);
    forall i | 0 < i < |tar| ensures DeclaredIn(m, tar[i]) {
      assert tar[i].name in declared && tar[i].name != tar[0].name;
      var j := IndexOfPath(m.artifacts, tar[i].name);
      assert Present(entries, m.artifacts[j]);
      assert Describes(m.artifacts[j], tar[i]);
    }
    forall j | 0 <= j < |m.artifacts| ensures FoundIn(tar, m.artifacts[j]) {
      assert Present(entries, m.artifacts[j]) && SafeArtifact(rules, m.artifacts[j]);
      assert NameIn(tar, m.artifacts[j].path);
      var i :| 0 <= i < |tar| && tar[i].name == m.artifacts[j].path;
      assert Describes(m.artifacts[j], tar[i]);
    }
  }

  lemma ManifestApart(rules: Rules, artifacts: seq<Artifact>)
    requires Stable(rules, artifacts)
    ensures MANIFEST !in Paths(artifacts) && |Paths(artifacts) + {MANIFEST}| == |Paths(artifacts)| + 1
  {
  }

  lemma IndexOfPath(artifacts: seq<Artifact>, path: string) returns (j: nat)
    requires path in Paths(artifacts)
    ensures j < |artifacts| && artifacts[j].path == path
  {
    var a :| a in artifacts && a.path == path;
    j :| 0 <= j < |artifacts| && artifacts[j] == a;
  }

  /** Conversely an exact archive passes both checks. */
  lemma ExactIsDeclared(rules: Rules, tar: seq<Entry>, entries: map<string, string>, m: Manifest)
    requires Indexes(entries, tar)
    ensures Exact(rules, tar, m) ==> Declared(rules, entries, m.artifacts) && |entries| == |m.artifacts| + 1
  {
    if Exact(rules, tar, m) {
      forall j | 0 <= j < |m.artifacts| ensures Present(entries, m.artifacts[j]) {
        assert FoundIn(tar, m.artifacts[j]);
        var i :| 0 < i < |tar| && Describes(m.artifacts[j], tar[i]);
      }
      AscendingDistinct(m.artifacts);
      PathCount(m.artifacts);
      ManifestApart(rules, m.artifacts);
      DeclaredNames(rules, tar, entries, m);
    }
  }

  lemma EntryNameIsDeclared(rules: Rules, tar: seq<Entry>, entries: map<string, string>, m: Manifest, n: string)
    requires Indexes(entries, tar) && Exact(rules, tar, m) && n in entries
    ensures n in Paths(m.artifacts) + {MANIFEST}
  {
    assert NameIn(tar, n);
    var i :| 0 <= i < |tar| && tar[i].name == n;
    if i > 0 {
      assert DeclaredIn(m, tar[i]);
      var j :| 0 <= j < |m.artifacts| && Describes(m.artifacts[j], tar[i]);
      assert m.artifacts[j] in m.artifacts;
    }
  }

  lemma DeclaredNameIsEntry(rules: Rules, entries: map<string, string>, artifacts: seq<Artifact>, n: string)
    requires Declared(rules, entries, artifacts) && n in Paths(artifacts)
    ensures n in entries
  {
    var j := IndexOfPath(artifacts, n);
    assert Present(entries, artifacts[j]);
  }

  lemma DeclaredNames(rules: Rules, tar: seq<Entry>, entries: map<string, string>, m: Manifest)
    requires Indexes(entries, tar) && Exact(rules, tar, m) && Declared(rules, entries, m.artifacts)
    ensures entries.Keys == Paths(m.artifacts) + {MANIFEST}
  {
    forall n | n in entries ensures n in Paths(m.artifacts) + {MANIFEST} {
      EntryNameIsDeclared(rules, tar, entries, m, n);
    }
    assert tar[0].name in entries;
    forall n | n in Paths(m.artifacts) ensures n in entries {
      DeclaredNameIsEntry(rules, entries, m.artifacts, n);
    }
  }

  lemma SameSizeSubset<T>(a: set<T>, b: set<T>)
    requires a <= b && |a| == |b|
    ensures a == b
  {
    assert b == a + (b - a);
  }
}
