/** The diagnostic spool: a directory of bundle files, what `ReadBundle` makes of
    one, and the oldest-first batch `ListBundleBatch` takes from it. */
module Spool {
  import opened Text

  type Name = string

  /** SHA-256 as an injective function of the bytes it digests. */
  datatype Digest = Sha256(preimage: string)

  /** One directory entry.  `safe` is the ownership, type, link-count, mode and
      size verdict; `scope` is the key prefix of the reviewed diagnostic scope, or
      None when the archive, its manifest or its scope is refused. */
  datatype File = File(inode: nat, content: string, modTime: int, safe: bool, scope: Option<string>)

  /** An object key ends in the digest of the content, so it determines it. */
  datatype Key = Key(scope: string, digest: Digest)

  datatype Bundle = Bundle(name: Name, file: File, key: Key) {
    function Bytes(): nat { |file.content| }
    function Sha(): Digest { Sha256(file.content) }
  }

  type Directory = map<Name, File>

  /** `ReadBundle`: a verified bundle, or None when the entry is refused. */
  function ReadBundle(name: Name, file: File): (r: Option<Bundle>)
    ensures r.Some? ==> r.value.name == name && r.value.file == file && r.value.key.digest == r.value.Sha()
  {
    if file.safe && file.scope.Some?
    then Some(Bundle(name, file, Key(file.scope.value, Sha256(file.content))))
    else None
  }

  /** Go's zero `time.Time` in nanoseconds since the Unix epoch: unsafe entries carry it. */
  const ZERO_TIME: int := -62_135_596_800_000_000_000

  datatype Candidate = Candidate(name: Name, modTime: int)

  function CandidateOf(name: Name, file: File): Candidate {
    Candidate(name, if file.safe then file.modTime else ZERO_TIME)
  }

  /** The comparison handed to the sort: modification time, then name. */
  predicate Before(a: Candidate, b: Candidate) {
    if a.modTime == b.modTime then Less(a.name, b.name) else a.modTime < b.modTime
  }

  lemma BeforeTransitive(a: Candidate, b: Candidate, c: Candidate)
    requires Before(a, b) && Before(b, c)
    ensures Before(a, c)
  {
    if a.modTime == b.modTime == c.modTime { LessTransitive(a.name, b.name, c.name); }
  }

  lemma BeforeTotal(a: Candidate, b: Candidate)
    ensures !(Before(a, b) && Before(b, a))
    ensures a == b || Before(a, b) || Before(b, a)
  {
    LessTotal(a.name, b.name);
    LessIrreflexive(a.name);
    if Less(a.name, b.name) && Less(b.name, a.name) { LessTransitive(a.name, b.name, a.name); }
  }

  /** Entry `m` of the directory is strictly older than entry `n`. */
  predicate Older(dir: Directory, m: Name, n: Name)
    requires m in dir && n in dir
  {
    Before(CandidateOf(m, dir[m]), CandidateOf(n, dir[n]))
  }

  ghost predicate Ascending(cs: seq<Candidate>) {
    forall i, j :: 0 <= i < j < |cs| ==> Before(cs[i], cs[j])
  }

  /** `names` are the `limit` oldest entries of the directory, oldest first. */
  ghost predicate IsBatch(names: seq<Name>, dir: Directory, limit: nat) {
    && |names| == (if limit < |dir| then limit else |dir|)
    && (forall n :: n in names ==> n in dir)
    && (forall i, j :: 0 <= i < j < |names| ==> Older(dir, names[i], names[j]))
    && (forall m, n :: m in names && n in dir && n !in names ==> Older(dir, m, n))
  }

  /** Bytes of the safe entries named by `names`. */
  function SafeBytes(dir: Directory, names: seq<Name>): nat
    requires forall n :: n in names ==> n in dir
  {
    if names == [] then 0
    else
      var last := names[|names| - 1];
      SafeBytes(dir, names[..|names| - 1]) + if dir[last].safe then |dir[last].content| else 0
  }

  /** A directory read in some order: every entry once. */
  ghost predicate Enumerates(order: seq<Name>, dir: Directory) {
    && (forall n :: n in dir <==> n in order)
    && (forall i, j :: 0 <= i < j < |order| ==> order[i] != order[j])
  }

  function Insert(c: Candidate, sorted: seq<Candidate>): seq<Candidate> {
    if sorted == [] || Before(c, sorted[0]) then [c] + sorted
    else [sorted[0]] + Insert(c, sorted[1..])
  }

  /** The stable sort of the candidates. */
  function Sort(cs: seq<Candidate>): seq<Candidate> {
    if cs == [] then [] else Insert(cs[0], Sort(cs[1..]))
  }

  lemma {:induction false} InsertSorts(c: Candidate, sorted: seq<Candidate>)
    requires Ascending(sorted) && c !in sorted
    ensures Ascending(Insert(c, sorted))
    ensures |Insert(c, sorted)| == |sorted| + 1
    ensures forall x :: x in Insert(c, sorted) <==> x == c || x in sorted
  {
    if sorted != [] {
      if Before(c, sorted[0]) {
        forall j | 0 < j < |sorted| ensures Before(c, sorted[j]) { BeforeTransitive(c, sorted[0], sorted[j]); }
      } else {
        BeforeTotal(c, sorted[0]);
        var rest := Insert(c, sorted[1..]);
        InsertSorts(c, sorted[1..]);
        forall x | x in rest ensures Before(sorted[0], x) {
          if x != c { var j :| 0 <= j < |sorted[1..]| && sorted[1..][j] == x; }
        }
        assert sorted == [sorted[0]] + sorted[1..];
      }
    }
  }

  lemma {:induction false} SortSorts(cs: seq<Candidate>)
    requires forall i, j :: 0 <= i < j < |cs| ==> cs[i] != cs[j]
    ensures Ascending(Sort(cs)) && |Sort(cs)| == |cs|
    ensures forall x :: x in Sort(cs) <==> x in cs
  {
    if cs != [] {
      SortSorts(cs[1..]);
      InsertSorts(cs[0], Sort(cs[1..]));
      assert cs == [cs[0]] + cs[1..];
    }
  }

  lemma EnumerationLength(order: seq<Name>, dir: Directory)
    requires Enumerates(order, dir)
    ensures |order| == |dir|
  {
    DistinctCount(order);
    assert (set n | n in order) == dir.Keys;
  }

  lemma {:induction false} DistinctCount<T>(s: seq<T>)
    requires forall i, j :: 0 <= i < j < |s| ==> s[i] != s[j]
    ensures |set x | x in s| == |s|
  {
    if s != [] {
      DistinctCount(s[1..]);
      assert s == [s[0]] + s[1..];
      assert (set x | x in s) == {s[0]} + (set x | x in s[1..]);
    }
  }

  lemma SafeBytesExtend(dir: Directory, order: seq<Name>, i: nat)
    requires i < |order| && forall n :: n in order ==> n in dir
    ensures SafeBytes(dir, order[..i + 1])
         == SafeBytes(dir, order[..i]) + if dir[order[i]].safe then |dir[order[i]].content| else 0
  {
    assert order[..i + 1][..i] == order[..i];
  }

  /** `ListBundleBatch` over one pass of the directory in arbitrary order. */
  method ListBundleBatch(dir: Directory, order: seq<Name>, limit: nat)
    returns (batch: seq<Name>, total: nat, totalBytes: nat)
    requires Enumerates(order, dir)
    requires 1 <= limit
    ensures IsBatch(batch, dir, limit)
    ensures total == |dir|
    ensures totalBytes == SafeBytes(dir, order)
  {
    var candidates: seq<Candidate> := [];
    totalBytes := 0;
    for i := 0 to |order|
      invariant |candidates| == i
      invariant forall k :: 0 <= k < i ==> candidates[k] == CandidateOf(order[k], dir[order[k]])
      invariant totalBytes == SafeBytes(dir, order[..i])
    {
      var file := dir[order[i]];
      SafeBytesExtend(dir, order, i);
      if file.safe {
        totalBytes := totalBytes + |file.content|;
      }
      candidates := candidates + [CandidateOf(order[i], file)];
    }
    assert order[..|order|] == order;
    SortedIsBatch(dir, order, candidates, limit);
    var sorted := Sort(candidates);
    total := |sorted|;
    if |sorted| > limit {
      sorted := sorted[..limit];
    }
    batch := NamesOf(sorted);
  }

  /** The `limit` first candidates in sorted order name a batch. */
  lemma SortedIsBatch(dir: Directory, order: seq<Name>, cs: seq<Candidate>, limit: nat)
    requires Enumerates(order, dir) && |cs| == |order|
    requires forall i :: 0 <= i < |cs| ==> cs[i] == CandidateOf(order[i], dir[order[i]])
    ensures |Sort(cs)| == |dir|
    ensures IsBatch(NamesOf(if |Sort(cs)| > limit then Sort(cs)[..limit] else Sort(cs)), dir, limit)
  {
    EnumerationLength(order, dir);
    SortSorts(cs);
    var sorted := Sort(cs);
    if |sorted| > limit {
      SortedPrefixIsBatch(dir, order, cs, sorted, limit);
    } else {
      SortedPrefixIsBatch(dir, order, cs, sorted, |sorted|);
      assert sorted[..|sorted|] == sorted;
    }
  }

  function NamesOf(cs: seq<Candidate>): (names: seq<Name>)
    ensures |names| == |cs| && forall k :: 0 <= k < |cs| ==> names[k] == cs[k].name
  {
    seq(|cs|, k requires 0 <= k < |cs| => cs[k].name)
  }

  lemma SortedPrefixIsBatch(dir: Directory, order: seq<Name>, cs: seq<Candidate>, sorted: seq<Candidate>, k: nat)
    requires Enumerates(order, dir) && |order| == |dir| == |cs| == |sorted|
    requires forall i :: 0 <= i < |cs| ==> cs[i] == CandidateOf(order[i], dir[order[i]])
    requires Ascending(sorted) && forall x :: x in sorted <==> x in cs
    requires k <= |sorted|
    ensures IsBatch(NamesOf(sorted[..k]), dir, k)
  {
    var names := NamesOf(sorted[..k]);
    forall i | 0 <= i < |sorted| ensures sorted[i].name in dir && sorted[i] == CandidateOf(sorted[i].name, dir[sorted[i].name]) {
      assert sorted[i] in cs;
    }
    assert forall l :: 0 <= l < k ==> sorted[l].name == names[l] && names[l] in names;
    forall m, n | m in names && n in dir && n !in names ensures Older(dir, m, n) {
      var i :| 0 <= i < k && names[i] == m;
      var j :| 0 <= j < |order| && order[j] == n;
      assert cs[j] in sorted;
      var l :| 0 <= l < |sorted| && sorted[l] == cs[j];
    }
  }

  /** The batch does not depend on the order the directory was read in. */
  lemma {:induction false} BatchUnique(a: seq<Name>, b: seq<Name>, dir: Directory, limit: nat)
    requires IsBatch(a, dir, limit) && IsBatch(b, dir, limit)
    ensures a == b
  {
    var i := 0;
    while i < |a|
      invariant 0 <= i <= |a| && a[..i] == b[..i]
    {
      BatchRank(a, b, dir, limit, i);
      BatchRank(b, a, dir, limit, i);
      BeforeTotal(CandidateOf(a[i], dir[a[i]]), CandidateOf(b[i], dir[b[i]]));
      assert a[..i + 1] == a[..i] + [a[i]] && b[..i + 1] == b[..i] + [b[i]];
      i := i + 1;
    }
    assert a[..i] == a && b[..i] == b;
  }

  lemma BatchRank(a: seq<Name>, b: seq<Name>, dir: Directory, limit: nat, i: nat)
    requires IsBatch(a, dir, limit) && IsBatch(b, dir, limit)
    requires i < |a| == |b| && a[..i] == b[..i]
    ensures a[i] == b[i] || Older(dir, a[i], b[i])
  {
    if b[i] in a {
      var j :| 0 <= j < |a| && a[j] == b[i];
      if j < i {
        assert b[j] == b[..i][j] == a[..i][j] == b[i];
        LessIrreflexive(b[i]);
        assert false;
      }
    }
  }

  /** Oldest first, spelled out: by modification time, unsafe entries before all others that
      Go's clock can date, and by name where the times are the same. */
  lemma {:induction false} OlderIff(dir: Directory, m: Name, n: Name)
    requires m in dir && n in dir
    ensures var a := if dir[m].safe then dir[m].modTime else ZERO_TIME;
            var b := if dir[n].safe then dir[n].modTime else ZERO_TIME;
            Older(dir, m, n) <==> a < b || (a == b && exists k :: SplitsAt(m, n, k))
  {
    LessIff(m, n);
  }
}
