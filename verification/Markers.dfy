/** The printed job markers that make publication idempotent, and their parser. */
module Markers {
  import opened Text

  datatype RunKey = RunKey(repository: nat, run: nat, attempt: nat)

  const JOB_TAG := "<!-- ci-feedback-job:v1:"
  const CLOSE := " -->"

  /** `[1-9][0-9]{0,19}` in full. */
  predicate Identity(s: string) {
    1 <= |s| <= 20 && s[0] != '0' && forall i :: 0 <= i < |s| ==> '0' <= s[i] <= '9'
  }

  /** `positive_id` of a number: its decimal text is an identity. */
  predicate PositiveId(n: nat) { Identity(Decimal(n)) }

  function JobPrefix(k: RunKey): string {
    JOB_TAG + Decimal(k.repository) + ":" + Decimal(k.run) + ":" + Decimal(k.attempt) + ":"
  }

  function JobMarker(k: RunKey, job: nat): string {
    JobPrefix(k) + Decimal(job) + CLOSE
  }

  /** `body.split("\n", 1)[0]` */
  function FirstLine(body: string): string {
    if body == "" || body[0] == '\n' then "" else [body[0]] + FirstLine(body[1..])
  }

  /** The job whose marker is the first line of the body, if any. */
  function JobOf(k: RunKey, body: string): Option<nat> {
    var line, prefix := FirstLine(body), JobPrefix(k);
    if |prefix| + |CLOSE| <= |line| && prefix <= line && line[|line| - |CLOSE|..] == CLOSE &&
       Identity(line[|prefix|..|line| - |CLOSE|])
    then Some(Value(line[|prefix|..|line| - |CLOSE|])) else None
  }

  lemma {:induction false} FirstLineOf(line: string, rest: string)
    requires '\n' !in line
    ensures FirstLine(line + "\n" + rest) == line
  {
    if line != "" {
      FirstLineOf(line[1..], rest);
      assert (line + "\n" + rest)[1..] == line[1..] + "\n" + rest;
    }
  }

  lemma NoNewline(k: RunKey, job: nat)
    ensures '\n' !in JobMarker(k, job)
  {
  }

  /** Printing then parsing gives the job back. */
  lemma MarkerRoundTrip(k: RunKey, job: nat, rest: string)
    requires PositiveId(job)
    ensures JobOf(k, JobMarker(k, job) + "\n" + rest) == Some(job)
  {
    var marker, prefix := JobMarker(k, job), JobPrefix(k);
    NoNewline(k, job);
    FirstLineOf(marker, rest);
    assert marker[|prefix|..|marker| - |CLOSE|] == Decimal(job);
    assert marker[|marker| - |CLOSE|..] == CLOSE;
    DecimalValue(job);
  }

  /** Decimal text without a leading zero is the text of its value. */
  lemma {:induction false} ValueDecimal(s: string)
    requires s != "" && (|s| > 1 ==> s[0] != '0') && forall i :: 0 <= i < |s| ==> '0' <= s[i] <= '9'
    ensures Decimal(Value(s)) == s
    ensures s[0] != '0' ==> Value(s) > 0
  {
    var init, last := s[..|s| - 1], s[|s| - 1];
    assert s == init + [last];
    if init == "" {
      assert Value(s) == last as int - '0' as int;
    } else {
      ValueDecimal(init);
      var d := last as int - '0' as int;
      assert Value(s) == 10 * Value(init) + d;
      assert Value(s) / 10 == Value(init) && Value(s) % 10 == d;
    }
  }

  /** A line between two known ends. */
  lemma LineIs(line: string, prefix: string, close: string)
    requires |prefix| + |close| <= |line| && prefix <= line && line[|line| - |close|..] == close
    ensures line == prefix + line[|prefix|..|line| - |close|] + close
  {
  }

  /** Parsing then printing gives the line back: only the canonical marker is accepted. */
  lemma MarkerCanonical(k: RunKey, body: string)
    requires JobOf(k, body).Some?
    ensures FirstLine(body) == JobMarker(k, JobOf(k, body).value) && PositiveId(JobOf(k, body).value)
  {
    var line, prefix := FirstLine(body), JobPrefix(k);
    LineIs(line, prefix, CLOSE);
    ValueDecimal(line[|prefix|..|line| - |CLOSE|]);
  }

  /** The text earlier publications carry: repository, run, attempt and job, in this order. */
  lemma {:induction false} MarkerTextIs(k: RunKey, job: nat)
    ensures JobMarker(k, job) ==
            "<!-- ci-feedback-job:v1:" + Decimal(k.repository) + ":" + Decimal(k.run) + ":" + Decimal(k.attempt) + ":" + Decimal(job) + " -->"
  {
  }

  function Power10(k: nat): nat { if k == 0 then 1 else 10 * Power10(k - 1) }

  lemma {:induction false} DecimalLength(n: nat, k: nat)
    requires k > 0
    ensures |Decimal(n)| <= k <==> n < Power10(k)
    ensures n > 0 ==> Decimal(n)[0] != '0'
  {
    if n >= 10 {
      if k == 1 {
        assert Power10(1) == 10;
      } else {
        DecimalLength(n / 10, k - 1);
      }
      DecimalLength(n / 10, 1);
    } else {
      PowerIsBig(k);
    }
  }

  lemma {:induction false} PowerIsBig(k: nat)
    requires k > 0
    ensures Power10(k) >= 10
  {
    if k > 1 { PowerIsBig(k - 1); }
  }

  /** The identities GitHub hands out: positive, of at most twenty digits. */
  lemma {:induction false} PositiveIdIff(n: nat)
    ensures PositiveId(n) <==> 0 < n < Power10(20)
  {
    DecimalLength(n, 20);
    if n == 0 { assert Decimal(0) == "0"; }
  }

  function Field(n: nat, rest: string): string { Decimal(n) + ":" + rest }

  lemma FieldInjective(n: nat, m: nat, x: string, y: string)
    requires Field(n, x) == Field(m, y)
    ensures n == m && x == y
  {
    assert Field(n, x) == Decimal(n) + [':'] + x && Field(m, y) == Decimal(m) + [':'] + y;
    CutUnique(Decimal(n), Decimal(m), x, y, ':');
    DecimalInjective(n, m);
  }

  lemma MarkerFields(k: RunKey, job: nat)
    ensures JobMarker(k, job)[|JOB_TAG|..] == Field(k.repository, Field(k.run, Field(k.attempt, Decimal(job) + CLOSE)))
  {
    assert JobMarker(k, job) == JOB_TAG + Field(k.repository, Field(k.run, Field(k.attempt, Decimal(job) + CLOSE)));
  }

  /** A marker determines its run and its job. */
  lemma MarkerInjective(k: RunKey, job: nat, l: RunKey, other: nat)
    requires JobMarker(k, job) == JobMarker(l, other)
    ensures k == l && job == other
  {
    MarkerFields(k, job);
    MarkerFields(l, other);
    var endK, endL := Decimal(job) + CLOSE, Decimal(other) + CLOSE;
    FieldInjective(k.repository, l.repository, Field(k.run, Field(k.attempt, endK)), Field(l.run, Field(l.attempt, endL)));
    FieldInjective(k.run, l.run, Field(k.attempt, endK), Field(l.attempt, endL));
    FieldInjective(k.attempt, l.attempt, endK, endL);
    assert endK[..|endK| - |CLOSE|] == Decimal(job) && endL[..|endL| - |CLOSE|] == Decimal(other);
    DecimalInjective(job, other);
  }

  /** An issue published for one run is never read as a job of another. */
  lemma MarkersOfOtherRuns(k: RunKey, l: RunKey, job: nat, rest: string)
    requires k != l
    ensures JobOf(k, JobMarker(l, job) + "\n" + rest) == None
  {
    var body := JobMarker(l, job) + "\n" + rest;
    NoNewline(l, job);
    FirstLineOf(JobMarker(l, job), rest);
    if JobOf(k, body).Some? {
      MarkerCanonical(k, body);
      MarkerInjective(k, JobOf(k, body).value, l, job);
    }
  }

  /** What `find_published` looks for is the job's own marker. */
  lemma StartsWithMarker(k: RunKey, job: nat, body: string)
    requires PositiveId(job) && JobMarker(k, job) + "\n" <= body
    ensures JobOf(k, body) == Some(job)
  {
    var start := JobMarker(k, job) + "\n";
    assert body == JobMarker(k, job) + "\n" + body[|start|..];
    MarkerRoundTrip(k, job, body[|start|..]);
  }
}
