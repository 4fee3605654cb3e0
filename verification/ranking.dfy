/** The feed query over `generated_questions`: rows shown fewer than ten times,
    ordered never-shown first, then by ascending correct rate, descending
    engagement score and ascending difficulty, limited to five rows. */
module Ranking {
  import opened Types

  /** Rows shown this many times or more are left out of the pool. */
  const ExposureCap: nat := 10

  /** The LIMIT of the feed query. */
  const BatchSize: nat := 5

  /** The first sort key: 0 for a row never shown, 1 otherwise. */
  function Tier(r: QuestionRecord): int {
    if r.timesShown == 0 then 0 else 1
  }

  /** `a` sorts strictly before `b` under the four keys of the ORDER BY. */
  predicate Precedes(a: QuestionRecord, b: QuestionRecord) {
    || Tier(a) < Tier(b)
    || (Tier(a) == Tier(b) && a.correctRate < b.correctRate)
    || (Tier(a) == Tier(b) && a.correctRate == b.correctRate && a.engagementScore > b.engagementScore)
    || (Tier(a) == Tier(b) && a.correctRate == b.correctRate && a.engagementScore == b.engagementScore
        && a.difficulty < b.difficulty)
  }

  /** `a` may appear before `b`: they are in order or tie on all four keys. */
  predicate NotAfter(a: QuestionRecord, b: QuestionRecord) {
    !Precedes(b, a)
  }

  /** Every row is in order with every later row. */
  predicate Sorted(s: seq<QuestionRecord>) {
    forall i, j :: 0 <= i < j < |s| ==> NotAfter(s[i], s[j])
  }

  /** The rows still under the exposure cap, in store order. */
  function Eligible(qs: seq<QuestionRecord>): (r: seq<QuestionRecord>)
    ensures forall x :: multiset(r)[x] == if x.timesShown < ExposureCap then multiset(qs)[x] else 0
    ensures forall i :: 0 <= i < |r| ==> r[i].timesShown < ExposureCap
  {
    if |qs| == 0 then []
    else
      assert qs == [qs[0]] + qs[1..];
      (if qs[0].timesShown < ExposureCap then [qs[0]] else []) + Eligible(qs[1..])
  }

  /** Inserts `x` into a sorted sequence ahead of the rows it ties with. */
  function Insert(x: QuestionRecord, s: seq<QuestionRecord>): (r: seq<QuestionRecord>)
    requires Sorted(s)
    ensures Sorted(r)
    ensures multiset(r) == multiset(s) + multiset{x}
    ensures forall k :: 0 <= k < |r| ==> r[k] == x || r[k] in s
  {
    if |s| == 0 then [x]
    else if NotAfter(x, s[0]) then
      assert forall j :: 0 < j < |s| ==> NotAfter(s[0], s[j]);
      [x] + s
    else
      assert s == [s[0]] + s[1..];
      [s[0]] + Insert(x, s[1..])
  }

  /** A stable insertion sort under `Precedes`: rows that tie keep store order. */
  function Sort(s: seq<QuestionRecord>): (r: seq<QuestionRecord>)
    ensures Sorted(r)
    ensures multiset(r) == multiset(s)
  {
    if |s| == 0 then []
    else
      assert s == [s[0]] + s[1..];
      Insert(s[0], Sort(s[1..]))
  }

  /** A prefix of a sorted sequence is sorted, and none of the rows left
      behind sorts strictly before a row in the prefix. */
  lemma SortedPrefix(s: seq<QuestionRecord>, k: nat)
    requires Sorted(s) && k <= |s|
    ensures Sorted(s[..k])
    ensures multiset(s[..k]) <= multiset(s)
    ensures forall x, y :: x in s[..k] && y in multiset(s) - multiset(s[..k]) ==> NotAfter(x, y)
  {
    assert s == s[..k] + s[k..];
    assert multiset(s) == multiset(s[..k]) + multiset(s[k..]);
    forall x, y | x in s[..k] && y in multiset(s) - multiset(s[..k])
      ensures NotAfter(x, y)
    {
      var i :| 0 <= i < k && s[..k][i] == x;
      assert y in s[k..];
      var j :| 0 <= j < |s| - k && s[k..][j] == y;
      assert s[i] == x && s[k + j] == y;
    }
  }

  /** The rows the feed query returns. */
  function RankedPool(qs: seq<QuestionRecord>): (r: seq<QuestionRecord>)
    ensures |r| == if |Eligible(qs)| < BatchSize then |Eligible(qs)| else BatchSize
    ensures forall i :: 0 <= i < |r| ==> r[i].timesShown < ExposureCap
    ensures multiset(r) <= multiset(Eligible(qs))
    ensures Sorted(r)
    ensures forall x, y :: x in r && y in multiset(Eligible(qs)) - multiset(r) ==> NotAfter(x, y)
  {
    var e := Eligible(qs);
    var s := Sort(e);
    var k := if |s| < BatchSize then |s| else BatchSize;
    SortedPrefixOfPermutation(e, s, k);
    s[..k]
  }

  lemma SortedPrefixOfPermutation(e: seq<QuestionRecord>, s: seq<QuestionRecord>, k: nat)
    requires Sorted(s) && multiset(s) == multiset(e)
    requires forall i :: 0 <= i < |e| ==> e[i].timesShown < ExposureCap
    requires k == if |s| < BatchSize then |s| else BatchSize
    ensures |s[..k]| == if |e| < BatchSize then |e| else BatchSize
    ensures forall i :: 0 <= i < k ==> s[..k][i].timesShown < ExposureCap
    ensures multiset(s[..k]) <= multiset(e)
    ensures Sorted(s[..k])
    ensures forall x, y :: x in s[..k] && y in multiset(e) - multiset(s[..k]) ==> NotAfter(x, y)
  {
    assert |s| == |multiset(s)| == |e|;
    SortedPrefix(s, k);
    forall i | 0 <= i < k
      ensures s[..k][i].timesShown < ExposureCap
    {
      assert s[i] in multiset(e);
    }
  }

  /** Never-shown rows come first and, among them, the lower correct rate:
      for A (never shown, rate 0.9), B (never shown, rate 0.1) and C (shown
      three times, rate 0.1) the pool is B, A, C whatever order they are stored in. */
  lemma PoolOrderExample(a: QuestionRecord, b: QuestionRecord, c: QuestionRecord, stored: seq<QuestionRecord>)
    requires a.timesShown == 0 && a.correctRate == 0.9
    requires b.timesShown == 0 && b.correctRate == 0.1
    requires c.timesShown == 3 && c.correctRate == 0.1
    requires multiset(stored) == multiset{a, b, c}
    ensures RankedPool(stored) == [b, a, c]
  {
    var r := RankedPool(stored);
    assert |stored| == 3 by {
      assert |multiset(stored)| == |stored|;
    }
    forall i | 0 <= i < |stored|
      ensures stored[i].timesShown < ExposureCap
    {
      assert stored[i] in multiset(stored);
      assert stored[i] == a || stored[i] == b || stored[i] == c;
    }
    AllEligible(stored);
    SubmultisetOfSameSize(multiset(r), multiset(stored));
    assert Precedes(b, a) && Precedes(a, c) && Precedes(b, c);
    SortedThree(r, a, b, c);
  }

  /** When every row is under the cap, all of them are eligible. */
  lemma {:induction false} AllEligible(qs: seq<QuestionRecord>)
    requires forall i :: 0 <= i < |qs| ==> qs[i].timesShown < ExposureCap
    ensures Eligible(qs) == qs
  {
    if |qs| > 0 {
      AllEligible(qs[1..]);
      assert [qs[0]] + qs[1..] == qs;
    }
  }

  lemma SubmultisetOfSameSize(m: multiset<QuestionRecord>, n: multiset<QuestionRecord>)
    requires m <= n && |m| == |n|
    ensures m == n
  {
    assert |n - m| == |n| - |m|;
  }

  /** The only sorted arrangement of three rows in strict order. */
  lemma SortedThree(r: seq<QuestionRecord>, a: QuestionRecord, b: QuestionRecord, c: QuestionRecord)
    requires multiset(r) == multiset{a, b, c}
    requires Sorted(r)
    requires Precedes(b, a) && Precedes(a, c) && Precedes(b, c)
    ensures r == [b, a, c]
  {
    assert |r| == 3 by {
      assert |multiset(r)| == |r|;
    }
    assert a in multiset(r) && b in multiset(r) && c in multiset(r);
    var ia :| 0 <= ia < 3 && r[ia] == a;
    var ib :| 0 <= ib < 3 && r[ib] == b;
    var ic :| 0 <= ic < 3 && r[ic] == c;
    assert ib < ia && ia < ic && ib < ic;
  }
}
