/** The chunk query of the miss path: among all content chunks, one whose number
    of generated questions is smallest, ties broken at random. The random
    choice is modelled by a `tieBreak` index into the tied chunks. */
module Chunks {
  import opened Types

  /** The number of question rows generated from chunk `chunkId` (the LEFT JOIN count). */
  function QuestionCount(qs: seq<QuestionRecord>, chunkId: string): (n: nat)
    ensures n <= |qs|
  {
    if |qs| == 0 then 0
    else (if qs[0].chunkId == chunkId then 1 else 0) + QuestionCount(qs[1..], chunkId)
  }

  /** Counting over two tables of rows adds up. */
  lemma {:induction false} QuestionCountAppend(a: seq<QuestionRecord>, b: seq<QuestionRecord>, chunkId: string)
    ensures QuestionCount(a + b, chunkId) == QuestionCount(a, chunkId) + QuestionCount(b, chunkId)
  {
    if |a| > 0 {
      assert (a + b)[1..] == a[1..] + b;
      QuestionCountAppend(a[1..], b, chunkId);
    } else {
      assert a + b == b;
    }
  }

  /** The smallest question count over a non-empty list of chunks. */
  function MinCount(chunks: seq<Chunk>, qs: seq<QuestionRecord>): (m: nat)
    requires |chunks| > 0
    ensures forall i :: 0 <= i < |chunks| ==> m <= QuestionCount(qs, chunks[i].id)
    ensures exists i :: 0 <= i < |chunks| && QuestionCount(qs, chunks[i].id) == m
  {
    var first := QuestionCount(qs, chunks[0].id);
    if |chunks| == 1 then first
    else
      var rest := MinCount(chunks[1..], qs);
      assert forall i :: 1 <= i < |chunks| ==> chunks[i] == chunks[1..][i - 1];
      if first <= rest then first else rest
  }

  /** The chunks whose question count is `m`, in order. */
  function WithCount(chunks: seq<Chunk>, qs: seq<QuestionRecord>, m: nat): (r: seq<Chunk>)
    ensures forall c :: c in r <==> c in chunks && QuestionCount(qs, c.id) == m
  {
    if |chunks| == 0 then []
    else
      assert chunks == [chunks[0]] + chunks[1..];
      (if QuestionCount(qs, chunks[0].id) == m then [chunks[0]] else []) + WithCount(chunks[1..], qs, m)
  }

  /** The chunk the miss path generates from; `None` when no chunk exists. */
  function SelectChunk(chunks: seq<Chunk>, qs: seq<QuestionRecord>, tieBreak: nat): (r: Option<Chunk>)
    ensures r.None? <==> |chunks| == 0
    ensures r.Some? ==> r.value in chunks
    ensures r.Some? ==> forall c :: c in chunks ==> QuestionCount(qs, r.value.id) <= QuestionCount(qs, c.id)
  {
    if |chunks| == 0 then None
    else
      var m := MinCount(chunks, qs);
      var tied := WithCount(chunks, qs, m);
      LeastUsedAreTied(chunks, qs);
      Some(tied[tieBreak % |tied|])
  }

  /** Some chunk attains the minimal count. */
  lemma LeastUsedAreTied(chunks: seq<Chunk>, qs: seq<QuestionRecord>)
    requires |chunks| > 0
    ensures |WithCount(chunks, qs, MinCount(chunks, qs))| > 0
  {
    var i :| 0 <= i < |chunks| && QuestionCount(qs, chunks[i].id) == MinCount(chunks, qs);
    assert chunks[i] in WithCount(chunks, qs, MinCount(chunks, qs));
  }

  /** Every chunk of minimal count is the one chosen for some outcome of the
      random tie-break, so no tied chunk is starved. */
  lemma EveryLeastUsedChunkCanBeChosen(chunks: seq<Chunk>, qs: seq<QuestionRecord>, c: Chunk)
    requires c in chunks
    requires forall d :: d in chunks ==> QuestionCount(qs, c.id) <= QuestionCount(qs, d.id)
    ensures exists tieBreak: nat :: SelectChunk(chunks, qs, tieBreak) == Some(c)
  {
    var tied := WithCount(chunks, qs, MinCount(chunks, qs));
    LeastUsedIsTied(chunks, qs, c);
    var i :| 0 <= i < |tied| && tied[i] == c;
    var t: nat := i;
    SmallModulus(t, |tied|);
    assert SelectChunk(chunks, qs, t) == Some(tied[t % |tied|]);
  }

  lemma SmallModulus(i: nat, n: nat)
    requires i < n
    ensures i % n == i
  {
  }

  lemma LeastUsedIsTied(chunks: seq<Chunk>, qs: seq<QuestionRecord>, c: Chunk)
    requires c in chunks
    requires forall d :: d in chunks ==> QuestionCount(qs, c.id) <= QuestionCount(qs, d.id)
    ensures c in WithCount(chunks, qs, MinCount(chunks, qs))
  {
    var m := MinCount(chunks, qs);
    var k :| 0 <= k < |chunks| && chunks[k] == c;
    var j :| 0 <= j < |chunks| && QuestionCount(qs, chunks[j].id) == m;
    assert chunks[j] in chunks;
    assert QuestionCount(qs, c.id) == m;
  }

  /** Storing `n` new questions for chunk `c` raises its count by `n` and leaves
      every other chunk's count alone, so the next selection moves on from it. */
  lemma StoringQuestionsRaisesCount(qs: seq<QuestionRecord>, added: seq<QuestionRecord>, c: string, other: string)
    requires forall k :: 0 <= k < |added| ==> added[k].chunkId == c
    requires other != c
    ensures QuestionCount(qs + added, c) == QuestionCount(qs, c) + |added|
    ensures QuestionCount(qs + added, other) == QuestionCount(qs, other)
  {
    QuestionCountAppend(qs, added, c);
    QuestionCountAppend(qs, added, other);
    CountOfUniform(added, c, other);
  }

  lemma {:induction false} CountOfUniform(added: seq<QuestionRecord>, c: string, other: string)
    requires forall k :: 0 <= k < |added| ==> added[k].chunkId == c
    requires other != c
    ensures QuestionCount(added, c) == |added|
    ensures QuestionCount(added, other) == 0
  {
    if |added| > 0 {
      CountOfUniform(added[1..], c, other);
    }
  }
}
