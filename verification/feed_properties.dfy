/** What GET /api/feed/next guarantees: the fast path serves the ranked pool and
    bumps exactly the served rows; the miss path stores one row per generated
    question for a least-used chunk and returns them with their new ids; no
    chunk or a failed generation call serves the fallback batch and writes
    nothing. */
module FeedProperties {
  import opened Types
  import opened Ranking
  import opened Chunks
  import opened Feed

  /** The fast path replies with the ranked pool, in order, each row shown with
      its id, its type, its payload and the difficulty column; it fails with a
      500 exactly when one of its bumps fails. */
  lemma FastPathServesPool(db: Db, env: FeedEnv)
    requires !env.storage.feedQueryFails
    requires |RankedPool(db.questions)| >= MinimumPool
    ensures var pool := RankedPool(db.questions);
            var out := GetNextBatch(db, env);
            && (out.reply.Json? <==> AllSucceed(|pool|, env.storage.failedWrites))
            && (out.reply.Json? ==>
                  && |out.reply.body| == |pool|
                  && forall i :: 0 <= i < |pool| ==>
                       && out.reply.body[i].id == pool[i].id
                       && out.reply.body[i].kind == pool[i].kind
                       && out.reply.body[i].payload == pool[i].data.(difficulty := pool[i].difficulty))
  {
    var pool := RankedPool(db.questions);
    assert GetNextBatch(db, env) == FastPath(db, pool, env.storage.failedWrites);
    FastPathReply(db, pool, env.storage.failedWrites);
  }

  lemma FastPathReply(db: Db, pool: seq<QuestionRecord>, failed: set<nat>)
    ensures var out := FastPath(db, pool, failed);
            && (out.reply.Json? <==> AllSucceed(|pool|, failed))
            && (out.reply.Json? ==>
                  && |out.reply.body| == |pool|
                  && forall i :: 0 <= i < |pool| ==>
                       && out.reply.body[i].id == pool[i].id
                       && out.reply.body[i].kind == pool[i].kind
                       && out.reply.body[i].payload == pool[i].data.(difficulty := pool[i].difficulty))
  {
  }

  /** On the fast path, a row's counter rises by exactly one when it was
      served and its bump succeeded; every other row is left as it was. */
  lemma FastPathBumpsServedRows(db: Db, env: FeedEnv)
    requires DistinctIds(db.questions)
    requires !env.storage.feedQueryFails
    requires |RankedPool(db.questions)| >= MinimumPool
    ensures var pool := RankedPool(db.questions);
            var bumped := Succeeded(pool, env.storage.failedWrites);
            var out := GetNextBatch(db, env);
            && |out.db.questions| == |db.questions|
            && forall i :: 0 <= i < |db.questions| ==>
                 out.db.questions[i] ==
                   if db.questions[i] in bumped
                   then db.questions[i].(timesShown := db.questions[i].timesShown + 1)
                   else db.questions[i]
  {
    var pool := RankedPool(db.questions);
    assert GetNextBatch(db, env) == FastPath(db, pool, env.storage.failedWrites);
    PoolRowsAreStored(db.questions);
    FastPathBumps(db, pool, env.storage.failedWrites);
  }

  lemma FastPathBumps(db: Db, pool: seq<QuestionRecord>, failed: set<nat>)
    requires DistinctIds(db.questions)
    requires multiset(pool) <= multiset(db.questions)
    ensures var bumped := Succeeded(pool, failed);
            var out := FastPath(db, pool, failed);
            && |out.db.questions| == |db.questions|
            && forall i :: 0 <= i < |db.questions| ==>
                 out.db.questions[i] ==
                   if db.questions[i] in bumped
                   then db.questions[i].(timesShown := db.questions[i].timesShown + 1)
                   else db.questions[i]
  {
    var qs := db.questions;
    var bumped := Succeeded(pool, failed);
    SubmultisetDistinct(pool, qs);
    SucceededDistinct(pool, failed);
    var ids := IdsOf(bumped);
    MarkShownAddsOccurrences(qs, ids);
    CountDistinct(ids, bumped);
    forall i | 0 <= i < |qs|
      ensures Count(ids, qs[i].id) == if qs[i] in bumped then 1 else 0
    {
      BumpedIdMeansBumpedRow(qs, pool, bumped, i);
      if qs[i] in bumped {
        var k :| 0 <= k < |bumped| && bumped[k] == qs[i];
        assert ids[k] == qs[i].id;
      }
    }
  }

  /** With unique ids, a stored row whose id is among the bumped rows' ids is
      itself one of the bumped rows. */
  lemma BumpedIdMeansBumpedRow(qs: seq<QuestionRecord>, pool: seq<QuestionRecord>, bumped: seq<QuestionRecord>, i: nat)
    requires DistinctIds(qs)
    requires multiset(pool) <= multiset(qs)
    requires forall y :: y in bumped ==> y in pool
    requires i < |qs|
    ensures qs[i].id in IdsOf(bumped) ==> qs[i] in bumped
  {
    var ids := IdsOf(bumped);
    if qs[i].id in ids {
      var k :| 0 <= k < |ids| && ids[k] == qs[i].id;
      assert bumped[k] in bumped;
      assert bumped[k] in multiset(pool);
      assert bumped[k] in multiset(qs);
      var m :| 0 <= m < |qs| && qs[m] == bumped[k];
      assert qs[m].id == qs[i].id;
    }
  }

  /** Whether the fast path is taken, and what it does, depends on the feed
      query alone: the chunk query, the tie-break, the generation service and
      the id generator play no part. */
  lemma FastPathIgnoresMissPath(db: Db, env1: FeedEnv, env2: FeedEnv)
    requires |RankedPool(db.questions)| >= MinimumPool
    requires env1.storage.feedQueryFails == env2.storage.feedQueryFails
    requires env1.storage.failedWrites == env2.storage.failedWrites
    ensures GetNextBatch(db, env1) == GetNextBatch(db, env2)
  {
  }

  /** With fewer than three pool rows, no existing row is touched, and a
      successful reply is either the fallback batch or the generated questions. */
  lemma MissPathLeavesPoolAlone(db: Db, env: FeedEnv)
    requires !env.storage.feedQueryFails
    requires |RankedPool(db.questions)| < MinimumPool
    ensures var out := GetNextBatch(db, env);
            && |db.questions| <= |out.db.questions|
            && out.db.questions[..|db.questions|] == db.questions
            && (out.reply.Json? ==>
                  || out.reply.body == MockQuestions()
                  || (env.generation.Generated? && out.reply.body == WithIds(env.generation.candidates, env.newId)))
  {
  }

  /** With no chunk to generate from, or a generation call that throws, the
      reply is the fixed, non-empty fallback batch and nothing is written. */
  lemma FallbackWhenNothingGenerated(db: Db, env: FeedEnv)
    requires !env.storage.feedQueryFails && !env.storage.chunkQueryFails
    requires |RankedPool(db.questions)| < MinimumPool
    requires |db.chunks| == 0 || env.generation == Unavailable
    ensures GetNextBatch(db, env) == Step(Json(MockQuestions()), db)
    ensures |MockQuestions()| > 0
  {
  }

  /** On a successful miss path the store gains one row per generated question,
      in order, each tied to the chosen least-used chunk, with a new id, zero
      exposure, zero correct rate and the default engagement score; the reply
      is the generated list in the same order carrying those ids. */
  lemma GeneratedBatchStored(db: Db, env: FeedEnv)
    requires !env.storage.feedQueryFails && !env.storage.chunkQueryFails
    requires |RankedPool(db.questions)| < MinimumPool
    requires |db.chunks| > 0
    requires env.generation.Generated?
    requires AllSucceed(|env.generation.candidates|, env.storage.failedWrites)
    ensures var cands := env.generation.candidates;
            var c := SelectChunk(db.chunks, db.questions, env.tieBreak).value;
            var out := GetNextBatch(db, env);
            var n := |db.questions|;
            && c in db.chunks
            && (forall d :: d in db.chunks ==> QuestionCount(db.questions, c.id) <= QuestionCount(db.questions, d.id))
            && |out.db.questions| == n + |cands|
            && out.db.questions[..n] == db.questions
            && (forall j :: 0 <= j < |cands| ==>
                  out.db.questions[n + j] == QuestionRecord(
                    env.newId(j), c.id, cands[j].payload, cands[j].kind, cands[j].payload.difficulty,
                    DefaultEngagement, 0, 0.0))
            && out.reply.Json?
            && |out.reply.body| == |cands|
            && (forall j :: 0 <= j < |cands| ==>
                  out.reply.body[j] == Question(env.newId(j), cands[j].kind, cands[j].payload))
  {
    var c := SelectChunk(db.chunks, db.questions, env.tieBreak).value;
    assert GetNextBatch(db, env) == MissPath(db, env);
    MissPathStored(db, env, c);
  }

  /** `GeneratedBatchStored` for the miss path alone, given the chosen chunk. */
  lemma MissPathStored(db: Db, env: FeedEnv, c: Chunk)
    requires !env.storage.chunkQueryFails
    requires SelectChunk(db.chunks, db.questions, env.tieBreak) == Some(c)
    requires env.generation.Generated?
    requires AllSucceed(|env.generation.candidates|, env.storage.failedWrites)
    ensures var cands := env.generation.candidates;
            var out := MissPath(db, env);
            var n := |db.questions|;
            && c in db.chunks
            && (forall d :: d in db.chunks ==> QuestionCount(db.questions, c.id) <= QuestionCount(db.questions, d.id))
            && |out.db.questions| == n + |cands|
            && out.db.questions[..n] == db.questions
            && (forall j :: 0 <= j < |cands| ==>
                  out.db.questions[n + j] == QuestionRecord(
                    env.newId(j), c.id, cands[j].payload, cands[j].kind, cands[j].payload.difficulty,
                    DefaultEngagement, 0, 0.0))
            && out.reply.Json?
            && |out.reply.body| == |cands|
            && (forall j :: 0 <= j < |cands| ==>
                  out.reply.body[j] == Question(env.newId(j), cands[j].kind, cands[j].payload))
  {
    MissPathGenerated(db, env, c);
    AppendedRecords(db.questions, c.id, env.generation.candidates, env.newId);
  }

  lemma MissPathGenerated(db: Db, env: FeedEnv, c: Chunk)
    requires !env.storage.chunkQueryFails
    requires SelectChunk(db.chunks, db.questions, env.tieBreak) == Some(c)
    requires env.generation.Generated?
    requires AllSucceed(|env.generation.candidates|, env.storage.failedWrites)
    ensures var cands := env.generation.candidates;
            MissPath(db, env) == Step(Json(WithIds(cands, env.newId)),
                                      db.(questions := db.questions + NewRecords(c.id, cands, env.newId)))
  {
    var recs := NewRecords(c.id, env.generation.candidates, env.newId);
    assert Succeeded(recs, env.storage.failedWrites) == recs;
  }

  lemma AppendedRecords(qs: seq<QuestionRecord>, chunkId: string, cands: seq<Candidate>, newId: nat -> string)
    ensures var after := qs + NewRecords(chunkId, cands, newId);
            var n := |qs|;
            && |after| == n + |cands|
            && after[..n] == qs
            && forall j :: 0 <= j < |cands| ==>
                 after[n + j] == QuestionRecord(
                   newId(j), chunkId, cands[j].payload, cands[j].kind, cands[j].payload.difficulty,
                   DefaultEngagement, 0, 0.0)
  {
    var after := qs + NewRecords(chunkId, cands, newId);
    assert after[..|qs|] == qs;
  }

  /** `newId` hands out distinct ids that no stored row already has. */
  ghost predicate FreshIds(newId: nat -> string, qs: seq<QuestionRecord>) {
    && (forall j: nat, k: nat :: j != k ==> newId(j) != newId(k))
    && (forall j: nat, i :: 0 <= i < |qs| ==> newId(j) != qs[i].id)
  }

  /** Every request keeps the question ids unique, given fresh new ids. */
  lemma FeedKeepsIdsDistinct(db: Db, env: FeedEnv)
    requires DistinctIds(db.questions)
    requires FreshIds(env.newId, db.questions)
    ensures DistinctIds(GetNextBatch(db, env).db.questions)
  {
    var qs := db.questions;
    if env.storage.feedQueryFails {
    } else if |RankedPool(qs)| >= MinimumPool {
      assert GetNextBatch(db, env) == FastPath(db, RankedPool(qs), env.storage.failedWrites);
      FastPathKeepsIds(db, RankedPool(qs), env.storage.failedWrites);
    } else {
      assert GetNextBatch(db, env) == MissPath(db, env);
      MissPathKeepsIdsDistinct(db, env);
    }
  }

  lemma FastPathKeepsIds(db: Db, pool: seq<QuestionRecord>, failed: set<nat>)
    requires DistinctIds(db.questions)
    ensures DistinctIds(FastPath(db, pool, failed).db.questions)
  {
    var qs := db.questions;
    MarkShownAddsOccurrences(qs, IdsOf(Succeeded(pool, failed)));
    var after := FastPath(db, pool, failed).db.questions;
    assert forall i :: 0 <= i < |qs| ==> after[i].id == qs[i].id;
  }

  lemma MissPathKeepsIdsDistinct(db: Db, env: FeedEnv)
    requires DistinctIds(db.questions)
    requires FreshIds(env.newId, db.questions)
    ensures DistinctIds(MissPath(db, env).db.questions)
  {
    var qs := db.questions;
    if !env.storage.chunkQueryFails && |db.chunks| > 0 && env.generation.Generated? {
      var cands := env.generation.candidates;
      var c := SelectChunk(db.chunks, qs, env.tieBreak).value;
      var recs := NewRecords(c.id, cands, env.newId);
      var stored := Succeeded(recs, env.storage.failedWrites);
      assert DistinctIds(recs);
      SucceededDistinct(recs, env.storage.failedWrites);
      assert MissPath(db, env).db.questions == qs + stored;
      forall a, b | 0 <= a < |qs| && 0 <= b < |stored|
        ensures qs[a].id != stored[b].id
      {
        assert stored[b] in recs;
      }
      AppendDistinct(qs, stored);
    }
  }

  /** The feed replies with an empty batch only when the generation service
      returned an empty list, and then it does. The fallback is therefore not a
      guarantee of a non-empty reply. */
  lemma EmptyBatchOnlyFromEmptyGeneration(db: Db, env: FeedEnv)
    ensures GetNextBatch(db, env).reply == Json([]) ==> env.generation == Generated([])
    ensures && !env.storage.feedQueryFails && !env.storage.chunkQueryFails
            && |RankedPool(db.questions)| < MinimumPool && |db.chunks| > 0
            && env.generation == Generated([])
            ==> GetNextBatch(db, env).reply == Json([])
  {
    if env.storage.feedQueryFails {
    } else if |RankedPool(db.questions)| >= MinimumPool {
      FastPathReply(db, RankedPool(db.questions), env.storage.failedWrites);
    } else {
      assert GetNextBatch(db, env) == MissPath(db, env);
      assert MockQuestions() != [];
      if env.generation.Generated? {
        var cands := env.generation.candidates;
        assert |WithIds(cands, env.newId)| == |cands|;
        if cands == [] {
          assert AllSucceed(0, env.storage.failedWrites);
          assert WithIds(cands, env.newId) == [];
        }
      }
    }
  }

  /** A 500 reply always has a storage fault or a malformed generation body
      behind it; a failed feed query always yields a 500 with no writes. */
  lemma InternalErrorHasCause(db: Db, env: FeedEnv)
    ensures GetNextBatch(db, env).reply.Error? ==>
              || env.storage.feedQueryFails
              || env.storage.chunkQueryFails
              || env.generation.Malformed?
              || env.storage.failedWrites != {}
    ensures env.storage.feedQueryFails ==> GetNextBatch(db, env) == Step(InternalError, db)
  {
    if env.storage.feedQueryFails {
    } else if |RankedPool(db.questions)| >= MinimumPool {
      FastPathReply(db, RankedPool(db.questions), env.storage.failedWrites);
    } else {
      assert GetNextBatch(db, env) == MissPath(db, env);
      if env.generation.Generated? && env.storage.failedWrites == {} {
        assert AllSucceed(|env.generation.candidates|, env.storage.failedWrites);
      }
    }
  }

  /** The miss path's failures. A failed chunk query, or a generation body that
      is not a list, gives a 500 with no writes; the fallback batch is not
      served. When some insert fails, the request is a 500, yet every insert
      that succeeded stays in the store, in order. */
  lemma MissPathFailures(db: Db, env: FeedEnv)
    requires !env.storage.feedQueryFails
    requires |RankedPool(db.questions)| < MinimumPool
    ensures env.storage.chunkQueryFails ==> GetNextBatch(db, env) == Step(InternalError, db)
    ensures && !env.storage.chunkQueryFails
            && SelectChunk(db.chunks, db.questions, env.tieBreak).Some?
            && env.generation.Malformed?
            ==> GetNextBatch(db, env) == Step(InternalError, db)
    ensures && !env.storage.chunkQueryFails
            && SelectChunk(db.chunks, db.questions, env.tieBreak).Some?
            && env.generation.Generated?
            && !AllSucceed(|env.generation.candidates|, env.storage.failedWrites)
            ==> var c := SelectChunk(db.chunks, db.questions, env.tieBreak).value;
                var stored := Succeeded(NewRecords(c.id, env.generation.candidates, env.newId), env.storage.failedWrites);
                GetNextBatch(db, env) == Step(InternalError, db.(questions := db.questions + stored))
  {
    assert GetNextBatch(db, env) == MissPath(db, env);
  }

  /** A stored generated question, however often it has been shown, is later
      served on the fast path exactly as it was first returned. */
  lemma StoredQuestionServedAsGenerated(id: string, chunkId: string, c: Candidate, shown: nat)
    ensures ServeRow(NewRecord(id, chunkId, c).(timesShown := shown)) == Question(id, c.kind, c.payload)
  {
  }

  // Helpers about distinct ids.

  /** Every row of the pool is a stored row. */
  lemma PoolRowsAreStored(qs: seq<QuestionRecord>)
    ensures multiset(RankedPool(qs)) <= multiset(qs)
    ensures forall x :: x in RankedPool(qs) ==> x in qs
  {
    var e := Eligible(qs);
    assert multiset(e) <= multiset(qs);
    forall x | x in RankedPool(qs)
      ensures x in qs
    {
      assert x in multiset(RankedPool(qs));
    }
  }

  lemma {:induction false} AtMostOnce(qs: seq<QuestionRecord>, x: QuestionRecord)
    requires DistinctIds(qs)
    ensures multiset(qs)[x] <= 1
  {
    if |qs| > 0 {
      assert qs == [qs[0]] + qs[1..];
      AtMostOnce(qs[1..], x);
      if x == qs[0] {
        assert x !in qs[1..];
      }
    }
  }

  lemma TwiceCounted(p: seq<QuestionRecord>, a: nat, b: nat)
    requires a < b < |p| && p[a] == p[b]
    ensures multiset(p)[p[a]] >= 2
  {
    assert p == p[..b] + p[b..];
    assert p[a] in p[..b];
    assert p[b] in p[b..];
  }

  lemma SubmultisetDistinct(p: seq<QuestionRecord>, qs: seq<QuestionRecord>)
    requires DistinctIds(qs)
    requires multiset(p) <= multiset(qs)
    ensures DistinctIds(p)
  {
    forall a, b | 0 <= a < b < |p|
      ensures p[a].id != p[b].id
    {
      assert p[a] in multiset(p) && p[b] in multiset(p);
      var ia :| 0 <= ia < |qs| && qs[ia] == p[a];
      var ib :| 0 <= ib < |qs| && qs[ib] == p[b];
      if p[a].id == p[b].id {
        assert ia == ib;
        TwiceCounted(p, a, b);
        AtMostOnce(qs, p[a]);
        assert false;
      }
    }
  }

  lemma {:induction false} SucceededDistinct(xs: seq<QuestionRecord>, failed: set<nat>)
    requires DistinctIds(xs)
    ensures DistinctIds(Succeeded(xs, failed))
  {
    if |xs| > 0 {
      var last := |xs| - 1;
      var init := xs[..last];
      assert xs == init + [xs[last]];
      SucceededDistinct(init, failed);
      var s := Succeeded(init, failed);
      forall y | y in s
        ensures y.id != xs[last].id
      {
        assert y in init;
      }
      if last !in failed {
        AppendDistinct(s, [xs[last]]);
      }
    }
  }

  lemma AppendDistinct(a: seq<QuestionRecord>, b: seq<QuestionRecord>)
    requires DistinctIds(a) && DistinctIds(b)
    requires forall i, j :: 0 <= i < |a| && 0 <= j < |b| ==> a[i].id != b[j].id
    ensures DistinctIds(a + b)
  {
    forall i, j | 0 <= i < j < |a + b|
      ensures (a + b)[i].id != (a + b)[j].id
    {
      if j >= |a| && i < |a| {
        assert (a + b)[j] == b[j - |a|];
      } else if i >= |a| {
        assert (a + b)[i] == b[i - |a|] && (a + b)[j] == b[j - |a|];
      }
    }
  }

  lemma {:induction false} CountDistinct(ids: seq<string>, rows: seq<QuestionRecord>)
    requires ids == IdsOf(rows) && DistinctIds(rows)
    ensures forall x :: Count(ids, x) == if x in ids then 1 else 0
  {
    if |ids| > 0 {
      assert ids[1..] == IdsOf(rows[1..]);
      CountDistinct(ids[1..], rows[1..]);
      assert ids[0] !in ids[1..];
      assert forall x :: x in ids <==> x == ids[0] || x in ids[1..];
    }
  }
}
