/** The GET /api/feed/next handler as a function from the database and the
    outcomes of everything outside it (the storage's faults, the random chunk
    tie-break, the generation service, the id generator) to a reply and the
    database it leaves.

    Fast path: the feed query returns at least three rows; they are returned
    and each row's `times_shown` is bumped. Miss path: one least-used chunk is
    chosen, its text is sent to the generation service, and every generated
    question is stored and returned with its new id. No chunk, or a failed
    generation call, returns the fixed fallback batch. */
module Feed {
  import opened Types
  import opened Ranking
  import opened Chunks

  /** The fast path is taken when the feed query returns at least this many rows. */
  const MinimumPool: nat := 3

  /** The engagement score a freshly generated question is stored with. */
  const DefaultEngagement: real := 0.5

  /** The outcome of the call to the generation service: a list of questions;
      a thrown error (timeout, transport failure, error status); or a body that
      is not a list, on which the handler's `.map` throws. */
  datatype Generation = Generated(candidates: seq<Candidate>) | Unavailable | Malformed

  /** Which storage queries of this request fail. Writes are numbered from 0 in
      the order they are issued: the bumps of the fast path, or the inserts of
      the miss path. The single connection runs every issued query, so a failed
      write leaves the others in effect. */
  datatype Storage = Storage(feedQueryFails: bool, chunkQueryFails: bool, failedWrites: set<nat>)

  /** Everything the handler receives from outside the database. */
  datatype FeedEnv = FeedEnv(tieBreak: nat, generation: Generation, newId: nat -> string, storage: Storage)

  const InternalError: Reply<seq<Question>> := Error(500, InternalServerError)

  /** The fixed one-question batch served when nothing can be generated: a
      multiple-choice question whose correct index names one of its options. */
  function MockQuestions(): (qs: seq<Question>)
    ensures |qs| == 1 && qs[0].kind == MultipleChoice
    ensures var p := qs[0].payload;
            && p.options.Some? && p.correctIndex.Some?
            && 0 <= p.correctIndex.value < |p.options.value|
            && p.options.value[p.correctIndex.value] == "Paris"
  {
    [Question("1", MultipleChoice, Payload(
      "What is the capital of France?",
      Some(["Paris", "London", "Berlin", "Madrid"]),
      Some(0),
      Some("Paris is the capital city of France."),
      "Geography basics",
      "Capitals",
      "recall",
      0.3))]
  }

  /** The response object for a pool row: id and type from their columns, the
      payload spread in, and the difficulty column written over the payload's. */
  function ServeRow(r: QuestionRecord): (q: Question)
    ensures q.id == r.id && q.kind == r.kind
    ensures q.payload.difficulty == r.difficulty
    ensures q.payload.(difficulty := r.data.difficulty) == r.data
  {
    Question(r.id, r.kind, r.data.(difficulty := r.difficulty))
  }

  function ServeRows(rows: seq<QuestionRecord>): seq<Question> {
    seq(|rows|, i requires 0 <= i < |rows| => ServeRow(rows[i]))
  }

  /** `UPDATE ... SET times_shown = times_shown + 1 WHERE id = $1`: every row
      with that id gains one on its counter; an id no row has changes nothing. */
  function IncrementShown(qs: seq<QuestionRecord>, id: string): (r: seq<QuestionRecord>)
    ensures |r| == |qs|
    ensures forall i :: 0 <= i < |qs| ==>
              && r[i] == qs[i].(timesShown := r[i].timesShown)
              && r[i].timesShown == qs[i].timesShown + (if qs[i].id == id then 1 else 0)
    ensures id !in IdsOf(qs) ==> r == qs
  {
    seq(|qs|, i requires 0 <= i < |qs| =>
      if qs[i].id == id then qs[i].(timesShown := qs[i].timesShown + 1) else qs[i])
  }

  /** The bumps for `ids`, one after another. */
  function MarkShown(qs: seq<QuestionRecord>, ids: seq<string>): seq<QuestionRecord>
    decreases |ids|
  {
    if |ids| == 0 then qs else MarkShown(IncrementShown(qs, ids[0]), ids[1..])
  }

  /** The elements of `xs` whose write succeeded, in order. */
  function Succeeded<T>(xs: seq<T>, failed: set<nat>): (r: seq<T>)
    ensures |r| <= |xs|
    ensures forall y :: y in r ==> y in xs
    ensures (forall j :: 0 <= j < |xs| ==> j !in failed) ==> r == xs
  {
    if |xs| == 0 then []
    else
      var last := |xs| - 1;
      assert xs == xs[..last] + [xs[last]];
      Succeeded(xs[..last], failed) + (if last in failed then [] else [xs[last]])
  }

  /** None of the first `n` writes fails. */
  predicate AllSucceed(n: nat, failed: set<nat>) {
    forall j :: 0 <= j < n ==> j !in failed
  }

  /** The row inserted for a generated question: never shown, correct rate 0.0,
      the default engagement, and served back exactly as it was generated. */
  function NewRecord(id: string, chunkId: string, c: Candidate): (r: QuestionRecord)
    ensures r.id == id && r.chunkId == chunkId
    ensures r.timesShown == 0 && Tier(r) == 0
    ensures r.correctRate == 0.0 && r.engagementScore == DefaultEngagement
    ensures ServeRow(r) == Question(id, c.kind, c.payload)
  {
    QuestionRecord(id, chunkId, c.payload, c.kind, c.payload.difficulty, DefaultEngagement, 0, 0.0)
  }

  function NewRecords(chunkId: string, cands: seq<Candidate>, newId: nat -> string): seq<QuestionRecord> {
    seq(|cands|, j requires 0 <= j < |cands| => NewRecord(newId(j), chunkId, cands[j]))
  }

  /** The generated questions with their new ids, as the handler returns them. */
  function WithIds(cands: seq<Candidate>, newId: nat -> string): seq<Question> {
    seq(|cands|, j requires 0 <= j < |cands| => Question(newId(j), cands[j].kind, cands[j].payload))
  }

  /** Only `times_shown` of an existing row ever changes, and only upwards. */
  predicate OnlyCountersRise(before: seq<QuestionRecord>, after: seq<QuestionRecord>) {
    && |before| <= |after|
    && forall i :: 0 <= i < |before| ==>
         && after[i] == before[i].(timesShown := after[i].timesShown)
         && before[i].timesShown <= after[i].timesShown
  }

  /** The handler. */
  function GetNextBatch(db: Db, env: FeedEnv): (out: Step<seq<Question>>)
    ensures out.db.chunks == db.chunks
    ensures out.db.interactions == db.interactions
    ensures out.db.users == db.users
    ensures OnlyCountersRise(db.questions, out.db.questions)
    ensures out.reply.Error? ==> out.reply == InternalError
  {
    if env.storage.feedQueryFails then Step(InternalError, db)
    else
      var pool := RankedPool(db.questions);
      if |pool| >= MinimumPool then FastPath(db, pool, env.storage.failedWrites)
      else
        var out := MissPath(db, env);
        GrowingKeepsRows(db.questions, out.db.questions);
        out
  }

  /** The fast path, taken when the feed query returned at least three rows:
      serve them, and bump each one's counter. */
  function FastPath(db: Db, pool: seq<QuestionRecord>, failed: set<nat>): (out: Step<seq<Question>>)
    ensures out.db == db.(questions := out.db.questions)
    ensures |out.db.questions| == |db.questions|
    ensures OnlyCountersRise(db.questions, out.db.questions)
    ensures out.reply.Error? ==> out.reply == InternalError
  {
    var bumped := IdsOf(Succeeded(pool, failed));
    MarkShownAddsOccurrences(db.questions, bumped);
    MarkShownRaisesCounters(db.questions, bumped);
    var db' := db.(questions := MarkShown(db.questions, bumped));
    if AllSucceed(|pool|, failed) then Step(Json(ServeRows(pool)), db')
    else Step(InternalError, db')
  }

  /** The miss path, taken when the feed query returned fewer than three rows. */
  function MissPath(db: Db, env: FeedEnv): (out: Step<seq<Question>>)
    ensures out.db == db.(questions := out.db.questions)
    ensures |db.questions| <= |out.db.questions| && out.db.questions[..|db.questions|] == db.questions
    ensures out.reply.Error? ==> out.reply == InternalError
  {
    if env.storage.chunkQueryFails then Step(InternalError, db)
    else
      match SelectChunk(db.chunks, db.questions, env.tieBreak)
      case None => Step(Json(MockQuestions()), db)
      case Some(chunk) =>
        match env.generation
        case Unavailable => Step(Json(MockQuestions()), db)
        case Malformed => Step(InternalError, db)
        case Generated(cands) =>
          var stored := Succeeded(NewRecords(chunk.id, cands, env.newId), env.storage.failedWrites);
          var db' := db.(questions := db.questions + stored);
          assert db'.questions[..|db.questions|] == db.questions;
          if AllSucceed(|cands|, env.storage.failedWrites) then Step(Json(WithIds(cands, env.newId)), db')
          else Step(InternalError, db')
  }

  lemma MarkShownRaisesCounters(qs: seq<QuestionRecord>, ids: seq<string>)
    ensures OnlyCountersRise(qs, MarkShown(qs, ids))
  {
    MarkShownAddsOccurrences(qs, ids);
  }

  lemma GrowingKeepsRows(before: seq<QuestionRecord>, after: seq<QuestionRecord>)
    requires |before| <= |after| && after[..|before|] == before
    ensures OnlyCountersRise(before, after)
  {
    forall i | 0 <= i < |before|
      ensures after[i] == before[i].(timesShown := after[i].timesShown)
    {
      assert after[i] == after[..|before|][i];
    }
  }

  /** After bumping the ids in `ids` one by one, each row's counter has risen by
      the number of times its id occurs there, and nothing else has changed. */
  lemma {:induction false} MarkShownAddsOccurrences(qs: seq<QuestionRecord>, ids: seq<string>)
    ensures |MarkShown(qs, ids)| == |qs|
    ensures forall i :: 0 <= i < |qs| ==>
      MarkShown(qs, ids)[i] == qs[i].(timesShown := qs[i].timesShown + Count(ids, qs[i].id))
    decreases |ids|
  {
    if |ids| > 0 {
      var qs1 := IncrementShown(qs, ids[0]);
      MarkShownAddsOccurrences(qs1, ids[1..]);
      forall i | 0 <= i < |qs|
        ensures MarkShown(qs, ids)[i] == qs[i].(timesShown := qs[i].timesShown + Count(ids, qs[i].id))
      {
        assert qs1[i].id == qs[i].id;
      }
    }
  }
}
