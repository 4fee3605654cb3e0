/** The data model of the quiz feed backend: generated question rows, content
    chunks, interaction events and users, held together in one database value
    that the request handlers read and return updated. */
module Types {

  datatype Option<+T> = None | Some(value: T)

  /** The three kinds of question the generator produces. */
  datatype QuestionType = MultipleChoice | TrueFalse | FillInTheBlank

  /** The question body: what the `question_data` column holds and what the feed
      spreads into each response object. */
  datatype Payload = Payload(
    question: string,
    options: Option<seq<string>>,
    correctIndex: Option<int>,
    explanation: Option<string>,
    learningObjective: string,
    keyConcept: string,
    bloomLevel: string,
    difficulty: real)

  /** A question as the feed endpoint returns it. */
  datatype Question = Question(id: string, kind: QuestionType, payload: Payload)

  /** A question as the generation service returns it; it gets its id only when stored. */
  datatype Candidate = Candidate(kind: QuestionType, payload: Payload)

  /** One row of `generated_questions`. `difficulty` is the column, which the
      feed reports in place of the payload's own difficulty. */
  datatype QuestionRecord = QuestionRecord(
    id: string,
    chunkId: string,
    data: Payload,
    kind: QuestionType,
    difficulty: real,
    engagementScore: real,
    timesShown: nat,
    correctRate: real)

  /** One row of `content_chunks`. */
  datatype Chunk = Chunk(id: string, text: string)

  /** One row of `user_interactions`. */
  datatype InteractionEvent = InteractionEvent(
    userId: string,
    questionId: string,
    interactionType: string,
    answerCorrect: bool,
    timeSpent: int)

  /** One row of `users` (the timestamp columns are not modelled). */
  datatype User = User(
    id: string,
    username: string,
    email: string,
    authProvider: string,
    authProviderId: string)

  /** The whole database as the handlers see it. */
  datatype Db = Db(
    questions: seq<QuestionRecord>,
    chunks: seq<Chunk>,
    interactions: seq<InteractionEvent>,
    users: seq<User>)

  /** An HTTP reply: a JSON body with status 200, or an error status with an `error` message. */
  datatype Reply<+T> = Json(body: T) | Error(status: int, message: string)

  /** A handler's reply together with the database it leaves behind. */
  datatype Step<+T> = Step(reply: Reply<T>, db: Db)

  const InternalServerError := "Internal server error"

  /** No two question rows share an id (the id column is the primary key). */
  predicate DistinctIds(qs: seq<QuestionRecord>) {
    forall i, j :: 0 <= i < j < |qs| ==> qs[i].id != qs[j].id
  }

  /** The ids of a sequence of rows, in order. */
  function IdsOf(qs: seq<QuestionRecord>): (ids: seq<string>)
    ensures |ids| == |qs|
    ensures forall i :: 0 <= i < |qs| ==> ids[i] == qs[i].id
  {
    seq(|qs|, i requires 0 <= i < |qs| => qs[i].id)
  }

  /** How many times `x` occurs in `xs`. */
  function Count<T(==)>(xs: seq<T>, x: T): nat {
    if |xs| == 0 then 0 else (if xs[0] == x then 1 else 0) + Count(xs[1..], x)
  }
}
