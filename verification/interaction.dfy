/** The POST /api/interaction handler: checks that the body names a question
    and an interaction type, then appends one event with the answer's
    correctness and time spent, defaulting to false and 0. */
module Interaction {
  import opened Types

  /** The optional `answer` object of the request body. */
  datatype Answer = Answer(correct: Option<bool>, timeSpent: Option<int>)

  /** The request body; absent fields are `None`. */
  datatype InteractionBody = InteractionBody(
    questionId: Option<string>,
    interactionType: Option<string>,
    answer: Option<Answer>)

  /** The `{ success: true }` acknowledgement. */
  datatype Ack = Ack

  const MissingFields := "Missing required fields"

  /** JavaScript truthiness of an optional string: present and not empty. */
  predicate Truthy(s: Option<string>) {
    s.Some? && s.value != ""
  }

  /** `answer?.correct || false`: true only when the answer reports true. */
  function CorrectOrFalse(answer: Option<Answer>): (b: bool)
    ensures b <==> answer.Some? && answer.value.correct == Some(true)
  {
    match answer
    case Some(Answer(Some(b), _)) => b
    case _ => false
  }

  /** `answer?.timeSpent || 0`: the reported time, or 0 when there is none. */
  function TimeSpentOrZero(answer: Option<Answer>): (t: int)
    ensures answer.Some? && answer.value.timeSpent.Some? ==> t == answer.value.timeSpent.value
    ensures answer.None? || answer.value.timeSpent.None? ==> t == 0
  {
    match answer
    case Some(Answer(_, Some(t))) => t
    case _ => 0
  }

  /** The handler, for the authenticated `userId`; `insertFails` is the outcome of the insert. */
  function RecordInteraction(db: Db, userId: string, body: InteractionBody, insertFails: bool): (out: Step<Ack>)
    ensures out.db == db.(interactions := out.db.interactions)
    ensures out.reply.Json? <==> Truthy(body.questionId) && Truthy(body.interactionType) && !insertFails
    ensures !Truthy(body.questionId) || !Truthy(body.interactionType) ==>
              out == Step(Error(400, MissingFields), db)
    ensures Truthy(body.questionId) && Truthy(body.interactionType) && insertFails ==>
              out == Step(Error(500, InternalServerError), db)
    ensures !out.reply.Json? ==> out.db.interactions == db.interactions
    ensures out.reply.Json? ==>
              && |out.db.interactions| == |db.interactions| + 1
              && out.db.interactions[..|db.interactions|] == db.interactions
              && var e := out.db.interactions[|db.interactions|];
                 && e.userId == userId
                 && Some(e.questionId) == body.questionId
                 && Some(e.interactionType) == body.interactionType
  {
    if !Truthy(body.questionId) || !Truthy(body.interactionType) then
      Step(Error(400, MissingFields), db)
    else if insertFails then
      Step(Error(500, InternalServerError), db)
    else
      var e := InteractionEvent(userId, body.questionId.value, body.interactionType.value,
                                CorrectOrFalse(body.answer), TimeSpentOrZero(body.answer));
      var events := db.interactions + [e];
      assert events[..|db.interactions|] == db.interactions;
      Step(Json(Ack), db.(interactions := events))
  }

  /** A recorded event carries the reported correctness and time when the
      answer gives them, and false and 0 when it leaves them out. */
  lemma RecordedAnswerDefaults(db: Db, userId: string, body: InteractionBody)
    requires Truthy(body.questionId) && Truthy(body.interactionType)
    ensures var out := RecordInteraction(db, userId, body, false);
            var e := out.db.interactions[|db.interactions|];
            && out.reply == Json(Ack)
            && (e.answerCorrect <==> body.answer.Some? && body.answer.value.correct == Some(true))
            && (body.answer.Some? && body.answer.value.timeSpent.Some? ==> e.timeSpent == body.answer.value.timeSpent.value)
            && (body.answer.None? || body.answer.value.timeSpent.None? ==> e.timeSpent == 0)
  {
  }
}
