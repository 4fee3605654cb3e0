# Quiz feed backend: feed selection, generation fallback, interactions and auth

A Dafny model of the request logic of a quiz-feed backend. The feed endpoint
either serves questions from the pool or has new ones generated from source
text. It also records answers and authenticates requests.

- **Feed (GET /api/feed/next).** The feed query keeps question rows shown fewer
  than 10 times. It orders them never-shown first, then by ascending correct
  rate, descending engagement score and ascending difficulty, and keeps at
  most 5. With at least 3 rows this is the fast path: the rows are returned
  and each one's `times_shown` is bumped by one. Otherwise the miss path picks
  a content chunk with the fewest generated questions (ties at random) and
  sends its text to the generation service. It stores one row per generated
  question (engagement 0.5, `times_shown` 0, correct rate 0.0, new id) and
  returns the generated list with those ids. No chunk, or a generation call
  that throws, returns a fixed one-question fallback batch and writes nothing.
- **Interaction (POST /api/interaction).** A body without `questionId` or
  `type` gets a 400. Otherwise one event row is appended, with `correct`
  defaulting to false and `timeSpent` to 0.
- **Auth middleware.** `clerkAuth` needs an `Authorization` header starting
  with `"Bearer "`. Its token is element 1 of the header split on spaces, and
  the decoded token must carry a `sub` claim. `syncUserToDatabase` returns the
  id of the user row with the given provider id. When there is none, it
  inserts one, with the username falling back to the email's local part.

The database is one immutable value (`Types.Db`): question rows, chunks,
interaction events and users. Each handler is a pure function from the
database and the outcomes of things outside it to a reply and the new
database. Those outcomes are:

- which storage queries fail (`Feed.Storage`);
- the random chunk tie-break, as an index into the tied chunks;
- the generation service's answer (`Feed.Generation`);
- the id generator (`newId: nat -> string`);
- the token decoder (`decode: string -> Decoded`).

Modules: `Types` (data model), `Text` (JavaScript `split`/`startsWith`),
`Ranking` (feed query), `Chunks` (chunk selection), `Feed` (feed handler),
`FeedProperties` (lemmas about it), `Interaction`, `Auth`.

Points where the code behaves in ways a reader might not expect, which the
model follows:

- A failed `times_shown` bump rejects the `Promise.all` of the fast path, and a
  failed insert rejects that of the miss path. Either way the request is a 500
  with no questions returned; nothing is skipped and no partial batch is
  served. The writes that did succeed stay in effect, because the single
  connection runs every query it was given
  (`FeedProperties.FastPathBumpsServedRows`, `FeedProperties.MissPathFailures`).
- A generation reply that is not a list makes `.map` throw inside the outer
  `try`. That gives a 500; the fallback batch is served only when the HTTP
  call itself throws (`FeedProperties.MissPathFailures`).
- The generated list is returned whole, so it may hold more than 5 questions.
  If the service returns an empty list, the reply is the empty list, since
  nothing substitutes the fallback batch there
  (`FeedProperties.EmptyBatchOnlyFromEmptyGeneration`).
- Rows that tie on all four sort keys come out in an order SQL leaves open.
  The model sorts stably, in store order, but the contract of
  `Ranking.RankedPool` fixes the order only up to such ties.

## Model

| member | source | states |
|---|---|---|
| Ranking.Eligible | backend/src/index.ts:52 | the eligible rows are exactly the stored rows with `times_shown < 10`, with the same multiplicities |
| Ranking.Sort | backend/src/index.ts:53-57 | the result is a permutation of the input, ordered by the four keys of the ORDER BY |
| Ranking.RankedPool | backend/src/index.ts:48-61 | at most 5 rows, all under the exposure cap, drawn from the eligible rows, in key order; no eligible row left out sorts strictly before a row returned; exactly min(5, eligible) rows |
| Ranking.PoolOrderExample | backend/src/index.ts:53-56 | never-shown A (rate 0.9), never-shown B (rate 0.1) and shown C (rate 0.1) come out as B, A, C in whatever order they are stored |
| Chunks.QuestionCount | backend/src/index.ts:91-94 | a chunk never has more questions counted than there are question rows |
| Chunks.QuestionCountAppend | backend/src/index.ts:91-94 | the per-chunk question count over two sets of rows is the sum of the counts |
| Chunks.SelectChunk | backend/src/index.ts:88-99 | no chunk is chosen exactly when there are no chunks; otherwise the chosen chunk exists and its question count is at most every other chunk's |
| Chunks.EveryLeastUsedChunkCanBeChosen | backend/src/index.ts:92 | every chunk of minimal count is chosen for some tie-break outcome |
| Chunks.StoringQuestionsRaisesCount | backend/src/index.ts:133-137 | storing n questions for a chunk raises its count by n and leaves every other chunk's count unchanged |
| Feed.GetNextBatch | backend/src/index.ts:38-150 | the feed never changes chunks, events or users; existing rows only ever have `times_shown` raised; every error is the 500 "Internal server error" |
| Feed.FastPath | backend/src/index.ts:63-84 | the fast path changes nothing but question counters, which only rise: no row is added or removed, and no other table changes |
| Feed.MissPath | backend/src/index.ts:86-143 | the miss path only appends question rows, leaving existing rows as they were |
| Feed.MockQuestions | backend/src/index.ts:188-203 | the fallback batch is one multiple-choice question whose correct index names one of its options, "Paris" |
| Feed.ServeRow | backend/src/index.ts:64-69 | a served row keeps the row's id and type, and its payload is the stored one with only the difficulty replaced by the difficulty column |
| Feed.IncrementShown | backend/src/index.ts:76-79 | every row with the id gains exactly one on `times_shown`, nothing else changes, and an id no row has changes nothing |
| Feed.NewRecord | backend/src/index.ts:133-137 | a stored generated question has the new id and the chunk, `times_shown` 0 (so the never-shown tier), correct rate 0.0 and engagement 0.5, and is served back as the generated question with that id |
| Feed.MarkShownAddsOccurrences | backend/src/index.ts:72-81 | after the bumps each row's counter has risen by the number of bumps of its id, and nothing else about it has changed |
| FeedProperties.FastPathServesPool | backend/src/index.ts:63-69 | with at least 3 pool rows the reply is those rows in order, with id, type, payload and the difficulty column; it is a 500 exactly when a bump failed |
| FeedProperties.FastPathBumpsServedRows | backend/src/index.ts:72-81 | with unique ids, each served row whose bump succeeded gains exactly 1 on `times_shown`; all other rows are unchanged |
| FeedProperties.FastPathIgnoresMissPath | backend/src/index.ts:63-84 | with at least 3 pool rows the outcome does not depend on the chunk query, tie-break, generation service or id generator |
| FeedProperties.MissPathLeavesPoolAlone | backend/src/index.ts:86-143 | with fewer than 3 pool rows no existing row changes, and a successful reply is the fallback batch or the generated list |
| FeedProperties.FallbackWhenNothingGenerated | backend/src/index.ts:101-115 | with no chunk, or a generation call that throws, the reply is the fixed non-empty fallback batch and the database is unchanged |
| FeedProperties.GeneratedBatchStored | backend/src/index.ts:117-143 | on success the store gains one row per generated question, in order, for the least-used chunk, with the new id, `times_shown` 0, correct rate 0.0 and engagement 0.5; the reply is the generated list with those ids |
| FeedProperties.FeedKeepsIdsDistinct | backend/src/index.ts:119-139 | given fresh ids from the generator, question ids stay unique after any request |
| FeedProperties.EmptyBatchOnlyFromEmptyGeneration | backend/src/index.ts:117-143 | an empty reply needs an empty generated list; on the miss path, with a chunk and both queries working, an empty generated list gives an empty reply |
| FeedProperties.InternalErrorHasCause | backend/src/index.ts:144-146 | a 500 always comes from a failed query or a malformed generation body; a failed feed query gives a 500 with no writes |
| FeedProperties.MissPathFailures | backend/src/index.ts:97-146 | on the miss path a failed chunk query or a non-list generation body gives a 500 with no writes; when an insert fails the reply is a 500 and exactly the successful inserts are appended, in order |
| FeedProperties.StoredQuestionServedAsGenerated | backend/src/index.ts:64-69 | a stored generated question, however often shown, is served on the fast path exactly as it was first returned |
| Interaction.RecordInteraction | backend/src/index.ts:152-175 | a missing or empty `questionId` or `type` gives 400 "Missing required fields" and no write; a failed insert gives 500 "Internal server error" and no write; otherwise exactly one event is appended for the user and question; no other table changes |
| Interaction.CorrectOrFalse | backend/src/index.ts:166 | the stored correctness is true exactly when the answer reports `correct` as true |
| Interaction.TimeSpentOrZero | backend/src/index.ts:166 | the stored time is the reported `timeSpent`, or 0 when the answer or the field is absent |
| Interaction.RecordedAnswerDefaults | backend/src/index.ts:166 | the event's correctness is true only when the answer says so, and its time is the reported one or 0 |
| Text.Split | backend/src/middleware/auth.ts:24 | the pieces contain no separator and number one more than the separators in the string |
| Text.SplitJoin | backend/src/middleware/auth.ts:24 | joining the pieces of a split gives back the string |
| Text.StartsWith | backend/src/middleware/auth.ts:20 | the test holds exactly when the string is the prefix followed by some text |
| Auth.BearerToken | backend/src/middleware/auth.ts:24 | the token is the text after `"Bearer "` up to the next space, and contains no space |
| Auth.BearerTokenExamples | backend/src/middleware/auth.ts:24 | `"Bearer a b"` gives `"a"` and `"Bearer  x"` gives `""` |
| Auth.ClerkAuth | backend/src/middleware/auth.ts:16-39 | a missing header or one without the prefix gives 401 "No token provided"; the request proceeds exactly when the decoded token has a non-empty `sub`, and then carries that `sub` and the email; a decoder that throws gives 401 "Authentication failed"; every rejection is a 401 |
| Auth.MissingSubjectIsInvalid | backend/src/middleware/auth.ts:25-29 | a prefixed header whose token decodes to `null`, or whose `sub` is absent or empty, gives 401 "Invalid token" |
| Auth.FindByProvider | backend/src/middleware/auth.ts:44-49 | the lookup finds a row with the provider id, and finds none only when no row has it |
| Auth.UsernameFor | backend/src/middleware/auth.ts:60 | a non-empty username is kept; otherwise the username is the email text before the first `@`, a prefix of the email without `@` |
| Auth.SyncUser | backend/src/middleware/auth.ts:41-70 | an existing provider id returns that user's id and inserts nothing; otherwise exactly one `clerk` user is appended with the new id, the email, the provider id and the username rule |
| Auth.SyncNeverDuplicates | backend/src/middleware/auth.ts:44-62 | if provider ids are unique before a sync, they are unique after it, and a row with the synced provider id exists |
| Auth.SyncIdempotent | backend/src/middleware/auth.ts:44-54 | syncing the same provider id a second time, on any users table, returns the same id and changes nothing |

## Left out

- Express routing, the pg pool set-up, `connect`/`release`, dotenv, CORS, the health check and `listen`: these are I/O plumbing. A failed `connect` gives the same 500 as a failed first query, so it is folded into `feedQueryFails` for the feed and into `insertFails` for interactions.
- The HTTP call to the generation service and its 10-second timeout: every thrown error is one `Unavailable` outcome, and a non-list body is `Malformed`.
- Token decoding (`jwt.decode`): a foreign call, modelled as the `decode` parameter. The middleware checks no signature, so there is none to model.
- `uuidv4`: modelled as the `newId` parameter. That its ids are fresh is a premise of `FeedProperties.FeedKeepsIdsDistinct`, not a guarantee of the model.
- The random tie-break: a `tieBreak` index into the tied chunks. Its uniform distribution cannot be stated here. `Chunks.EveryLeastUsedChunkCanBeChosen` shows only that every tied chunk can be chosen.
- The concurrency of `Promise.all` and lost updates between concurrent requests: the model runs one request's writes in order.
- Floating-point columns: correct rate, engagement score and difficulty are Dafny `real`s that are only compared. SQL NULL ordering is not modelled.
- The Clerk webhook handler: thin glue around `syncUserToDatabase`. That includes its unchecked `email_addresses[0]`.
- `last_active`/`created_at` timestamps and the `last_active` update of an existing user: these are clock values.
- Storage errors inside `syncUserToDatabase`, which it rethrows: its callers are out of scope.
- The dead `if (!client)` checks.
- JavaScript typing of request values: request fields are strings or absent, `correct` is a boolean and `timeSpent` an integer. Numbers, `null` or other falsy values in those fields are not modelled.
- Fields of a generated question beyond those of the `Question` record: the reply would carry them unchanged.
- FeedProperties.FastPathBumpsServedRows: assumes question ids are unique, as the primary key guarantees. `Feed.MarkShownAddsOccurrences` states the effect without that premise.
- The frontend screens: UI and navigation only.
