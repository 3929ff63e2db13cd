# Courts, games, mail and codes: a verified model

The server lets people book court slots, open games on them, join and leave those games, and log
in with codes sent by mail. This project models the parts of it where several steps, several
requests or several tables have to fit together, and proves what they guarantee.

**Slots and games.** Seven transactions change `court_slots`, `games` and `game_players`. They are
modelled twice. `Transactions` has each one as a single atomic step. `LockStep` has each one as
PostgreSQL runs it under READ COMMITTED: statement by statement, with row locks, reads before the
lock, writes nobody else sees before the commit, and a rollback at any moment. `Serialisable`
proves that every interleaving of the second kind commits what a run of the first kind produces
in commit order; `SoloRuns` proves the converse, that every run of the first kind is one of the
interleavings. `Refusals` adds that every error is the atomic transaction's error at some moment
while the request was under way. `Guarantees`, `SlotHistory`, `GameHistory`, `Roles` and `Deadlock`
draw the consequences for all interleavings. Per-user rules are harder, since nothing locks a user:
`TakingTurns` says exactly which commits break them and proves them for users who do not have two
bookings or two joins under way at once, `OverlapRule` does the first for the documented rule,
`UserOverlap` has the single transactions behind both, and `Races` and `JoinRace` are concrete runs
in which the rules break. `Answers` says of each request when it succeeds, what it leaves and what
its errors mean, in the columns' own terms, and `Prospects` what users can still bring about.
`Store` is the database as an object with the seven methods.

**Mail.** `EmailQueue` is the Redis list with its producers and its one worker, `EmailBounds`
counts and times what happens on it, `EmailShutdown` is the worker's loop with backoffs, signal and
drain, `EmailWorker` is the worker as an object.

**Codes, tokens, logins.** `Otp` lets any number of senders, verifiers of both flows and password
setters interleave, one Redis command at a time; `OtpStore` has the same flows as uninterrupted
methods. `OtpLimits`, `OtpAlone` and `OtpGuesses` are about the number of guesses at a code,
`OtpTimes` and `SendRaces` about how long keys live and how close together codes are sent, and
`OtpEffects` about what each flow does to every key and that the flows go through.
`Sessions` and `RefreshRaces` are about refresh tokens around a password reset, `LoginThrottle` and
`LoginRaces` about failed logins, in each case one after another and interleaved.

**Arithmetic.** `BillSplit` and `Paging`.

What a transaction is told from outside its locked rows is data: the clock, the generated game
id, and the answers of the two overlap queries (`Env`). What Redis, SMTP or a caller does next is
the next action of a run, and the theorems quantify over all runs. All initial states are
arbitrary seeded courts and slots with nothing booked and no games, which is `Tables.Initial`.

## Where the code and its documentation disagree

- `docs/p1-game-service.md:374` says nobody is in two games that overlap. `create_game` asks no
  overlap query, so this is false of the code: `Races.DocumentedRuleFails` is a run of five calls.
  Interleaved joins break it too, since each asks its query before the other commits:
  `JoinRace.InterleavedJoinsMayOverlap`. `OverlapRule.DocumentedRuleHoldsIff` says exactly which
  runs keep the rule, `UserOverlap.CreateKeepsTheRuleIff` and `UserOverlap.OthersKeepTheRule`
  which transactions do that run alone, and `TakingTurns.OverlappingGamesOneCreated` what is true
  instead.
- `docs/p1-auth-service.md:188` allows three guesses per code. The counter belongs to the email
  and a mismatch stores the code again for a full lifetime, so there is no such limit. A verifier
  that holds a code while a send resets the counter puts the old code back over the new one, and
  sends that checked the rate key together reset it one after another:
  `OtpLimits.OneCodeWithoutLimit` compares one code any number of times. What holds of every
  interleaving is `OtpLimits.GuessesPerCode`: the limit per reset of the counter while the code is
  about. With requests one after another the code still outlives its counter:
  `OtpAlone.GuessesAtOneCode` gives the exact number by the seconds in which the guesses come, and
  `OtpGuesses.TwiceTheLimitIsReached` reaches twice the limit for every configuration.
- `docs/p1-auth-service.md:190` has a code become invalid after the last attempt. It is put back:
  `OtpStore.Store.VerifyOtp`, `OtpStore.VerifyRuns`.
- `server/src/services/auth.rs:474` keeps the reset mark for thirty days, called the largest refresh
  lifetime. The lifetime is a setting with a default of thirty days, and the JWT library accepts a
  token for another 60 seconds: `Sessions.DefaultLifetimeIsAMinuteTooLong`, and
  `Sessions.ResetRevokesIff` for the exact condition on the setting.
- `server/src/services/auth.rs:471` says a reset invalidates all existing tokens. Access tokens are
  never held against the mark: `Sessions.AccessTokensOutliveResetIff`.
- `server/src/jobs/email.rs:124` calls a BRPOP timeout of 0 non-blocking; Redis blocks without end,
  so the drain empties the queue and then waits. `EmailShutdown.DrainReturnsIffPopFails` and
  `EmailWorker.Worker.DrainAsWritten` are the loop as written. That the queue is empty after so
  many turns is true all the same: `EmailWorker.Worker.DrainUntilItWaits`. A signal during a backoff ends the worker without any drain: `EmailShutdown.SignalDrainsIff`.
- `game_exists_for_slot_tx` ignores cancelled games, the unique index on `games(court_slot_id)` does
  not. The index decides: `SlotHistory.CreateAfterCancelHitsTheIndex`.

## Model

| member | source | states |
|---|---|---|
| Serialisable.InterleavingsAreSerial | server/src/services/game.rs:78-336 | Under every interleaving of the seven transactions, rollbacks included, the committed tables are those of a serial run of the committed requests in commit order, none of them refused |
| Serialisable.EstablishedSurvives | server/src/services/game.rs:83-118 | What a transaction has read, before its lock or under it, still holds of the committed rows after any change that spares its locks and the columns nobody writes |
| Serialisable.CommitUndisturbs | server/src/db/games.rs:244-259 | A commit changes nothing another transaction has locked, is inserting or relies on from a read before its lock |
| Serialisable.CommitIsSerial | server/src/services/game.rs:120-140 | The buffered writes of a transaction about to commit are the outcome of the atomic transaction on the rows committed by then |
| SoloRuns.SoloRunIsAtomic | server/src/services/court.rs:92-119 | A transaction nobody interrupts runs statement by statement to its end, commits exactly when the atomic one succeeds, with the same tables, and otherwise leaves them alone |
| SoloRuns.StaysOnTrack | server/src/services/game.rs:183-225 | Each single statement of an uninterrupted transaction fails with the very error of the atomic one, commits the atomic tables, or goes on |
| SoloRuns.SerialRunsAreInterleavings | server/src/services/game.rs:78-336 | Every serial run of atomic transactions, refused ones included, is reached by some interleaving: the converse of InterleavingsAreSerial |
| Refusals.RefusalsAreAtomic | server/src/services/game.rs:84-118 | Every error a pending transaction returns is the one the atomic transaction returns on the tables committed at some moment since it began; a generated id shared with another pending create is the one exception |
| Refusals.FailsAtomically | server/src/services/court.rs:94-153 | Except for the sport check of `create_game` that moment is the failure itself |
| Guarantees.ReachableIsSound | server/src/services/game.rs:78-336 | In every reachable state the committed tables obey all rules, follow from the log, every pending transaction's reads still hold, and no two hold a lock or id in common |
| Guarantees.ActiveGameHoldsItsSlot | server/src/services/court.rs:147-153 | In every reachable state the slot of an open, full or running game is booked by the game's creator |
| Guarantees.CancelGameFreesItsCallersSlot | server/src/services/game.rs:270-298 | From the lock on the game to the commit, the slot `cancel_game` is about to free is booked by its caller, although nothing re-checks it |
| Guarantees.CapacityMatchesStatus | server/src/services/game.rs:189-222 | In every reachable state the number of players agrees with the status, cancelled games and only they are empty, and the creator plays in every other game |
| Guarantees.ActiveGamesOnACourtAreDisjoint | server/migrations/20260501000001_fix_constraints.sql:24-29 | Two active games on one court never overlap in time |
| Guarantees.ProgressIsOneWay | server/src/services/game.rs:320-330 | Whatever runs later, no game goes from running back to open or full, and a completed or cancelled one keeps its status and its players |
| SlotHistory.SlotHistoryAlternates | server/src/services/court.rs:96-116 | Over any run the commits on a slot are book, release, book, release, …; each release, by either way, is by the user of the booking before it; the row names the last booker exactly while booked |
| SlotHistory.OneGamePerSlotEver | server/migrations/20260501000000_game_constraints.sql:2 | At most one game is ever created on a slot, even after it was cancelled and the slot booked again |
| SlotHistory.CreateAfterCancelHitsTheIndex | server/src/db/games.rs:287-297 | A booker's valid create succeeds if and only if the slot never had a game, and hits the index if and only if all it had are cancelled |
| GameHistory.LifeOfAGame | server/src/services/game.rs:320-330 | Over any run a game's commits are opened; then started; then ended; or called off before its end; its row says how far it has come; nothing is skipped, repeated or follows the end |
| GameHistory.PlayersAreWhoCameAndStayed | server/src/db/games.rs:365-424 | Over any run a game's players are exactly those who opened or joined it and have not left since, unless it was called off; joins and leaves of one user alternate |
| Roles.CommitsRespectRoles | server/src/services/game.rs:275-279 | Seen from any later state: bookings and their cancellations were before the slot's start, only creators cancelled or moved games on, they neither joined nor left them, and created games kept their slot, creator, sport and size |
| Roles.GameSportIsCourtSport | server/src/services/game.rs:99-106 | In every reachable state a game is of its court's sport |
| Deadlock.NoDeadlock | server/src/services/game.rs:270-298 | While transactions are pending in a reachable state, one of them can run |
| Deadlock.WaitChainsAreShort | server/src/services/court.rs:94-131 | Only a `cancel_game` both waits and is waited for, and what it waits for holds a slot and can run |
| Deadlock.InsertNeverWaits | server/src/services/game.rs:120-136 | An insert into `games` never waits at the unique index: a competing writer would hold the slot's lock or have been found by the query |
| Deadlock.RunningMakesProgress | server/src/services/game.rs:183-225 | Every statement that runs brings the pending work strictly down |
| Deadlock.EveryoneCanFinish | server/src/db/courts.rs:161-178 | From every reachable state all pending transactions can run to their own commit or error without any timeout or abort |
| Invariants.SerialKeepsGood | server/src/services/game.rs:78-336 | Each atomic transaction keeps the constraints, the agreement of status and booker, the capacity rule, the sport and the booking by the creator |
| Answers.BookAnswers | server/src/services/court.rs:92-118 | A booking alone succeeds if and only if the slot is on that court, available and not begun, and the caller holds no other slot during it; the tables then differ in that row's status and booker |
| Answers.CancelBookingAnswers | server/src/services/court.rs:129-158 | A cancellation alone succeeds if and only if the slot is on that court, booked by the caller and not begun, and every game there has been is completed or cancelled; the row is then available and nobody's |
| Answers.CreateAnswers | server/src/services/game.rs:83-140 | On a good state a create succeeds if and only if the caller has booked the slot, the court is of the sport, the size as a 16-bit number is 2 to 30 and the slot never had a game; the game is then open with its creator as only player |
| Answers.JoinAnswers | server/src/services/game.rs:183-225 | On a good state a join succeeds if and only if the game is open, the user is not in it and in no other open, full or running game during it; the last place makes it full |
| Answers.LeaveAnswers | server/src/services/game.rs:232-267 | On a good state leaving succeeds if and only if the user is in the game, did not create it, and it is neither completed nor cancelled; a full game opens again |
| Answers.CancelGameAnswers | server/src/services/game.rs:270-301 | On a good state calling off succeeds if and only if the caller created the game and it is open, full or running; players, slot and status are then as stated |
| Answers.SetStatusAnswers | server/src/services/game.rs:304-336 | A status change succeeds if and only if the creator starts an open or full game or completes a running one; only that status differs then |
| Answers.ErrorsNameTheirCause | server/src/services/court.rs:96-153 | On a good state what any of the seven errors says is so, in the columns' own terms |
| Prospects.QuietRun | server/src/services/game.rs:310-335 | From any good state with nothing under way a request can be run to its end with the atomic answer |
| Prospects.CreatorCanStart | server/src/services/game.rs:320-334 | From every reachable state with nothing under way the creator of an open or full game can start it, changing nothing else |
| Prospects.CreatorCanComplete | server/src/services/game.rs:320-334 | And complete a running one |
| Prospects.RebookedSlotCanBeReleased | server/src/db/games.rs:331-341 | From every such state a slot booked again after its game was cancelled can be released by its booker until it begins |
| Store.Database.constructor | server/migrations/20260430000001_initial.sql:62-109 | Seeded tables without bookings and games are a fair state |
| Store.Database.BookSlot | server/src/services/court.rs:85-120 | Result and tables are those of the atomic booking; an error leaves the tables alone; fairness is kept; the exact condition for success in the columns' own terms |
| Store.Database.CancelBooking | server/src/services/court.rs:123-160 | The same of releasing a booking, and the exact condition for it in the columns' own terms |
| Store.Database.CreateGame | server/src/services/game.rs:78-156 | The same of opening a game, whose only player is the creator |
| Store.Database.JoinGame | server/src/services/game.rs:178-228 | The same of joining |
| Store.Database.LeaveGame | server/src/services/game.rs:232-267 | The same of leaving |
| Store.Database.CancelGame | server/src/services/game.rs:270-301 | The same of calling a game off, which frees a slot booked by the caller |
| Store.Database.UpdateStatus | server/src/services/game.rs:304-336 | The same of moving a game's status on, and the exact condition for it in the columns' own terms |
| UserOverlap.AloneKeepsFair | server/src/services/court.rs:104-116 | An atomic transaction whose overlap query is answered on its own tables keeps everyone's bookings apart and every overlapping pair of games partly their own |
| TakingTurns.StepKeepsBookingsApartIff | server/src/services/court.rs:104-118 | One step of the interleaved system gives somebody overlapping bookings if and only if it commits a booking whose query, asked again now, would find one |
| TakingTurns.BookingsNeverOverlapIff | server/src/db/courts.rs:200-225 | Over a whole interleaving bookings of one user never overlap if and only if there is no such commit |
| TakingTurns.StepKeepsJoinedApartIff | server/src/services/game.rs:206-225 | The same for two joined games: only the commit of a join whose user has meanwhile joined an overlapping game; a create is excused by its creator |
| TakingTurns.JoinsNeverOverlapIff | server/src/db/games.rs:301-328 | Over a whole interleaving joined games of one user never overlap if and only if there is no such commit |
| TakingTurns.UserBookingsNeverOverlap | server/src/services/court.rs:104-116 | In every interleaving in which no user has two bookings under way at once, no user holds two overlapping bookings |
| TakingTurns.OverlappingGamesOneCreated | server/src/services/game.rs:206-217 | In every interleaving in which no user has two bookings or two joins under way at once, a user in two overlapping active games created exactly one of them |
| TakingTurns.AtMostTwoGamesAtOnce | server/src/db/games.rs:301-328 | In the same interleavings a user is at any instant in at most one active game they created and one they joined |
| UserOverlap.CreateKeepsTheRuleIff | server/src/services/game.rs:120-138 | A create, whatever was checked before, keeps the documented rule on the tables it commits on if and only if the query `join_game` makes would find nothing in them |
| UserOverlap.OthersKeepTheRule | server/src/services/game.rs:206-217 | The six other transactions, run alone, keep the documented rule |
| OverlapRule.StepKeepsTheRuleIff | docs/p1-game-service.md:374 | One step of the interleaved system breaks the documented rule if and only if it commits a create or join for which the overlap query, asked on the tables committed by now, finds something |
| OverlapRule.DocumentedRuleHoldsIff | server/src/db/games.rs:301-328 | Over a whole interleaving the documented rule always holds if and only if there is no such commit |
| Races.DocumentedRuleFails | docs/p1-game-service.md:374 | Five calls after which a user plays in two overlapping games |
| Races.InterleavedBookingsMayOverlap | server/src/services/court.rs:104-116 | An interleaving after which a user holds two overlapping bookings; TakingTurns.StepKeepsBookingsApartIff is the exact condition |
| JoinRace.InterleavedJoinsMayOverlap | server/src/services/game.rs:206-225 | An interleaving after which a user has joined two overlapping games of others |
| EmailQueue.FirstInFirstOut | server/src/jobs/email.rs:253-264 | Until a shutdown puts a letter back, finished ++ in hand ++ queue is the enqueue sequence up to retry counts, whatever fails |
| EmailQueue.NothingLostOrDoubled | server/src/jobs/email.rs:172-183 | Over any run, shutdown included, every letter enqueued is in exactly one place and is otherwise unchanged |
| EmailQueue.PutBackMeans | server/src/jobs/email.rs:172-183 | Exactly after the signal, and exactly a letter not being drained, is put back, at the end popped last |
| EmailBounds.AtMostFourSends | server/src/jobs/email.rs:233-266 | Every letter goes to SMTP at most four times, and an unfinished one's retry count is how often it went |
| EmailBounds.DeadLettersWereRefusedFourTimes | server/src/jobs/email.rs:198-251 | `email:dead` is exactly, in order, the finished letters refused four times and the text that was no letter; every other letter was delivered or could not be built, all other text was empty and never sent |
| EmailBounds.BackoffAfterFailures | server/src/jobs/email.rs:78-96 | After k errors in a row the backoff is min(5 * 2^(k-1), 60) |
| EmailBounds.WhatCountsAsFailure | server/src/jobs/email.rs:78-85 | A failing pop, a letter that cannot be built and one refused for the first three times lengthen the run of errors; everything else ends it, and the drain leaves it alone |
| EmailBounds.SettlingMeans | server/src/jobs/email.rs:214-271 | What becomes of a letter by how its delivery went: delivered, dropped, back to the end popped next with one more retry, or dead after three retries |
| EmailBounds.SettlingTextMeans | server/src/jobs/email.rs:198-212 | Text that is no letter goes to the dead letters as it came, empty text is dropped by the loop |
| EmailBounds.BackoffTracksRetry | server/src/jobs/email.rs:59-96 | If only SMTP fails, the backoff is that of the next letter's retry count, 5 * 2^(r-1) or 0, and so at most 20 |
| EmailBounds.DrainTurnShrinks | server/src/jobs/email.rs:70-72 | Each turn of the drain brings the weight of the queue strictly down and keeps the line of letters |
| EmailShutdown.WorkerHandlesNext | server/src/jobs/email.rs:65-98 | With nothing in the way four steps of the worker pop and settle the next letter, and a backoff follows exactly on a refusal or a letter that cannot be built |
| EmailShutdown.SignalMeans | server/src/jobs/email.rs:66-70 | The signal is recorded whatever the worker does, and at the top of the loop leads into the drain |
| EmailShutdown.DrainReturnsIffPopFails | server/src/jobs/email.rs:70-74 | The drain as written returns if and only if a pop fails, whatever is pushed meanwhile; an empty queue does not end it |
| EmailShutdown.DrainEmptiesThenWaits | server/src/jobs/email.rs:70-72 | Undisturbed it has finished every letter in line order after at most the queue's weight of turns, and then waits |
| EmailShutdown.LateLetterIsTaken | server/src/jobs/email.rs:125-142 | A letter pushed while it waits is finished within four turns |
| EmailShutdown.SignalDrainsIff | server/src/jobs/email.rs:66-96 | In every reachable state after the signal, three steps of the worker lead to the drain if and only if it is neither waiting out a backoff nor about to begin one because its pop or its letter fails, or timer and signal are both there and the timer is picked; else it has returned, with the queue as that last attempt left it |
| EmailShutdown.RunIsQueueRun | server/src/jobs/email.rs:54-99 | Every run of the worker's loop is a run of the queue, so what is proved of those holds of it |
| EmailShutdown.WorkerLosesNothing | server/src/jobs/email.rs:172-183 | No run of the worker, shutdown and backoffs included, loses or doubles a letter |
| EmailWorker.Worker.EnqueueEmail | server/src/jobs/email.rs:28-50 | A fresh letter is added at the far end |
| EmailWorker.Worker.SignalShutdown | server/src/main.rs:88-118 | The signal reaches the worker whatever it is doing, and changes nothing else |
| EmailWorker.Worker.Dequeue | server/src/jobs/email.rs:125-142 | The right end of the list comes out, if there is one |
| EmailWorker.Worker.ProcessOne | server/src/jobs/email.rs:189-271 | Processing leaves lists and history as the state machine's step does and says whether the worker loop counts it as a success |
| EmailWorker.Worker.HandlePopped | server/src/jobs/email.rs:168-186 | A popped element is dropped when empty, put back on the signal, and else processed; the result decides about the backoff |
| EmailWorker.Worker.Turn | server/src/jobs/email.rs:145-186 | One turn of the worker loop, a failing pop and the new backoff included, is one of four short runs of the state machine |
| EmailWorker.Worker.DrainAsWritten | server/src/jobs/email.rs:70-72 | The drain as written follows the worker's state machine through any sequence of pushes, turns and failing pops, and returns exactly at the first failing pop |
| EmailWorker.Worker.DrainUntilItWaits | server/src/jobs/email.rs:70-72 | Up to the pop that finds nothing the drain takes at most the queue's weight of turns; the queue is then empty and everything finished in line order |
| Otp.CodeIsInOnePlace | server/src/services/auth.rs:78-121 | Over all interleavings an issued code is in the key, with one request, or matched, never in two places, and is matched at most once across both flows |
| Otp.UpdatesBoundedByCodes | server/src/services/auth.rs:455-469 | Password updates are distinct reset tokens, these are distinct matched codes, these distinct issued codes; so their numbers are in that order |
| Otp.GuessesAreBounded | server/src/services/auth.rs:96-109 | At most `max_attempts` comparisons, of whatever codes, between resets of the counter by any number of verifiers; since the last send, without a success, at most that many while the counter lives and twice that afterwards |
| OtpLimits.GuessesPerCode | server/src/services/auth.rs:96-121 | From any reachable state over any interleaving, one code is compared at most `max_attempts` times per reset of the counter while it is about, and so many times once more; one more than `max_attempts` takes a reset in between |
| OtpLimits.OneCodeWithoutLimit | server/src/services/auth.rs:28-53 | For every configuration, whatever its TTL and its positive limit, and every n, an interleaving within one second that compares one code exactly n times, with nobody dying, no counter expired and no guess right |
| OtpAlone.GuessesAtOneCode | server/src/services/auth.rs:101-121 | With requests one after another, of the attempts that find a code within a TTL of its send the first `max_attempts` are compared, and as many of the later ones; the limit is exceeded if and only if there are some of both and more than `max_attempts` in all |
| OtpAlone.AttemptsRun | server/src/services/auth.rs:63-126 | Such attempts are a run of the interleaved model |
| OtpTimes.KeysRunOut | server/src/services/auth.rs:433-435 | Left alone from any reachable state, reset tokens are gone after a TTL and the code after a TTL or 30 seconds, whichever is longer, and the counter stays if and only if INCR created it |
| OtpTimes.AMinuteBetweenSends | server/src/services/auth.rs:28-53 | For 60 seconds after a send stored its rate key every send that checks it is turned away, whatever else happens |
| SendRaces.TwoSendsAtOnce | server/src/services/auth.rs:28-53 | Two sends that both check before either has stored the rate key both send, in one second |
| SendRaces.CloseCodesPassedTogether | server/src/services/auth.rs:28-53 | In every interleaving, if two codes are stored less than a minute apart, the second send passed its check before the first had stored its rate key, or the first died without; nobody stored a rate key from the first code to that check |
| SendRaces.SendsInTurnAreSpaced | server/src/services/auth.rs:28-53 | If no two sends are under way together and none dies on the way, codes are stored at least a minute apart, whatever else interleaves |
| OtpGuesses.TwiceTheLimitIsReached | server/src/services/auth.rs:111-121 | For every configuration a run compares one and the same code with twice the allowed number of guesses |
| OtpEffects.SendMeans | server/src/services/auth.rs:28-53 | What a send leaves in every key, and that it does nothing while the rate key lives |
| OtpEffects.VerifyWithoutCodeMeans | server/src/services/auth.rs:86-93 | Without a code a verification only counts |
| OtpEffects.VerifyRefusedMeans | server/src/services/auth.rs:101-121 | Over the limit or with other digits it counts, and the same code is good for the larger of the TTL and 30 seconds |
| OtpEffects.VerifyMatchedMeans | server/src/services/auth.rs:419-435 | On a match code and counter go; for a reset with an account a token is stored for the TTL beside the others |
| OtpEffects.SetPasswordMeans | server/src/services/auth.rs:455-469 | With a live token the password is updated and the token gone, without one nothing happens |
| OtpEffects.ResetGoesThrough | server/src/services/auth.rs:370-469 | In the interleaved model: a send, a reset verification with its digits and, within the TTL, a new password with the token that came of it update the password |
| OtpEffects.LoginGoesThrough | server/src/services/auth.rs:20-126 | A send and within the TTL a login with its digits match the code |
| OtpEffects.GrantedTokenWaits | server/src/services/auth.rs:433-460 | Under every interleaving a granted token is in its key until somebody takes it or its TTL ends, and who takes it goes on to the update |
| OtpEffects.TakenTokenUpdates | server/src/services/auth.rs:467-469 | Which adds exactly that token to the updates |
| OtpStore.SendRuns | server/src/services/auth.rs:20-61 | Undisturbed, the commands of a send amount to one update of the three keys, or to nothing within the minute |
| OtpStore.VerifyRuns | server/src/services/auth.rs:63-126 | Undisturbed, the commands of a verify in either flow amount to the update for its case: no code, over the limit, mismatch, match |
| OtpStore.UnknownVerifyRuns | server/src/services/auth.rs:423-426 | The same for an email without an account: the code is used up and no token is granted |
| OtpStore.SetPasswordRuns | server/src/services/auth.rs:442-469 | Undisturbed, setting a password consumes the token and updates once, or does nothing |
| OtpStore.Store.constructor | server/src/services/auth.rs:26-41 | No keys at first |
| OtpStore.Store.SendOtp | server/src/services/auth.rs:20-61 | Sends exactly when no rate key is live, and then stores a new code, a counter of 0 and the rate key for a minute |
| OtpStore.Store.VerifyOtp | server/src/services/auth.rs:63-129 | Succeeds if and only if there is a code, the count is within the limit, the digits are equal and the email has an account; a match uses the code up in any case, anything else puts the same code back for at least 30 seconds |
| OtpStore.Store.VerifyResetOtp | server/src/services/auth.rs:370-440 | Grants a reset token exactly on a match for an email with an account; it is then stored for the TTL beside the others; the match uses the code up in any case |
| OtpStore.Store.SetNewPassword | server/src/services/auth.rs:442-469 | Succeeds exactly with a live token, which is then gone and the password updated with it once; otherwise nothing changes |
| Sessions.SessionStore.CheckRefresh | server/src/services/auth.rs:158-188 | Lets pass exactly a refresh token that ran out no more than 60 seconds ago and is not older than a live mark of its user |
| Sessions.SessionStore.Mint | server/src/extractors/auth.rs:128-170 | The pair handed out is of that user and second, with the configured lifetimes |
| Sessions.SessionStore.RefreshToken | server/src/services/auth.rs:143-204 | With nothing in between, new tokens of the same user, stamped when minted, exactly when the old one passes and the account is still there; the new refresh token is one that no mark up to its own second refuses |
| Sessions.RenewedIs | server/src/services/auth.rs:190-204 | Through any chain of refreshes the last token is of the first one's user, stamped with its own second |
| Sessions.ResetRefusesOwnRenewalsOnly | server/src/services/auth.rs:176-188 | While its mark lives a reset refuses, of the older tokens that would else pass, exactly those that come of that user's, through any chain of refreshes |
| Sessions.KindsStayApart | server/src/extractors/auth.rs:114-119 | Access tokens do not refresh and refresh tokens do not admit; an access token admits until 60 seconds after it runs out |
| Sessions.RefreshSurvivesResetIff | server/src/services/auth.rs:176-197 | With a reset in between, a refresh from an older token leads to one the reset lets through if and only if the mark was read before it was stored and the new token is not older than the reset's second |
| RefreshRaces.RevokedParentWasReadFirst | server/src/services/auth.rs:176-197 | If lifetime plus leeway fit into thirty days and resets are stored in the order of their seconds: over all interleavings, a token minted from one older than a reset comes of a refresh that read the mark before that reset was stored |
| RefreshRaces.MintedAfterReset | server/src/services/auth.rs:471-476 | An interleaving within one second that mints from a revoked token, after the reset, one that is good for its whole life |
| RefreshRaces.CheckMeans | server/src/services/auth.rs:158-188 | The exact condition, in seconds, for a token to pass the check at any moment of an interleaving |
| Sessions.ResetRevokesIff | server/src/services/auth.rs:471-476 | A reset keeps out all earlier tokens at all later times if and only if lifetime plus leeway fit into thirty days |
| Sessions.AccessTokensOutliveResetIff | server/src/extractors/auth.rs:98-120 | A reset ends no access token: from a second on none issued before the reset is admitted if and only if the lifetime and the leeway of the last of them are over |
| Sessions.DefaultLifetimeIsAMinuteTooLong | server/src/config/settings.rs:176-183 | With the default of 30 days a revoked token is accepted again in the last minute; 29 days suffice |
| Sessions.ResetsRevokeForGood | server/src/services/auth.rs:184-188 | If refresh lifetime plus leeway fit into thirty days: after any number of resets in order, no token older than any of them is accepted again |
| Sessions.OvertakingResetReadmitsIff | server/src/services/auth.rs:472-476 | If lifetime plus leeway fit into thirty days: of two resets whose stores overtake each other, the second readmits a revoked token exactly when it carries the older second and such a token still lives |
| LoginThrottle.VerdictMeans | server/src/services/auth.rs:298-331 | Five live failures refuse, else account and password decide; what each verdict leaves of the counter |
| LoginThrottle.Throttle.Login | server/src/services/auth.rs:289-331 | Refuses exactly on five live failures; a failure renews the window, a success ends it, and nothing else touches the counter |
| LoginThrottle.SixFailuresTakeAWindow | server/src/services/auth.rs:297-331 | Of any six failed password checks without a success between, two neighbours are at least 300 seconds apart |
| LoginRaces.AnyNumberFailsAtOnce | server/src/services/auth.rs:300-325 | Any number of checks can fail in one second if all read the counter before one stores it; it then says one |
| LoginRaces.SixFailuresInTurnTakeAWindow | server/src/services/auth.rs:297-331 | If no two logins of an email are under way together, however long each takes, of any six failures without a success two neighbours are at least 300 seconds apart |
| LoginRaces.AskedAndAnswered | server/src/services/auth.rs:300-331 | A login asked and answered at once is the call of the serial model |
| BillSplit.SplitAnswers | server/src/services/bill_split.rs:46-52 | A split fails exactly without players or for a negative total, and says which |
| BillSplit.SplitIsExact | server/src/services/bill_split.rs:46-60 | For a positive price and 1 to 30 players with the creator among them, the shares sum to the price and the creator's extra is below the number of players |
| BillSplit.ReachableGamesSplit | server/src/services/bill_split.rs:15-36 | In every reachable state the price of every game not cancelled can be split, exactly, with an extra of at most 29 |
| BillSplit.JoiningNeverRaisesPerPlayer | server/src/services/game.rs:219-225 | A join never raises `per_player`, which everyone but the creator pays |
| BillSplit.JoinRaisesCreatorsShareIff | server/src/services/bill_split.rs:15-29 | A join to a game of n players raises what its creator pays, remainder included, if and only if (q - q') * n > q for the quotients before and after |
| BillSplit.CreatorMayPayMore | server/src/services/bill_split.rs:53-59 | It happens: 11 VND over 5 and 6 players, where the creator's payment goes from 3 to 6; 59 VND over 29 and 30, from 3 to 30 |
| Paging.PageIsExactSlice | server/src/models/court.rs:75-88 | Clamping and saturation show nowhere: a page is the slice exact arithmetic gives |
| Paging.ClampsMean | server/src/models/court.rs:81-87 | Page 1 and 20 rows by default, no page below 1, between 1 and 50 rows |
| Paging.PagesTile | server/src/services/game.rs:33-65 | Pages 1, 2, … put together are the whole list |
| Paging.PageIsEmptyIff | server/src/models/court.rs:76-79 | A page is empty if and only if it begins past the end, also where the offset saturates |
| Paging.ListedIff | server/src/db/games.rs:45-50 | A game is listed if and only if it has the status asked for, or is open or full when none is, and agrees with each of sport, day and radius that is given |
| Paging.StatusListsPartition | server/src/db/games.rs:45-50 | The list without a status is those of the open and of the full games, and of the five status lists exactly that of its status has a game |
| Paging.ListRowsInOrder | server/src/db/games.rs:51-52 | Rows come in the order of the table |
| Paging.TotalCountsTheList | server/src/db/games.rs:117-140 | The count, which joins fewer tables, counts exactly the listed games |
| Paging.PagesShowTotal | server/src/services/game.rs:66-71 | Paging through a game list shows `total` rows, the listed games in order |

## Left out

- Payments, webhooks, `BillSplitService::calculate` and lobby broadcast are stubs without behaviour.
- HTTP routes, extractors, request validation, error mapping, configuration loading, S3, SMTP and
  tracing are plumbing. `max_players` therefore arrives as any integer, as `create_game` takes it.
- Hashing, token signing, random codes and constant-time comparison: a code's digits are the
  caller's choice, reset tokens are named by the code they were granted for, JWTs are their claims.
- The great-circle distance: queries within a radius are told the set of courts within it.
- User deletion, court creation and slot seeding: no service does them. The `Locked` slot status is
  in the datatype only, since nothing sets it.
- Lost replies of Redis or PostgreSQL. Rollbacks and requests that die between two Redis commands
  are in; a command that took effect and reported an error is not.
- The locks foreign keys take on referenced rows: the transaction holds the game row itself, and
  nothing locks users or courts. Two generated ids that coincide make the later insert fail at once.
- Paging.PagesTile: for a list that does not change between pages and whose order is fixed; the
  queries leave rows with equal `created_at` or distance in any order.
- Otp: one email address; keys of different addresses never meet. The counter does not overflow.
- EmailQueue: a letter is what its JSON says, and pushes to Redis succeed.
- RefreshRaces: one user; marks of different users never meet.
- Store.Database: overlap and existence queries are evaluated as predicates, not as table scans.
- Registration, profiles, `get_game`, court details and slot lists only read or write single rows.
