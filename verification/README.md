# Channel server: a Dafny model

The channel server of an online game moves players over platforms, lets them trade, buy and sell,
keeps one session per connection, and saves what changed. This project models its state machines
and protocols and proves what they promise over whole runs: for every input, every order of
operations, every interleaving of threads.

The modules follow the program:

- `MovementPhysics`, `MovementSteps`, `MovementRuns`, `MovementTheorems`: platform physics, one step
  and all runs.
- `TradeRows`, `TradeValidation`, `TradeSettlement`, `TradeOutcome`, `TradeSessions`, `TradeRuns`,
  `TradeSteps`: the trade from upload to committed rows, and who agreed to it.
- `ChannelSessions`, `ChannelAuth`, `ChannelSteps`, `ChannelServer`: session lifetime, identity and
  authentication.
- `StartStop`: the race of starting and stopping the server.
- `Framing`, `SendQueue`: packets over a byte stream, and the sending side with its write event.
- `SaveVersion`: saving a player who goes on changing.
- `Inventory`, `InventoryManager`, `Shop`: slots, all-or-nothing adds, gold.
- `MoveBudget`, `Collision`, `Scheduling`: movement validation, collision tests, worker queues.
- `Common`, `RealFacts`, `Plane`: small shared vocabulary and arithmetic.

An object whose methods update its fields is a class, and each method is proved against a function
of the old state; the theorems are about those functions, and say in the numbers of the game what
each of them does. A concurrent protocol is a state with events, one event for each critical section
or atomic operation, and a run is any sequence of events by any number of threads, so an invariant
of all runs covers every interleaving.

Positions, speeds and times are exact reals. Database rows are a map from primary key to row.

## Model

| member | source | states |
|---|---|---|
| MovementPhysics.LoadMap | SERVER/src/CHANNEL/util/MovementMapLoader.h:9-50 | The loader accepts a map exactly when its bounds, platforms, safe point and climbables pass every check and ids are unique; anything else is its exception |
| MovementPhysics.LoadPlatforms | SERVER/src/CHANNEL/util/MovementMapLoader.h:22-29 | The platform loop with its set of seen ids accepts exactly the lists whose entries are valid and whose ids are pairwise distinct |
| MovementPhysics.LoadClimbables | SERVER/src/CHANNEL/util/MovementMapLoader.h:32-48 | The same for climbables, each hanging from an existing platform within the tolerance |
| MovementPhysics.Support | SERVER/src/CHANNEL/util/MovementPhysics.h:69-73 | A platform is found exactly when some platform covers x with feet within the tolerance |
| MovementPhysics.FirstReach | SERVER/src/CHANNEL/util/MovementPhysics.h:108-122 | A climbable is grabbed exactly when some climbable is within reach of the feet |
| MovementPhysics.EarliestHit | SERVER/src/CHANNEL/util/MovementPhysics.h:184-194 | The hit is a crossed platform with the least crossing time, and there is none only if nothing is crossed |
| MovementPhysics.Sweep | SERVER/src/CHANNEL/util/MovementPhysics.h:184-194 | The sweep loop finds that hit |
| MovementPhysics.Mover.PlaceFeet | SERVER/src/CHANNEL/util/MovementPhysics.h:84-91 | Placing by the feet resets motion and stands on a supporting platform if there is one |
| MovementPhysics.Mover.Fall | SERVER/src/CHANNEL/util/MovementPhysics.h:180-209 | Gravity, sweep and landing in place compute the specified fall |
| MovementPhysics.Mover.Move | SERVER/src/CHANNEL/util/MovementPhysics.h:159-209 | Jump, walk or fall in place compute the specified move |
| MovementPhysics.Mover.Climb | SERVER/src/CHANNEL/util/MovementPhysics.h:134-156 | Climbing in place, and stepping off either end, compute the specified climb |
| MovementPhysics.Mover.StepBy | SERVER/src/CHANNEL/util/MovementPhysics.h:98-209 | A whole step in place, with its branches and loops, is the step that the theorems below are about |
| MovementRuns.PlacedIsWellFormed | SERVER/src/CHANNEL/util/MovementPhysics.h:84-91 | Setting a body down at any x within bounds gives a well-formed body with its feet where asked |
| MovementRuns.PlacedAtRest | SERVER/src/CHANNEL/util/MovementPhysics.h:75-91 | A body set down is at rest at the x and feet asked for, with its timer cleared, and stands exactly if a platform supports it |
| MovementRuns.AtOriginIsWellFormed | SERVER/src/CHANNEL/util/MovementPhysics.h:94-96 | Set down where it is, a body keeps its position and stands exactly if some platform supports it |
| MovementRuns.StepKeepsWellFormed | SERVER/src/CHANNEL/util/MovementPhysics.h:98-209 | Every step keeps a body well formed: ids and mode agree, Grounded stands on its platform at rest, Climbing is on its climbable, Rising iff airborne with vy < 0, x and vy in range; the foot offset never changes |
| MovementRuns.RunKeepsWellFormed | SERVER/src/CHANNEL/util/MovementPhysics.h:98-209 | So does every run, for all inputs, speeds and step lengths |
| MovementTheorems.StepSweeps | SERVER/src/CHANNEL/util/MovementPhysics.h:98-209 | A step that gets to the sweep is the fall of one determined body from the same x and feet, and any other step lands nowhere and falls nowhere |
| MovementTheorems.SweepStarts | SERVER/src/CHANNEL/util/MovementPhysics.h:105-178 | Exactly which steps of a well-formed body sweep, and at what vertical speed: airborne without a grab, a jump, a let-go, a walk off the platform |
| MovementTheorems.RunStaysSafe | SERVER/src/CHANNEL/util/MovementPhysics.h:98-209 | On a map with a floor no run falls out whose steps are each long or short enough for a jump to clear the kill line |
| MovementTheorems.LowKillLineCatches | SERVER/src/CHANNEL/util/MovementPhysics.h:207-209 | With a step length that does not clear, one jump of a body set down as low as it can stand reports falling out |
| MovementTheorems.NeverFallsOutIff | SERVER/src/CHANNEL/util/MovementPhysics.h:98-209 | Over runs of arbitrary step lengths, never falling out holds if and only if the kill line is at least the tolerance below the floor |
| MovementTheorems.FixedStepNeverFallsOutIff | SERVER/src/CHANNEL/util/MovementPhysics.h:98-209 | Over runs of one step length, it holds for every body set down if and only if the first step of a jump comes down or clears the kill line |
| MovementTheorems.ServerNeverFallsOut | SERVER/src/CHANNEL/map/MapInstance.cpp:96-102 | At the server's step of 1/60 s nobody set down ever falls out of a map with a floor, whatever the kill line the loader accepts |
| MovementTheorems.CrossesIffMeets | SERVER/src/CHANNEL/util/MovementPhysics.h:189-193 | The clamped-quotient test is true exactly when the straight path of the foot meets the platform, or the platform is above the old feet by at most the tolerance and covers the old x |
| MovementTheorems.FallNeverTunnels | SERVER/src/CHANNEL/util/MovementPhysics.h:180-206 | A fall of any body in any step length lands exactly when it descends and crosses something, on a platform crossed earliest, and ends below none its foot met |
| MovementTheorems.NoTunnelling | SERVER/src/CHANNEL/util/MovementPhysics.h:98-209 | The same for every step of every body, airborne, jumping, letting go, unsupported or walking off; all other steps land nowhere |
| MovementTheorems.ApexNeverRises | SERVER/src/CHANNEL/util/MovementPhysics.h:180-181 | The update order lets no step raise feet - vy^2 / 2g |
| MovementTheorems.AloftKeepsApex | SERVER/src/CHANNEL/util/MovementPhysics.h:98-209 | Over any run aloft that apex never rises, whatever is pressed |
| MovementTheorems.JumpLaunches | SERVER/src/CHANNEL/util/MovementPhysics.h:128-133 | A jump from a platform or a climbable leaves with the apex 650^2 / 3600 above its feet |
| MovementTheorems.AirbornePressIgnored | SERVER/src/CHANNEL/util/MovementPhysics.h:159-163 | A jump pressed in the air changes nothing about the fall |
| MovementTheorems.JumpCeiling | SERVER/src/CHANNEL/util/MovementPhysics.h:128-183 | Until landing or grabbing, feet stay at or below 650^2 / 3600 above where the jump began, for any cutting of time |
| MovementSteps.GrabsIff | SERVER/src/CHANNEL/util/MovementPhysics.h:110-126 | A climbable is grabbed exactly when up or down is pressed, jump is not, the timer has run out and one is within reach |
| MovementSteps.StepMovesX | SERVER/src/CHANNEL/util/MovementPhysics.h:164-171 | Off climbables a step moves the way that is pressed at the player's speed for the length of the step, kept within the world |
| MovementSteps.StepMovesY | SERVER/src/CHANNEL/util/MovementPhysics.h:159-208 | A fall gains 1800 a second up to 1000 and moves the feet by the new speed; a landing stops it, standing exactly if the platform is still below; falling out is reported exactly below the kill line |
| MovementSteps.StepWalks | SERVER/src/CHANNEL/util/MovementPhysics.h:168-178 | A step that neither falls nor climbs stays on the platform it stood on, with its feet on it |
| MovementSteps.StepClimbs | SERVER/src/CHANNEL/util/MovementPhysics.h:134-156 | A climbing step moves the feet 180 a second the way that is pressed, between the ends; past the top it ends on the top platform, past the bottom at the bottom |
| MovementSteps.FacingAndTimer | SERVER/src/CHANNEL/util/MovementPhysics.h:101-104 | A step faces the way that is pressed, and sets the grab timer to 0.2 exactly on leaving a climbable, otherwise lets it run down |
| MovementSteps.NoRegrab | SERVER/src/CHANNEL/util/MovementPhysics.h:110-150 | After leaving a climbable no run of less than 0.2 seconds grabs one, whatever is pressed |
| TradeRows.FirstSlotFrom | SERVER/src/CHANNEL/service/TradeService.cpp:718-815 | The first slot holding an item is the least one that does |
| TradeRows.NextSlotUpTo | SERVER/src/CHANNEL/service/TradeService.cpp:949-1027 | The next slot lies just above the highest used one, and is 0 for an empty inventory |
| TradeRows.InventoryDb.TransferAll | SERVER/src/CHANNEL/service/TradeService.cpp:377-399 | One direction of the transaction does what the transfer function says, and stops on a failed statement or a lost connection |
| TradeRows.InventoryDb.Execute | SERVER/src/CHANNEL/service/TradeService.cpp:357-430 | The transaction succeeds exactly when every statement does, the server stays up and the commit is confirmed; a failure leaves every row as it was, unless the commit was stored and only its answer lost |
| TradeValidation.Accumulate | SERVER/src/CHANNEL/service/TradeService.cpp:1152-1199 | The accumulating loop ends with the exact sum offered out of each slot, or has found an item that makes the list invalid |
| TradeValidation.CheckOffered | SERVER/src/CHANNEL/service/TradeService.cpp:1201-1219 | The second loop accepts exactly if the inventory holds every sum |
| TradeValidation.ValidateTradeItems | SERVER/src/CHANNEL/service/TradeService.cpp:1134-1221 | The last check accepts exactly the lists whose offers are sane and whose slots in the player's inventories cover the sums taken out of them |
| TradeSettlement.DecreaseTotal | SERVER/src/CHANNEL/service/TradeService.cpp:613-653 | A decrease lowers exactly one total, by the amount |
| TradeSettlement.IncreaseTotal | SERVER/src/CHANNEL/service/TradeService.cpp:655-716 | An increase, merged or inserted, raises exactly one total, by the amount |
| TradeSettlement.DecreaseEffect | SERVER/src/CHANNEL/service/TradeService.cpp:613-653 | A decrease goes through exactly for a sane offer the row covers; it lowers that row and deletes it exactly when nothing is left |
| TradeSettlement.IncreaseEffect | SERVER/src/CHANNEL/service/TradeService.cpp:655-716 | An increase merges into the first row of the kind, or makes a row above all others of the inventory type |
| TradeSettlement.IncreaseFits | SERVER/src/CHANNEL/service/TradeService.cpp:655-716 | Column room for a list of offers is column room for the first and then for the rest |
| TradeSettlement.TransferTotal | SERVER/src/CHANNEL/service/TradeService.cpp:377-399 | One direction moves exactly the offered amounts and nothing of anyone else |
| TradeSettlement.GiverRows | SERVER/src/CHANNEL/service/TradeService.cpp:377-399 | Every row of the giver loses exactly what was offered out of it, and is gone exactly when that was its whole count |
| TradeSettlement.TransferKeepsNoEmptyRows | SERVER/src/CHANNEL/service/TradeService.cpp:377-399 | No transfer leaves a row with a count of zero |
| TradeSettlement.TransferIff | SERVER/src/CHANNEL/service/TradeService.cpp:377-399 | With slots that cover the offers, one direction succeeds exactly when the taker's columns have room |
| TradeOutcome.AcceptedIsSane | SERVER/src/CHANNEL/service/TradeService.cpp:1188-1221 | An accepted list has no item of unknown inventory type, since no inventory is of such a type |
| TradeOutcome.ValidatedTradeSettlesIff | SERVER/src/CHANNEL/service/TradeService.cpp:1134-1221 | A validated trade over mirrored rows commits exactly when the INT and SMALLINT columns have room, however offers repeat, merge, delete or insert rows |
| TradeOutcome.FullRowDefeatsTrade | SERVER/src/CHANNEL/service/TradeService.cpp:817-877 | Validation alone does not ensure a commit: an accepted trade into a full row fails |
| TradeOutcome.ExchangeTotals | SERVER/src/CHANNEL/service/TradeService.cpp:357-430 | A committed trade moves exactly the offered amounts of every kind for every character |
| TradeOutcome.ExchangeConserves | SERVER/src/CHANNEL/service/TradeService.cpp:357-430 | The two players together own of every kind what they owned before |
| TradeOutcome.ExchangeKeepsNoEmptyRows | SERVER/src/CHANNEL/service/TradeService.cpp:357-430 | Nor does a committed trade |
| TradeOutcome.ExchangeOthers | SERVER/src/CHANNEL/service/TradeService.cpp:357-430 | Nobody else's rows are touched |
| TradeSessions.TradeService.CreateTradeSession | SERVER/src/CHANNEL/service/TradeService.cpp:472-503 | A session is created for two distinct players of whom neither has one |
| TradeSessions.TradeService.Upload | SERVER/src/CHANNEL/service/TradeService.cpp:115-260 | An upload is accepted exactly when the session is open and the slot still holds this and all earlier offers from it |
| TradeSessions.OfferedSoFar | SERVER/src/CHANNEL/service/TradeService.cpp:206-239 | The upload loop finds the sum offered from the slot, or a different item or an overflow |
| TradeSessions.TradeService.SetFlag | SERVER/src/CHANNEL/service/TradeService.cpp:287-302 | Ready sets the caller's own flag, unless the session executes or is not theirs |
| TradeSessions.TradeService.StartOrDrop | SERVER/src/CHANNEL/service/TradeService.cpp:308-328 | With the check passed the transaction starts on copies of both lists, otherwise the session is gone for both |
| TradeSessions.TradeService.MarkReady | SERVER/src/CHANNEL/service/TradeService.cpp:263-329 | The locked part of Ready refuses, waits, starts the transaction or drops the session |
| TradeSessions.TradeService.AfterFailure | SERVER/src/CHANNEL/service/TradeService.cpp:331-349 | After a failed transaction the session is dropped if the player still has that one |
| TradeSessions.TradeService.CancelTrade | SERVER/src/CHANNEL/service/TradeService.cpp:432-469 | Cancelling is refused exactly without a session or while it executes |
| TradeSessions.TradeService.DeleteTradeSession | SERVER/src/CHANNEL/service/TradeService.cpp:505-517 | Deleting takes both players out of the index |
| TradeRuns.EveryRunKeeps | SERVER/src/CHANNEL/service/TradeService.cpp:182-503 | Every run keeps: the index pairs two distinct players symmetrically, executing implies both ready, lists stay as frozen at the first ready, and each session executes at most once |
| TradeRuns.ReachableIsSound | SERVER/src/CHANNEL/service/TradeService.cpp:182-503 | So in every state the empty service reaches: two players who share a session are its two sides, and no session has executed twice |
| TradeSteps.CreateEffect | SERVER/src/CHANNEL/service/TradeService.cpp:472-503 | Two players get one new, empty, unflagged session exactly when they are two and both free |
| TradeSteps.UploadEffect | SERVER/src/CHANNEL/service/TradeService.cpp:182-260 | An accepted upload appends exactly the offer, with the server's own type, to the uploader's own list, and a refused one changes nothing |
| TradeSteps.UploadAcceptedIff | SERVER/src/CHANNEL/service/TradeService.cpp:206-256 | Given a list the inventory still backs, an upload is accepted exactly when the session is open, the slot offers nothing else, and the whole list with it stays backed |
| TradeSteps.ReadyEffect | SERVER/src/CHANNEL/service/TradeService.cpp:263-329 | Ready sets the caller's flag alone; as the first it waits, as the second it starts the transaction on each player's own list or ends the session for both |
| TradeSteps.CancelEffect | SERVER/src/CHANNEL/service/TradeService.cpp:432-469 | Cancelling succeeds exactly outside an execution, and ends the session for both and nobody else |
| TradeSteps.FinishEffect | SERVER/src/CHANNEL/service/TradeService.cpp:331-349 | A failed transaction and the clean-up after a committed one end exactly that session |
| TradeSteps.FlagsAreOwn | SERVER/src/CHANNEL/service/TradeService.cpp:292-299 | In every step from a reachable state a flag is raised only by a Ready of its own player, and never lowered |
| TradeSteps.BothPlayersAgreed | SERVER/src/CHANNEL/service/TradeService.cpp:263-329 | Every transaction any run begins was agreed to by both its players, each of whom said ready in that very session |
| TradeRuns.ItemsNeverChangeAfterReady | SERVER/src/CHANNEL/service/TradeService.cpp:182-260 | Once either player is ready the lists never change while the session lives |
| TradeRuns.RunningIsUntouchable | SERVER/src/CHANNEL/service/TradeService.cpp:432-469 | While its transaction runs, no operation of anyone changes or removes the session |
| TradeRuns.StartedTradeSettlesIff | SERVER/src/CHANNEL/service/TradeService.cpp:263-354 | What a run executes is what was frozen, and it commits exactly when the rows have room |
| TradeRuns.UploadKeepsValid | SERVER/src/CHANNEL/service/TradeService.cpp:206-256 | An accepted upload keeps the whole list valid against the same inventory |
| ChannelServer.ChannelServer.AcceptSession | SERVER/src/CHANNEL/app/ChannelServer.cpp:357-442 | Below the user limit accepting indexes a new session under its socket with an id never used before; at the limit nothing changes |
| ChannelServer.ChannelServer.TryBeginTask | SERVER/src/CHANNEL/app/ChannelSession.cpp:242-250 | A task is counted in exactly when the session is not closing |
| ChannelServer.ChannelServer.BeginValidSessionTask | SERVER/src/CHANNEL/app/ChannelServer.cpp:517-538 | The session found is the one under the socket with that id and not closing, and it is counted in |
| ChannelServer.ChannelServer.TakeJob | SERVER/src/CHANNEL/app/ChannelServer.cpp:759-768 | A queued job runs on the session it was issued for or not at all |
| ChannelServer.ChannelServer.EndSessionTask | SERVER/src/CHANNEL/app/ChannelSession.cpp:252-260 | Ending a task counts it out |
| ChannelServer.ChannelServer.TryBeginAuthentication | SERVER/src/CHANNEL/app/ChannelSession.cpp:278-282 | Only an unauthenticated session begins an authentication |
| ChannelServer.ChannelServer.Dispatch | SERVER/src/CHANNEL/app/ChannelSession.cpp:85-124 | An authentication packet queues at most one authentication; any other packet is queued only for an authenticated session |
| ChannelServer.ChannelServer.Attaching | SERVER/src/CHANNEL/app/ChannelServer.cpp:773-792 | Each stage of attaching a player changes the registry, the session and the task as specified |
| ChannelServer.ChannelServer.MarkClosing | SERVER/src/CHANNEL/app/ChannelServer.cpp:546-559 | Disconnecting first marks the session closing and takes it out of the index |
| ChannelServer.ChannelServer.FinishDisconnect | SERVER/src/CHANNEL/app/ChannelServer.cpp:562-566 | Then it closes the socket, waits for the last task, finalizes the player and frees the session |
| ChannelSessions.ApplyKeepsIndexed | SERVER/src/CHANNEL/app/ChannelServer.cpp:546-573 | The index holds exactly the live sessions, each under its own socket, though sockets and addresses are reused |
| ChannelSessions.ApplyKeepsCounted | SERVER/src/CHANNEL/app/ChannelSession.cpp:242-276 | The task counter counts exactly the tasks that hold the session, and none holds one that was waited for |
| ChannelAuth.ApplyKeepsAuth | SERVER/src/CHANNEL/app/ChannelSession.cpp:278-297 | At most one authentication per session id is outstanding, and gameplay exists only for authenticated sessions |
| ChannelAuth.EveryRunKeeps | SERVER/src/CHANNEL/app/ChannelServer.cpp:517-573 | All of this holds after every interleaving of any number of tasks, packets, results and disconnects |
| ChannelAuth.TasksAreSafe | SERVER/src/CHANNEL/app/ChannelServer.cpp:517-573 | No running task holds a deleted, finalized or different session, and gameplay has an authenticated session with its own registered player |
| ChannelAuth.OverStays | SERVER/src/CHANNEL/app/ChannelServer.cpp:517-573 | An id whose session closes or is gone stays so, and gets no new task, over every continuation |
| ChannelAuth.NoTaskAfterClosing | SERVER/src/CHANNEL/app/ChannelServer.cpp:517-573 | From a disconnect on, no continuation of the run ever starts a task for that session, whatever sockets and addresses are reused |
| ChannelAuth.TaskChangesOnlyItsSession | SERVER/src/CHANNEL/app/ChannelServer.cpp:753-792 | A task changes no session but the one whose id it was issued for, so an authentication result never reaches another |
| ChannelAuth.PlayersAndSessionsCorrespond | SERVER/src/CHANNEL/app/ChannelServer.cpp:773-792 | Whenever no attach is half-way, authenticated sessions and registered players correspond one to one |
| ChannelSteps.AcceptEffect | SERVER/src/CHANNEL/app/ChannelServer.cpp:405-427 | A connection on a free socket becomes a live session of its own under the next id |
| ChannelSteps.DispatchEffect | SERVER/src/CHANNEL/app/ChannelSession.cpp:85-124 | An authentication packet starts one for its own session exactly when none is under way or done; another packet is queued for its own session exactly when authenticated |
| ChannelSteps.AnswerEffect | SERVER/src/CHANNEL/app/ChannelServer.cpp:658-662 | A result carries the player found to the session that asked |
| ChannelSteps.TakeEffect | SERVER/src/CHANNEL/app/ChannelServer.cpp:517-538 | A queued job becomes a task exactly when the live session on its socket is the one it is for, and does what was asked, with the player of the result |
| ChannelSteps.EndEffect | SERVER/src/CHANNEL/app/ChannelSession.cpp:252-260 | Ending a task counts it out and touches nothing else |
| ChannelSteps.AttachEffect | SERVER/src/CHANNEL/app/ChannelServer.cpp:773-792 | The player of a result is registered, given to the session and the session marked, or, registered already, refused and the session reset |
| ChannelSteps.DisconnectEffect | SERVER/src/CHANNEL/app/ChannelServer.cpp:546-566 | A disconnect takes the session off its socket and, with no task left, frees socket, registration and memory |
| ChannelSteps.JobRunsIff | SERVER/src/CHANNEL/app/ChannelServer.cpp:517-538 | In every run a job is carried out exactly when its session is still live |
| ChannelSteps.PlayersAreTheirOwn | SERVER/src/CHANNEL/app/ChannelServer.cpp:753-792 | In every run the player a session has, or is being given, is one that an authentication of that very session answered with |
| StartStop.RunFlags.RequestStop | SERVER/src/CHANNEL/app/ChannelServer.cpp:984-994 | The call on its own is the run of its two atomic stores, which the theorems interleave |
| StartStop.RunFlags.TryBeginRun | SERVER/src/CHANNEL/app/ChannelServer.cpp:996-1008 | The call on its own is the run of its exchange, load and clearing store, and succeeds exactly when nothing runs and no stop was requested |
| StartStop.EveryRunKeeps | SERVER/src/CHANNEL/app/ChannelServer.cpp:984-1008 | In every interleaving of any number of calls, running after a stop request implies that a call is still pending |
| StartStop.StopPrevails | SERVER/src/CHANNEL/app/ChannelServer.cpp:984-1008 | Once all calls have returned, a requested stop has left the server not running |
| StartStop.BeginsOnce | SERVER/src/CHANNEL/app/ChannelServer.cpp:996-1008 | At most one call ever begins a run |
| StartStop.NothingBeginsAfterStop | SERVER/src/CHANNEL/app/ChannelServer.cpp:984-1008 | After a stop request no call begins a run, ever |
| Framing.ParseMade | SERVER/src/COMMON/packet/PacketParser.cpp:11-50 | A made packet parses back to its type and payload, whatever bytes follow |
| Framing.ParseDecides | SERVER/src/COMMON/packet/PacketParser.cpp:11-50 | A buffer is refused exactly when four bytes are there and the length is outside 4 to 16384, and complete exactly when the length is in range and all there, with type and payload at their places |
| Framing.MakesIff | SERVER/src/COMMON/packet/PacketParser.cpp:155-183 | A packet can be made exactly up to 16380 bytes of payload |
| Framing.ParseStable | SERVER/src/COMMON/packet/PacketParser.cpp:11-50 | More bytes never change a decision already made |
| Framing.Receiver.OnBytes | SERVER/src/CHANNEL/app/ChannelSession.cpp:62-83 | The receive loop dispatches what draining the buffer with the new bytes says and keeps the rest |
| Framing.LeftoverIsShort | SERVER/src/CHANNEL/app/ChannelSession.cpp:62-83 | What is left over is less than the largest packet and waits for more |
| Framing.DrainSplit | SERVER/src/CHANNEL/app/ChannelSession.cpp:62-83 | Draining in two goes is draining at once, valid or not |
| Framing.ChunkingIsInvisible | SERVER/src/CHANNEL/app/ChannelSession.cpp:62-83 | How the stream is cut into receive calls makes no difference |
| Framing.DrainStream | SERVER/src/COMMON/packet/PacketParser.cpp:155-183 | A stream of made packets dispatches exactly those packets |
| Framing.PartialStream | SERVER/src/CHANNEL/app/ChannelSession.cpp:62-83 | Any received part of it has dispatched a prefix of them, in order |
| Framing.MakeBody | SERVER/src/COMMON/packet/PacketParser.cpp:138-153 | The body maker's loop is the length-prefixed concatenation, refused for an oversized field |
| Framing.FieldsRoundTrip | SERVER/src/COMMON/packet/PacketParser.cpp:52-89 | Fields written into a body are read back exactly |
| SendQueue.FlushAccounts | SERVER/src/CHANNEL/app/ChannelSession.cpp:190-234 | Whatever send answers, bytes written plus bytes still queued are the bytes that were queued |
| SendQueue.FlushDrains | SERVER/src/CHANNEL/app/ChannelSession.cpp:190-234 | A socket that goes on taking bytes empties the queue, and everything that was pending has gone out |
| SendQueue.OneSend | SERVER/src/CHANNEL/app/ChannelSession.cpp:198-216 | A send that takes n of the bytes offered puts exactly those on the wire, and the queue goes on behind them |
| SendQueue.FlushTakesTheSum | SERVER/src/CHANNEL/app/ChannelSession.cpp:190-234 | The loop over packets and offsets is a plain cut: what goes out is the first bytes waiting, as many as the answers add up to, and it fails exactly on an error or empty answer before all is out |
| SendQueue.SendSide.EnqueueSend | SERVER/src/CHANNEL/app/ChannelSession.cpp:163-188 | A packet is appended to what is pending unless the session is closing, and the caller arms the event exactly when the queue was empty |
| SendQueue.SendSide.FlushSend | SERVER/src/CHANNEL/app/ChannelSession.cpp:190-234 | The send loop does what the flush function says for any answers of send; on a closing session it fails at once |
| SendQueue.EveryRunKeeps | SERVER/src/CHANNEL/app/ChannelServer.cpp:66-107 | In every interleaving of enqueuers and sender, bytes written plus queued are the packets enqueued, and data waiting means the event is armed or someone is about to arm it or look again |
| SendQueue.QuietMeansArmed | SERVER/src/CHANNEL/app/ChannelServer.cpp:78-107 | When no thread is half-way, waiting data means the event is armed |
| SendQueue.WakeSettles | SERVER/src/CHANNEL/app/ChannelServer.cpp:78-107 | Undisturbed, a wake that empties the queue disarms the event and one that leaves bytes waiting leaves it armed |
| SendQueue.EndToEnd | SERVER/src/CHANNEL/app/ChannelSession.cpp:62-83 | Whatever partial sends and however chunked, what arrives dispatches a prefix of the enqueued packets in order, and all of them once all bytes are through |
| SaveVersion.Player.MakeSaveData | SERVER/src/CHANNEL/domain/Player.cpp:393-423 | Undisturbed, the snapshot is the version and all sections |
| SaveVersion.Player.ChangeSection | SERVER/src/CHANNEL/domain/Player.cpp:384-391 | A handler's change of one section, not yet counted, is the mutating event of the runs |
| SaveVersion.Player.MarkSaveNeeded | SERVER/src/CHANNEL/domain/Player.cpp:425-428 | Counting a pending change is the marking event of the runs, after which the version is not zero |
| SaveVersion.Player.TryMarkSaved | SERVER/src/CHANNEL/domain/Player.cpp:435-440 | The version becomes zero exactly if it has not moved |
| SaveVersion.PlayerStore.SavePlayerData | SERVER/src/CHANNEL/service/PlayerDataSaveService.cpp:4-27 | A bad id is refused; success means written and the cache dropped; a failure may leave either the old or the new row |
| SaveVersion.SaveRuns | SERVER/src/CHANNEL/service/PlayerDataSaveService.cpp:29-51 | The saver's events run without interruption write the current player, whatever else fails, and reset the version only on full success |
| SaveVersion.Player.Save | SERVER/src/CHANNEL/service/PlayerDataSaveService.cpp:29-51 | One save is the saver's run from first to last event: row, cache and version afterwards for every outcome |
| SaveVersion.ApplyKeeps | SERVER/src/CHANNEL/domain/Player.cpp:393-440 | No step of handlers or saver breaks the invariant: whatever the saver has copied or written is current if the version has not moved and no change is uncounted |
| SaveVersion.ZeroMeansStored | SERVER/src/CHANNEL/domain/Player.cpp:393-440 | In every interleaving of handlers with the saver a version of zero with no uncounted change means that database and cache hold exactly the current player, however torn the snapshots were |
| SaveVersion.PlayerStore.FinalSave | SERVER/src/CHANNEL/service/FinalPlayerDataSaveTask.cpp:24-69 | The final save succeeds exactly if one of three attempts does, and then the row is the submitted data |
| SaveVersion.FinalSaves.Submit | SERVER/src/CHANNEL/app/ChannelServer.cpp:859-907 | A final save is queued, and its id pending, exactly for a good id with none pending and a pool that takes it |
| SaveVersion.Player.SubmitFinalSave | SERVER/src/CHANNEL/app/ChannelSession.cpp:319-327 | Finalization submits the whole current player exactly if the version is not zero and the submission is not refused |
| SaveVersion.Finalize | SERVER/src/CHANNEL/app/ChannelSession.cpp:299-327 | After any run, at finalization the database is current or ends up so when an attempt of the final save succeeds |
| Inventory.AddSucceedsIff | SERVER/src/CHANNEL/domain/Inventory.cpp:41-125 | Adding succeeds exactly when the count is positive and fits the partial stacks and empty enabled slots |
| Inventory.AddFills | SERVER/src/CHANNEL/domain/Inventory.cpp:41-125 | Only enabled slots that were empty or held the item change, none filled beyond its stack, and the results name exactly the changed slots once each with their final contents |
| Inventory.AddTotal | SERVER/src/CHANNEL/domain/Inventory.cpp:41-125 | A successful add raises the item's total by exactly the count and no other total |
| Inventory.AddsInOrder | SERVER/src/CHANNEL/domain/Inventory.cpp:48-122 | Partial stacks fill before empty slots and lower slots first: none is touched while one before it could take more |
| Inventory.RemoveEffect | SERVER/src/CHANNEL/domain/Inventory.cpp:128-162 | A removal lowers the one slot, empties it exactly when nothing is left, and touches no other |
| Inventory.MoveExchanges | SERVER/src/CHANNEL/domain/Inventory.cpp:288-297 | A move exchanges what two slots hold and nothing else about them or any other |
| Inventory.RemoveTotal | SERVER/src/CHANNEL/domain/Inventory.cpp:128-162 | A removal lowers that item's total by the count and no other |
| Inventory.MoveKeepsTotals | SERVER/src/CHANNEL/domain/Inventory.cpp:266-302 | A move keeps every total and is undone by moving back |
| Inventory.Inventory.AddItem | SERVER/src/CHANNEL/domain/Inventory.cpp:41-125 | The two loops do what the two passes say, early returns included |
| Inventory.Inventory.RemoveItemBySlot | SERVER/src/CHANNEL/domain/Inventory.cpp:128-162 | Removal happens exactly if the slot has that many of that item, and empties a slot that reaches zero |
| Inventory.Inventory.HasItemBySlot | SERVER/src/CHANNEL/domain/Inventory.cpp:164-188 | True exactly if the slot has that many of that item |
| Inventory.Inventory.MoveItemSlot | SERVER/src/CHANNEL/domain/Inventory.cpp:266-302 | Two different existing slots swap contents if the first is not empty, and both are reported |
| InventoryManager.InventoryManager.AddItem | SERVER/src/CHANNEL/manager/InventoryManager.cpp:44-124 | Through the manager an add is all or nothing: a failure changes neither the inventories nor the caller's list |
| InventoryManager.InventoryManager.GetSlotSnapshot | SERVER/src/CHANNEL/manager/InventoryManager.cpp:195-215 | A snapshot is given exactly for an enabled slot with something in it |
| InventoryManager.InventoryManager.RemoveItemBySlot | SERVER/src/CHANNEL/manager/InventoryManager.cpp:263-279 | A removal through the manager touches one slot of one inventory, or nothing |
| InventoryManager.AddEffect | SERVER/src/CHANNEL/manager/InventoryManager.cpp:81-123 | A successful add raises one total, grows slots within their stacks and reports exactly those |
| InventoryManager.RemoveEffect | SERVER/src/CHANNEL/manager/InventoryManager.cpp:263-279 | A removal lowers one total by the count |
| Shop.DivisionGuard | SERVER/src/CHANNEL/service/ShopService.cpp:160-168 | The division in front of the multiplication admits exactly the products that fit 64 bits |
| Shop.SearchProduct | SERVER/src/CHANNEL/service/ShopService.cpp:137-146 | The search loop finds the first product with the id |
| Shop.Player.TryAddGold | SERVER/src/CHANNEL/domain/Player.cpp:645-661 | Gold is added exactly when the amount is positive and the sum fits |
| Shop.Player.TrySpendGold | SERVER/src/CHANNEL/domain/Player.cpp:663-678 | Gold is spent exactly when the amount is positive and there is enough |
| Shop.Player.Buy | SERVER/src/CHANNEL/service/ShopService.cpp:83-207 | A purchase goes through exactly when product, limit, price, gold and room allow; otherwise gold and inventory are as before, since the refund cannot fail |
| Shop.Player.Sell | SERVER/src/CHANNEL/service/ShopService.cpp:209-341 | A sale goes through exactly when slot, item, price and gold limit allow; the removal after the credit cannot fail |
| Shop.BuyEffect | SERVER/src/CHANNEL/service/ShopService.cpp:160-206 | An accepted purchase pays the price times the count, says so on the receipt, and brings that count of the product's item |
| Shop.SellEffect | SERVER/src/CHANNEL/service/ShopService.cpp:284-340 | An accepted sale takes the count out of exactly the slot named and pays the item's price times the count, as the receipt says |
| Shop.LedgerBalances | SERVER/src/CHANNEL/service/ShopService.cpp:83-341 | Over any run the gold is the start less purchases plus sales, within 64 bits and never negative, and item totals move by the counts on the receipts |
| MoveBudget.Validator.TryApplyMove | SERVER/src/CHANNEL/domain/Player.cpp:442-532 | A move is accepted exactly when its distance is within the recharged budget and the tolerance |
| MoveBudget.Validator.ResetMoveValidation | SERVER/src/CHANNEL/domain/Player.cpp:534-541 | A reset empties the budget and starts the clock |
| MoveBudget.RequestEffect | SERVER/src/CHANNEL/domain/Player.cpp:472-529 | A request credits 1.1 times the speed for at most a quarter second, capped at a quarter second's worth; acceptance debits the distance, refusal does not |
| MoveBudget.IdleRequestEffect | SERVER/src/CHANNEL/domain/Player.cpp:456-470 | The first request only starts the clock, and one without a speed changes nothing |
| MoveBudget.OneMoveLimit | SERVER/src/CHANNEL/domain/Player.cpp:442-532 | A move can be accepted from some saved distance exactly when it is at most a quarter second at 1.1 times the speed and the tolerance |
| MoveBudget.FullSpeedAcceptedIff | SERVER/src/CHANNEL/domain/Player.cpp:466-520 | A move at exactly the player's speed is accepted, whatever is saved, exactly when at most 0.275 s + 0.01 / speed have passed |
| MoveBudget.LongPauseRefused | SERVER/src/CHANNEL/domain/Player.cpp:466-520 | A client at full speed that reports after half a second is refused |
| MoveBudget.SteadyClientNeverRefused | SERVER/src/CHANNEL/domain/Player.cpp:442-541 | A client at or below its speed that never pauses longer than that is never refused, over any run from a reset on |
| MoveBudget.SpeedLimitHolds | SERVER/src/CHANNEL/domain/Player.cpp:442-541 | Over any run of accepted and refused requests the distance travelled, and the straight-line displacement, are within 1.1 * speed * time + 0.01 for each accepted move |
| Collision.SharedCircle | SERVER/include/COMMON/Collider.h:111-124 | Circles that test true share the point dividing the line between their centres |
| Collision.ClampIsNearest | SERVER/include/COMMON/Collider.h:140-147 | Clamping the centre gives the nearest coordinate of the rectangle |
| Collision.IntersectsIff | SERVER/include/COMMON/Collider.h:98-171 | Each test is true exactly when the two closed shapes share a point |
| Collision.IntersectsSymmetric | SERVER/include/COMMON/Collider.h:151-171 | The order of the colliders makes no difference |
| Scheduling.WorkerThread.PushTask | SERVER/src/COMMON/thread/WorkerThread.cpp:26-38 | A task is accepted at the end of the queue exactly while running |
| Scheduling.WorkerThread.NextTask | SERVER/src/COMMON/thread/WorkerThread.cpp:40-62 | The worker takes the oldest task, and leaves only when stopped with nothing queued |
| Scheduling.ThreadPool.SubmitTask | SERVER/src/COMMON/thread/ThreadPool.cpp:40-51 | Unkeyed tasks go round the workers |
| Scheduling.ThreadPool.SubmitTaskByKey | SERVER/src/COMMON/thread/ThreadPool.cpp:53-62 | A keyed task goes to the worker its key selects |
| Scheduling.EveryRunKeeps | SERVER/src/COMMON/thread/WorkerThread.cpp:26-77 | In every interleaving a worker's accepted tasks are those executed, the one in hand and those queued, in order, and hold exactly the pool's tasks of its keys |
| Scheduling.KeyedTasksRunInOrder | SERVER/src/COMMON/thread/ThreadPool.cpp:53-62 | Tasks of one key run on one worker only, once each and in order of acceptance, and all have run once it has left |
| Scheduling.SubmitGoesRound | SERVER/src/COMMON/thread/ThreadPool.cpp:40-51 | The k-th unkeyed task goes to worker k modulo the pool size, at the end of its queue if it runs, and to no other |
| Scheduling.StoppedWorkerFinishes | SERVER/src/COMMON/thread/WorkerThread.cpp:40-77 | A stopped worker left alone runs everything it has accepted and then leaves |
| Scheduling.NothingAcceptedAfterExit | SERVER/src/COMMON/thread/WorkerThread.cpp:26-77 | A worker that has left has run everything it accepted and accepts nothing more |

## Where the code falls short of its aim

- The last check before a trade does not look at the database columns. A trade it accepts still
  fails when a merged count passes INT or a new slot number passes SMALLINT; it commits in every
  other case. `TradeOutcome.ValidatedTradeSettlesIff` gives
  the condition in both directions, `TradeOutcome.FullRowDefeatsTrade` a trade that fails.
- The loader only asks platforms to lie above the kill line, while a body may stand as much as the
  tolerance below a platform. At the server's own step of 1/60 s this does no harm
  (`MovementTheorems.ServerNeverFallsOut`). At other step lengths a jump from so low can report
  falling out: `MovementTheorems.FixedStepNeverFallsOutIff` gives the condition for each length,
  `MovementTheorems.NeverFallsOutIff` the one for all lengths at once.
- Movement validation credits at most a quarter second, so a client that keeps to its speed but
  reports after a longer pause is refused. `MoveBudget.FullSpeedAcceptedIff` gives the longest pause
  in both directions, `MoveBudget.LongPauseRefused` a refused move.
- A purchase refunds its gold, and a sale takes its credit back, through guards that could in
  principle fail; `Shop.Player.Buy` and `Shop.Player.Sell` show that neither can, the second
  because the removal it would undo never fails.

## Left out

- Sockets, epoll, MySQL, Redis, JSON files and logging: what they answer is a parameter.
- Rounding, NaN and infinity of floats: reals are exact, and finite values are assumed where the
  code tests for them.
- MoveBudget.Validator.TryApplyMove: the square root is part of the request, as an exact root.
- MoveBudget.SpeedLimitHolds: a run has no teleport in it; setting a position directly starts a new one.
- ChannelServer.ChannelServer.AcceptSession: socket options and failures of the poll registration.
- SaveVersion.ZeroMeansStored: the version is an unbounded natural number, one saver works at a time
  as keyed scheduling provides, and handlers mark after they mutate.
- SaveVersion.Finalize: one session only; a new login may read the row before the old session's
  final save.
- ChannelAuth.EveryRunKeeps: the generation, which is always 1, is dropped from the identity; an
  older handler of the authentication packet, which such a packet no longer reaches.
- StartStop.EveryRunKeeps: the mutex of RequestStop, which only removes interleavings.
- Scheduling.EveryRunKeeps: waiting and waking are not modelled, since the stop flag is cleared
  outside the mutex and a wakeup may be missed; each worker is started once.
- SendQueue.SendSide.FlushSend: a run of answers that ends is read as a socket that would block;
  the flush at shutdown is left out.
- Framing.FieldsRoundTrip: reading numbers out of fields.
- TradeOutcome.ValidatedTradeSettlesIff: strict SQL mode is assumed, where a value out of a
  column's range is an error, and inventories of the known types only, as stored metadata makes them.
- TradeRuns.EveryRunKeeps: asking for a trade and the map and distance checks before it, players
  who leave during a trade, and session addresses used again.
- TradeOutcome.ExchangeConserves: database rows only; the inventories in memory are reloaded by
  the handler, which does not clear rows that are gone.
- TradeRows.InventoryDb.Execute: the slot number written back into the copy of an offer.
- InventoryManager.InventoryManager.AddItem: a missing item manager; item counts are unbounded
  integers, which stay within an int as long as counts and stacks are not negative.
- Shop.Player.Buy: the NPC lookup and the map check, whose outcome is the optional shop; error texts.
- Collision.IntersectsIff: arc attacks and the broad-phase radii.
- Damage, levels, drops, quick slots, chat, login and character creation.
