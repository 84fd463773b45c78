# Backroll in Dafny

Backroll keeps peers of a game in step over an unreliable network. Each peer plays on with guessed inputs, and when the
real ones turn out different it goes back to a saved state and plays again. This project models the machines that make
this work and proves that together they cannot be told apart from waiting for every input before simulating.

| files | what they model |
|---|---|
| `Frames.dfy` | frame numbers, the constants of a session, containers shared by all |
| `QueueModel.dfy`, `InputQueues.dfy` | a player's input queue: an unbounded stream with prediction and misprediction detection, and the 120-slot ring that refines it |
| `SyncModel.dfy`, `SyncEngine.dfy` | the rollback engine, its ten saved cells and the client that runs its commands, on values and as objects |
| `SavedRing.dfy`, `Rollback.dfy`, `Batches.dfy` | where saved frames lie, why a batch of commands leaves the client with the replay, and what is in it |
| `SessionModel.dfy`, `SessionInvariant.dfy`, `SessionProofs.dfy`, `P2P.dfy` | the peer-to-peer session: its calls on values, what every call keeps, and the session as an object |
| `Mispredictions.dfy` | exactly when a session rolls back, and what a delay costs |
| `Openings.dfy`, `SilentRuns.dfy`, `Silence.dfy`, `RemoteRuns.dfy`, `RemoteOnly.dfy`, `Lockstep.dfy`, `Crowds.dfy`, `TooMany.dfy` | how a run begins; sessions with silent peers, without a local player, with many remote ones, and with more than eight players |
| `Varint.dfy`, `Bitfield.dfy`, `Compression.dfy` | the wire code: variable-length integers, run lengths, differences |
| `InputBuffer.dfy` | both ends of input replication, over a network that loses, duplicates and reorders |
| `TwoPeers.dfy`, `Pairs.dfy`, `PairSteps.dfy`, `Convergence.dfy`, `Continuing.dfy`, `Progress.dfy`, `DelaysTell.dfy`, `Agreement.dfy` | two whole peers playing each other: that they agree, exactly when, and that they never deadlock |
| `Handshake.dfy`, `Protocol.dfy` | the state of a connection, and the connection as an object |
| `Snapshot.dfy`, `WorldStore.dfy` | saving and restoring a world of entities, and the ids of its entities |

Code that works by changing things in place is a class or a method with the loops of the original, proved equal to a
function on values; the theorems are about those functions. A saved cell is named by its slot in the ring, which session
and client share: it is emptied when a command is issued and filled when the client runs it, as in the original.

The main theorems, top down: `Convergence.PeersConverge`, `Convergence.EveryActIsSafe`, `Convergence.RingsNeverOverflow`,
`Agreement.ReplaysAgreeIffSameDelay` and `Progress.PeersNeverDeadlock` for two peers on any network;
`SessionProofs.RollbackRefinesReplay` for one session and anything that arrives;
`InputBuffer.DeliveryIsExactlyOnce` for replication; `QueueModel.DetectionIsSound` and `QueueModel.DetectionIsExact` for
prediction; `Bitfield.RoundTrip` and `Compression.RoundTrip` for the wire code;
`Handshake.HandshakeIsPrefix` for connections; `Snapshot.RestoreIsExact` and `Snapshot.IdsNeverCollide` for worlds.

Some properties one might expect do not hold of the code, and their exact conditions are proved instead:

- Misprediction detection compares an entry with the frame number it arrived with (`backroll/src/input.rs:290`), so a
  late entry of a delayed player costs a rollback, right or wrong; a delay of three frames is the default
  (`backroll/src/backend/p2p.rs:18`). `Mispredictions.RollbackIff` says when a session rolls back, whatever its delays. It
  always does so exactly when it has to if and only if nobody whose next input can come in late has a delay
  (`Mispredictions.ExactIffPrompt`), and states of either kind do occur (`Mispredictions.CorrectPredictionCosts`).
- A queue can flag a frame that it never handed out. A fetch keeps detection exact if and only if it skips no frame
  (`QueueModel.ExactIffNothingSkipped`); the session never skips one.
- The input of a frame has eight slots (`backroll/src/input.rs:42`), but nothing limits the number of players: a session
  with nine panics on its first frame (`TooMany.FirstFramePanics`). One without a local player discards inputs that it
  still needs, or runs away from its saved states and panics. No run ever panics or gives up a frame still to be played
  if and only if somebody is local and at most eight play (`RemoteOnly.AlwaysPlayableIff`).
- With three or more remote players the session also asks what each peer has confirmed of the others
  (`backroll/src/backend/p2p.rs:473-520`), but looks at statuses that only the connection's own copy of the peer updates
  (`backroll/src/protocol/mod.rs:187` and 240). Nothing is ever confirmed and the prediction barrier stops the game for
  good at frame 8: a session with a local player can get further exactly with at most two remote players, eight in all
  (`Crowds.PassesEightIff`).
- A delay is applied by each peer on its own and never transmitted. Two peers agree on the game if and only if they have
  set the same delay for each player (`Agreement.ReplaysAgreeIffSameDelay`).
- The assertion at `backroll/src/protocol/mod.rs:695` fails when packets are reordered: it holds if and only if statuses
  come in with last frames that never decrease (`Protocol.AssertionHoldsIffInOrder`). What is merged does not depend on
  the order (`Protocol.MergeIgnoresOrder`).
- An id taken from the provider and held while an older state is loaded can come to be shared by two entities, exactly
  when the loaded counter is not past it or it comes back with the load (`Snapshot.LoadIsSafeIffIdsOutliveIt`).

Where code and documentation disagree the model follows the code: packets are encoded as differences from zero, not from
the last acknowledged input (`backroll/src/protocol/input_buffer.rs:64-66` against line 72).

`dafny verify dfyconfig.toml` checks the whole project.

## Model

| member | source | states |
|---|---|---|
| QueueModel.DetectionIsSound | backroll/src/input.rs:192-307 | over any run of adds, fetches, discards, resets and delay changes: every value handed out since the last reset for a frame that is confirmed by now equals the confirmed input, up to the first flagged frame if there is one; a flagged frame never exceeds the last requested one |
| QueueModel.DetectionIsExact | backroll/src/input.rs:192-307 | over any run without delay whose fetches skip no frame, an error is flagged if and only if some handed-out prediction has been refuted, and at the least such frame |
| QueueModel.SkippedFrameIsFlagged | backroll/src/input.rs:284-292 | for every fetch that skips a frame g and every input for g other than the predicted one: g is flagged, though it was never handed out and nothing handed out has been refuted |
| QueueModel.ExactIffNothingSkipped | backroll/src/input.rs:192-307 | after a fetch, detection is exact for whatever comes in next if and only if every frame between the end of the stream and the fetched one has been handed out |
| QueueModel.FeedIsExact | backroll/src/input.rs:249-309 | undelayed inputs, one after the other, keep flagged frames exactly those wrongly predicted |
| QueueModel.AddFlagsIff | backroll/src/input.rs:284-292 | an input that reaches a predicting queue avoids the error if and only if it is undelayed, lands on the next frame and equals the guess; any delay or padding flags the next frame, right or wrong |
| QueueModel.GetIsSound | backroll/src/input.rs:192-247 | with requests that never go back and no error flagged, a fetch answers with the input added for the frame if there is one; else it predicts the latest input, and the default one if there is none |
| QueueModel.AddIsSound | backroll/src/input.rs:249-309 | arriving inputs keep the account of everything handed out sound, whatever the delay |
| QueueModel.PushIsSound | backroll/src/input.rs:271-309 | one appended entry keeps that account sound |
| QueueModel.ResetIsSound | backroll/src/input.rs:178-190 | a reset below the first error keeps the account of the frames that stay |
| QueueModel.StepKeepsAccount | backroll/src/input.rs:149-309 | every operation of a queue keeps the account of requests and answers |
| QueueModel.StepIsExact | backroll/src/input.rs:149-309 | every undelayed operation keeps flagged frames exactly those wrongly predicted |
| QueueModel.AddInputStream | backroll/src/input.rs:249-349 | an added input is dropped when its delayed frame exists; otherwise the latest input, or the default one if there is none, fills the gap up to that frame, the input lands exactly there and nothing older changes |
| QueueModel.PadStream | backroll/src/input.rs:331-345 | padding repeats the latest input, the default one if there is none, and changes nothing but the stream and the prediction |
| QueueModel.ConstantDelay | backroll/src/input.rs:311-349 | with a constant delay d the stream is d zeros followed by the raw inputs |
| InputQueues.InputQueue.constructor | backroll/src/input.rs:112-143 | a new ring stands for the empty stream |
| InputQueues.InputQueue.SetFrameDelay | backroll/src/input.rs:149-152 | only the delay changes |
| InputQueues.InputQueue.DiscardConfirmedFrames | backroll/src/input.rs:154-176 | moving tail and length gives up exactly the frames the stream model gives up, also when everything goes and the tail is left on an old slot |
| InputQueues.InputQueue.ResetPrediction | backroll/src/input.rs:178-190 | prediction, error and last request are forgotten, the stream is not |
| InputQueues.InputQueue.GetInput | backroll/src/input.rs:192-247 | the ring answers exactly as the unbounded stream does; the frame assertions of the original are proved |
| InputQueues.InputQueue.AddInput | backroll/src/input.rs:249-269 | the ring accepts, pads or drops an input exactly as the unbounded stream does |
| InputQueues.InputQueue.AddDelayedInput | backroll/src/input.rs:271-309 | writing one slot appends one entry to the stream and judges the prediction as the model does; the ring never holds more than 120 entries |
| InputQueues.InputQueue.Store | backroll/src/input.rs:275-282 | the slot at the head takes the entry under its frame, every other entry of the window stays readable |
| InputQueues.InputQueue.AdvanceQueueHead | backroll/src/input.rs:311-349 | the loop pads up to the delayed frame, or drops the input and changes nothing |
| InputQueues.InputQueue.Len | backroll/src/input.rs:351-353 | the length is what has been added and not discarded |
| InputQueues.RingKept | backroll/src/input.rs:275-280 | writing the next slot of a ring leaves the rest of its window alone |
| InputQueues.LatestEntry | backroll/src/input.rs:7-13 | the slot before the head holds the latest entry, or the default one while there is none |
| InputQueues.TailEntry | backroll/src/input.rs:164-173 | the slot at the tail holds the oldest kept entry; once everything is discarded, one from before |
| SyncModel.FindIndex | backroll/src/sync.rs:103-109 | the lowest slot for a frame is found, and none exactly when no slot is for it |
| SyncModel.FirstIncorrect | backroll/src/sync.rs:290-296 | the least flagged frame of all queues, and none exactly when no queue has flagged one |
| Batches.FirstPlayIssues | backroll/src/sync.rs:185-193 | playing from the start saves frame 0, then advances every frame in order with everybody's inputs for it and saves its successor to the next cell |
| Batches.PlayIssues | backroll/src/sync.rs:185-193 | from any other frame on it is the same without that first save |
| Batches.RollbackIssues | backroll/src/sync.rs:245-288 | a rollback is one load from a cell for the flagged frame, followed by playing on from there with what is now believed, command by command |
| Batches.CrashesIff | backroll/src/sync.rs:57-79 | a client gets through a batch exactly when no command loads a cell that nothing was saved to, or saves to a cell for no frame |
| Batches.SavedIsRestored | backroll/src/sync.rs:50-79 | what was saved is what a later load gives back, as long as nothing else is saved there |
| SyncEngine.SavedState.constructor | backroll/src/sync.rs:118-127 | an empty ring of ten cells |
| SyncEngine.SavedState.Push | backroll/src/sync.rs:94-101 | the cell at the head is emptied and claimed when the command is issued; no other cell changes |
| SyncEngine.SavedState.FindSlot | backroll/src/sync.rs:103-109 | the search loop finds the lowest slot for the frame |
| SyncEngine.SavedState.ResetTo | backroll/src/sync.rs:111-116 | the head moves to the cell found |
| SyncEngine.CommandList.Push | backroll/src/command.rs:142-144 | commands are kept in the order they are issued |
| SyncEngine.Client.Run | bevy_backroll/src/lib.rs:225-268 | running commands one after the other gives the state and the cells that the model of a client gives |
| SyncEngine.SyncState.constructor | backroll/src/sync.rs:143-158 | a new engine holds one empty queue per player, an empty ring and frame 0 |
| SyncEngine.SyncState.SaveCurrentFrame | backroll/src/sync.rs:260-266 | one cell is claimed and one save issued for the current frame |
| SyncEngine.SyncState.GetInput | backroll/src/sync.rs:229-234 | fetching from one queue leaves all the others as they are |
| SyncEngine.SyncState.SynchronizeInputs | backroll/src/sync.rs:221-237 | the loop fetches every connected player's input for the current frame, for as many players as an input has slots |
| SyncEngine.SyncState.IncrementFrame | backroll/src/sync.rs:185-193 | engine and commands move on as the model of one frame says, frame 0 being saved before it is played |
| SyncEngine.SyncState.LoadFrame | backroll/src/sync.rs:245-258 | the frame count and the head go back to the cell of the frame, and one load is issued |
| SyncEngine.SyncState.ResetPrediction | backroll/src/sync.rs:298-302 | all queues forget their predictions |
| SyncEngine.SyncState.AdjustSimulation | backroll/src/sync.rs:268-288 | a rollback ends at the frame it started from, having issued the model's load and replay; its assertions are proved |
| SyncEngine.SyncState.CatchUp | backroll/src/sync.rs:280-284 | the loop plays exactly the given number of frames |
| SyncEngine.SyncState.FirstError | backroll/src/sync.rs:290-296 | the least flagged frame of all queues |
| SyncEngine.SyncState.CheckSimulation | backroll/src/sync.rs:239-243 | a rollback to the least flagged frame, or nothing |
| SyncEngine.SyncState.SetLastConfirmedFrame | backroll/src/sync.rs:172-179 | every queue gives up what lies below the confirmed frame |
| SyncEngine.SyncState.AddInput | backroll/src/sync.rs:217-219 | one queue takes the input, the others keep theirs |
| SyncEngine.SyncState.SetFrameDelay | backroll/src/sync.rs:181-183 | one queue changes its delay |
| SyncEngine.IncrementOnce | backroll/src/sync.rs:280-284 | advancing i + 1 frames is advancing i frames and then one more |
| SavedRing.WindowFrameIsFound | backroll/src/sync.rs:103-116 | any of the last eight frames is found in the ring, in the cell its successors follow, also after frame 0 has been saved twice |
| SavedRing.ReloadKeepsLayout | backroll/src/sync.rs:245-284 | going back to a frame and saving forward again leaves the ring in shape, one cell further on if the frame was 0 |
| SavedRing.ReloadedSlot | backroll/src/sync.rs:245-284 | after a rollback to a frame e > 0 each cell is claimed again or is for a frame up to e |
| SavedRing.ReloadedSlotFromStart | backroll/src/sync.rs:185-188 | the same for frame 0, whose second save shifts the ring by one cell |
| Rollback.EarlyResetIsHarmless | backroll/src/sync.rs:94-101 | emptying a cell when its command is issued, not when it is run, makes no difference to the commands issued before it, as long as none of them loads that cell |
| Rollback.SaveKeepsPromise | backroll/src/sync.rs:260-266 | a save issued now will put the state of the current frame into its cell |
| Rollback.LoadKeepsPromise | backroll/src/sync.rs:245-258 | a load issued now will give the client the state of the cell's frame |
| Rollback.IncrementByKeepsPromise | backroll/src/sync.rs:185-193 | playing any number of frames extends what the client will have by what all queues believe about those frames |
| Rollback.AdjustKeepsPromise | backroll/src/sync.rs:268-288 | the commands of a rollback make the client hold the replay of everything now believed, and every cell the state of its frame |
| Rollback.CheckKeepsPromise | backroll/src/sync.rs:239-243 | so does the simulation check as a whole, flagged or not |
| Rollback.FetchSettles | backroll/src/sync.rs:221-237 | fetching the current frame from settled or reset queues answers with what each believes |
| Rollback.AddKeepsGrown | backroll/src/input.rs:249-309 | arriving inputs flag no frame that had been known before them |
| Rollback.GrownBelief | backroll/src/input.rs:284-307 | below the first flagged frame, and everywhere if none is flagged, the arrivals have changed no belief about a played frame |
| Rollback.RowsBeforeError | backroll/src/sync.rs:290-296 | below the least flagged frame of all queues every row of inputs is as it was played |
| Rollback.AdjustShape | backroll/src/sync.rs:268-288 | a rollback settles all queues on unchanged streams and keeps frame count, confirmed frame and the shape of the ring |
| SessionModel.Least | backroll/src/backend/p2p.rs:445-471 | the least of the last frames received |
| SessionModel.RefusedIff | backroll/src/backend/p2p.rs:557-566 | a session is refused exactly when more than one player is local and more than one remote |
| SessionModel.EventsAreReported | backroll/src/backend/p2p.rs:331-387 | while a session runs every event is reported in the order they come in |
| SessionModel.RunningIsReported | backroll/src/backend/p2p.rs:231-236 | and so it is before; that it runs is said once, right behind the first connection that finds everybody running |
| P2P.P2PSession.Build | backroll/src/backend/p2p.rs:556-592 | a session is refused exactly when it would have several local players along with several remote ones |
| P2P.P2PSession.constructor | backroll/src/backend/p2p.rs:569-592 | a new session waits for its peers exactly when it has any |
| P2P.P2PSession.AddLocalInput | backroll/src/backend/p2p.rs:660-693 | inputs are refused while synchronizing, for unknown players and at the prediction barrier; otherwise queue and last frame move together and the input is handed to every peer |
| P2P.P2PSession.SendToPeers | backroll/src/backend/p2p.rs:687-689 | the loop hands an input to every remote player's peer |
| P2P.ToPeersReachesAll | backroll/src/backend/p2p.rs:687-689 | every peer is handed the input exactly once, and nobody else is |
| P2P.P2PSession.AddInput | backroll/src/sync.rs:195-219 | the queue takes the input and the player's last frame follows it |
| P2P.P2PSession.SetFrameDelay | backroll/src/backend/p2p.rs:791-796 | unknown players are refused, and only one queue's delay changes |
| P2P.P2PSession.ReceiveInputs | backroll/src/backend/p2p.rs:355-371 | the loop takes a batch input by input, each the successor of the last |
| P2P.P2PSession.HandleEvent | backroll/src/backend/p2p.rs:331-387 | each event issues its notice, a resumed connection that of a synchronized one; the last peer to become ready sets the session running |
| P2P.P2PSession.FlushEvents | backroll/src/backend/p2p.rs:304-321 | events of open channels are handled in the order they arrived |
| P2P.P2PSession.MinFrame | backroll/src/backend/p2p.rs:445-471 | the loop finds the least last frame of all players |
| P2P.P2PSession.FindConfirmedFrame | backroll/src/backend/p2p.rs:409-420 | the frame up to which everybody's input is in: the current one when nobody is remote, the least last frame with one or two remote players, none at all with more |
| P2P.P2PSession.LeastConfirmedByAll | backroll/src/backend/p2p.rs:473-520 | the nested loops over all peers' statuses, which in the session's own handles are never updated, find no confirmed frame |
| P2P.P2PSession.Confirm | backroll/src/backend/p2p.rs:422-428 | discarding up to the confirmed frame meets what the queues demand, in every reachable state |
| P2P.P2PSession.Check | backroll/src/backend/p2p.rs:398 | in every reachable state the frame the check goes back to can be loaded, so nothing panics |
| P2P.P2PSession.DoPoll | backroll/src/backend/p2p.rs:389-428 | handles events, checks and confirms as the model does, for any number of players, and keeps the session's invariant |
| P2P.P2PSession.Poll | backroll/src/backend/p2p.rs:722-727 | the same without playing a frame |
| P2P.P2PSession.AdvanceFrame | backroll/src/backend/p2p.rs:706-714 | plays one frame and polls as the model does; every assertion met on the way is proved |
| P2P.P2PSession.Increment | backroll/src/backend/p2p.rs:710-712 | the frame about to be played has been discarded from no queue |
| SessionModel.FlushKeepsEngine | backroll/src/backend/p2p.rs:304-387 | handling events never touches the frame count or the saved states |
| SessionProofs.RollbackRefinesReplay | backroll/src/backend/p2p.rs:660-727 | after any legal run of inputs, polls, frames and delay changes, with at least one local player and at most eight players in all, the client is in the state that playing all frames with what is known would have given: every player's input for the frame, where it is missing the latest one, and the default one where there is none; nothing has panicked, and every saved state is that of its frame |
| SessionProofs.RunKeepsHealthy | backroll/src/backend/p2p.rs:660-727 | a run keeps session and client healthy and never takes a confirmation back |
| SessionProofs.TakeKeepsHealthy | backroll/src/backend/p2p.rs:660-727 | so does every single legal call, with all the commands it returns run in order |
| SessionProofs.InputIsAcceptedIff | backroll/src/sync.rs:195-215 | in every state between calls: a known player's input is accepted by a running session exactly in the first eight frames and within eight frames of the confirmed one; a refused one changes nothing |
| Silence.PlaysInSilenceIff | backroll/src/sync.rs:195-202 | while the peers of a session say nothing, frame n can be reached exactly for n up to 8 |
| SessionProofs.CallsConfirmAll | backroll/src/backend/p2p.rs:409-428 | after every poll of a running session the confirmed frame is the current one when nobody is remote, with one or two remote players the last frame everybody has sent, and unchanged otherwise |
| SessionProofs.LocalInputIsSane | backroll/src/backend/p2p.rs:660-690 | an accepted local input lands beyond everything already played and changes no row of the past |
| SessionProofs.SetDelayIsSane | backroll/src/backend/p2p.rs:791-796 | a new delay changes nothing about inputs already taken |
| SessionProofs.ConfirmationIsMonotone | backroll/src/backend/p2p.rs:409-428 | the confirmed frame never decreases, and passes neither the frame being played nor any player's last frame |
| SessionProofs.ConfirmationIsSafe | backroll/src/backend/p2p.rs:422-428 | confirming discards only what lies below the confirmed frame and changes no belief |
| SessionProofs.ConfirmationMovesForward | backroll/src/sync.rs:172-179 | a confirmation never reaches back before what is already discarded |
| SessionProofs.CurrentFrameIsKept | backroll/src/sync.rs:221-237 | the frame about to be fetched has no error and has not been discarded from any queue |
| SessionProofs.FlaggedFrameIsKept | backroll/src/sync.rs:239-288 | nor has any frame a rollback fetches |
| SessionProofs.FlaggedFrameIsRecent | backroll/src/sync.rs:239-258 | a flagged frame is above the confirmed one, at most eight frames back, and in the ring |
| SessionProofs.EveryLoadFindsItsCell | backroll/src/sync.rs:239-266 | the load of a rollback comes first, from a cell for exactly the flagged frame, and no save issued after it claims that cell |
| SessionProofs.SavesGoToClaimedCells | backroll/src/sync.rs:260-266 | playing frames issues nothing but advances and saves to the next cells |
| SessionProofs.SettleKeepsPromise | backroll/src/backend/p2p.rs:398-428 | checking and confirming turn the promise of the past into the promise of everything now believed |
| Mispredictions.RollbackIff | backroll/src/backend/p2p.rs:389-398 | whatever the delays of its players, a poll rolls back if and only if some undelayed player's inputs for played frames have turned out to be others, or some delayed player's queue has taken in an entry for a played frame, right or wrong |
| Mispredictions.RollbackIffMispredicted | backroll/src/backend/p2p.rs:389-398 | if nobody whose next input can come in late has a delay, a poll rolls back if and only if what has arrived changes the inputs of frames already played, and then to the first such frame |
| Mispredictions.RollbackIffLate | backroll/src/backend/p2p.rs:389-398 | with a delay on every remote player a poll rolls back if and only if some queue takes in an entry for a frame already played, predicted correctly or not |
| Mispredictions.ExactIffPrompt | backroll/src/backend/p2p.rs:389-398 | in every state between calls, whatever delays have been set and when: polls roll back exactly when inputs of played frames change, whatever arrives, if and only if no remote player whose next input can come in late has a delay |
| Mispredictions.CorrectPredictionRollsBack | backroll/src/input.rs:284-292 | for every delayed player whose next input can come in late, inputs exactly as predicted cost a rollback, though no input of a played frame changes |
| Mispredictions.CorrectPredictionCosts | backroll/src/input.rs:284-292 | for every delay the ring has room for, a legal run leads to a state in which polls are exact if and only if that delay is 0 |
| Mispredictions.FlushKeepsJudged | backroll/src/backend/p2p.rs:304-371 | whatever is handled, an undelayed queue has flagged exactly what was played wrongly, and a delayed one exactly that something came in late |
| RemoteOnly.AlwaysPlayableIff | backroll/src/backend/p2p.rs:409-428 | for every session that can be built: no legal run panics or gives up a frame still to be played, if and only if somebody is local and at most eight play |
| RemoteOnly.RunGetsStuck | backroll/src/input.rs:154-176 | with one or two players, none local: everybody sends three inputs, one frame is played, and the next one is then gone from every queue |
| RemoteOnly.RunGetsLost | backroll/src/sync.rs:103-116 | with three to eight, none local: ten frames are played, and the first input that arrives asks for a state no longer in the ring, a panic |
| TooMany.NothingIsPlayed | backroll/src/sync.rs:221-237 | with more than eight players no legal run ever plays a frame |
| TooMany.FirstFramePanics | backroll/src/input.rs:38-43 | and giving everybody's input and advancing panics, whoever is local and whatever the delay |
| Crowds.CrowdStopsAtEight | backroll/src/backend/p2p.rs:420-521 | over all legal runs of a session with three or more remote players, eight in all at most, nothing is ever confirmed, no frame after the eighth is played, and there every input is refused |
| Crowds.PassesEightIff | backroll/src/backend/p2p.rs:420-521 | a session with a local player can play beyond frame 8 if and only if at most two players are remote and at most eight play |
| InputBuffer.InputEncoder.constructor | backroll/src/protocol/input_buffer.rs:25-34 | nothing pending, nothing acknowledged |
| InputBuffer.InputEncoder.Push | backroll/src/protocol/input_buffer.rs:38-40 | the input joins what is pending |
| InputBuffer.InputEncoder.AcknowledgeFrame | backroll/src/protocol/input_buffer.rs:52-60 | drops what lies before the acknowledged frame, and nothing else |
| InputBuffer.InputEncoder.Encode | backroll/src/protocol/input_buffer.rs:71-84 | everything pending in one packet, as differences from zero; nothing is dropped, and a failed encoding changes nothing |
| InputBuffer.InputDecoder.constructor | backroll/src/protocol/input_buffer.rs:103-112 | nothing decoded yet |
| InputBuffer.InputDecoder.Decode | backroll/src/protocol/input_buffer.rs:122-152 | numbers the values from the start frame and skips those already seen |
| InputBuffer.DeliveryIsExactlyOnce | backroll/src/protocol/input_buffer.rs:38-152 | over any run of pushes, sends, resends and acknowledgements on a network that loses, duplicates and reorders, all emitted batches together are exactly the first inputs pushed, each once and in order, up to the last frame decoded |
| InputBuffer.NextKeepsInvariant | backroll/src/protocol/input_buffer.rs:38-152 | every step keeps sender, receiver and all packets under way consistent |
| InputBuffer.DecodeDelivers | backroll/src/protocol/input_buffer.rs:122-152 | from any packet ever sent the receiver takes exactly the frames it lacks |
| InputBuffer.GenuineIsSound | backroll/src/protocol/compression.rs:60-86 | every packet under way holds complete integers and whole values, as the decoder demands |
| InputBuffer.AcknowledgeKeepsLinked | backroll/src/protocol/input_buffer.rs:52-60 | an acknowledgement never drops an input the receiver still needs |
| InputBuffer.EncodeKeepsLinked | backroll/src/protocol/input_buffer.rs:71-84 | what is sent starts no later than the receiver's next frame; sending fails exactly when too many bytes are pending |
| InputBuffer.GenuineStays | backroll/src/protocol/input_buffer.rs:71-84 | a packet stays good while the sender sends more and the receiver moves on, since it never refers to another packet |
| InputBuffer.EqualInputsOnTheWire | backroll/src/protocol/input_buffer.rs:172-191 | a hundred equal inputs cost nine bytes: the value once, then a run of zeros |
| Convergence.PeersConverge | backroll/src/backend/p2p.rs:349-372 | over any run of two peers and any behaviour of the network no load misses and no packet is too big; if both have the same delay for each player, then whenever both hold everybody's inputs below frame n, their replays up to n agree, clients standing at n are in the same state, and every saved state for n is that replay |
| Agreement.InputsAgreeIffSameDelay | backroll/src/backend/p2p.rs:791-796 | over all runs of two peers, both hold the same inputs for the frames both hold completely, if and only if they have set the same delay for each player |
| Agreement.ReplaysAgreeIffSameDelay | backroll/src/backend/p2p.rs:791-796 | with the same delays no game ever goes apart; the game that records its inputs does so if they differ |
| Convergence.EveryActIsSafe | backroll/src/backend/p2p.rs:349-372 | over any such run every call a peer makes is within the contract of its session and every packet it hears within that of its decoder: frames follow one another, the rings have room, values are whole, so no assertion of theirs fails |
| Convergence.RingsNeverOverflow | backroll/src/input.rs:271-309 | over any such run, between calls and in the middle of the next one, when everything that arrived is in and nothing has been discarded, no queue of either peer holds more of its 120 inputs than 15 and its delay; at most 15 inputs are pending |
| Convergence.CallsAreShort | backroll/src/backend/p2p.rs:389-428 | that bound in the middle of polling and of advancing |
| Progress.PeersNeverDeadlock | backroll/src/backend/p2p.rs:660-727 | from wherever a fair run has brought two peers whose handshakes are done, some continuation by retransmitting, hearing, polling, giving inputs and advancing brings both to any frame one cares to name |
| Progress.Exchange | backroll/src/protocol/mod.rs:311-327 | one retransmission each, heard and polled, leaves both peers with all inputs there are and confirmed as far as both go |
| Progress.OneAckIsEnough | backroll/src/protocol/mod.rs:707-728 | a retransmission that brings anything new is acknowledged on the spot, and once that is heard only the very last input is pending |
| Progress.BehindIsFree | backroll/src/sync.rs:195-202 | the peer with fewer inputs is not at its prediction barrier |
| Convergence.DoKeepsPair | backroll/src/backend/p2p.rs:660-727 | whatever a peer does keeps the invariant of the pair |
| Pairs.QueuesAreShort | backroll/src/sync.rs:195-202 | the two prediction barriers together bound every queue |
| Pairs.PendingIsShort | backroll/src/protocol/input_buffer.rs:52-60 | and what is pending |
| Convergence.HearKeepsPair | backroll/src/protocol/mod.rs:683-729 | a message from the other peer, however old, only brings inputs that are missing |
| Convergence.CallKeepsPair | backroll/src/backend/p2p.rs:706-727 | polling takes everything received into the remote queue |
| Convergence.SameInputs | backroll/src/input.rs:311-349 | two peers that hold everybody's inputs below n hold the same ones |
| Bitfield.RoundTrip | backroll/src/protocol/bitfield.rs:11-71 | decoding an encoding gives back every byte sequence |
| Bitfield.DecodeShift | backroll/src/protocol/bitfield.rs:122-155 | decoding depends only on the bytes from the offset on, wherever they stand in a buffer |
| Bitfield.DecodeAppend | backroll/src/protocol/bitfield.rs:122-155 | decoding x followed by y is decoding x followed by decoding y, for every x and y accepted by the first pass |
| Bitfield.DecodeFrom | backroll/src/protocol/bitfield.rs:122-155 | the second pass fills exactly the length the first pass announces, for every accepted buffer |
| Bitfield.EncodedSize | backroll/src/protocol/bitfield.rs:52-71 | n + (n + 1) / 2 bytes at most for n >= 1 bytes, 1 byte for none |
| Bitfield.EncodedSizeIsTight | backroll/src/protocol/bitfield.rs:52-71 | that bound is reached at every length |
| Bitfield.WireFormat | backroll/src/protocol/bitfield.rs:216-275 | the bytes on the wire for a mixed buffer, a long run and nothing |
| Bitfield.SegmentsExpand | backroll/src/protocol/bitfield.rs:11-50 | splitting a buffer into runs and literals loses nothing |
| Bitfield.SegmentsAreMaximal | backroll/src/protocol/bitfield.rs:11-50 | no two neighbouring runs or literals could have been one, and literals hold no byte of a run |
| Bitfield.OnlyOneIsMaximal | backroll/src/protocol/bitfield.rs:11-50 | there is only one way to split a buffer so, and the encoder takes it |
| Bitfield.CutLiteralIsRejected | backroll/src/protocol/bitfield.rs:163-195 | behind any accepted part, a literal that announces more bytes than there are is reported, with where it would end and how long the buffer is |
| Bitfield.EncodeBytes | backroll/src/protocol/bitfield.rs:11-50 | the loop over modes and pending bytes prints maximal runs and the literals between them |
| Bitfield.WriteContiguous | backroll/src/protocol/bitfield.rs:52-62 | a run is printed as one integer carrying length, mode and bit |
| Bitfield.WriteNoncontiguous | backroll/src/protocol/bitfield.rs:64-72 | a literal is printed behind its length |
| Bitfield.EncodeLen | backroll/src/protocol/bitfield.rs:74-113 | the size computed in advance is the size of the encoding |
| Bitfield.DecodeLength | backroll/src/protocol/bitfield.rs:163-195 | the first pass announces the length, or reports a literal that runs past the end |
| Bitfield.DecodeBytes | backroll/src/protocol/bitfield.rs:122-155 | the two passes together never write out of bounds and give the decoding |
| Bitfield.Fill | backroll/src/protocol/bitfield.rs:133-152 | filling the zeroed result in place gives the decoding |
| Bitfield.FillSlice | backroll/src/protocol/bitfield.rs:141-150 | one slice is written, the rest stays |
| Varint.RoundTrip | backroll/src/protocol/bitfield.rs:273-275 | an encoded integer is read back whatever surrounds it |
| Varint.EncodeDigits | backroll/src/protocol/bitfield.rs:52-62 | seven bits a byte, the lowest first, the top bit set on all but the last, and no byte more than needed |
| Varint.LengthIsSmall | backroll/src/protocol/bitfield.rs:52-62 | how many bytes an integer takes |
| Compression.RoundTrip | backroll/src/protocol/compression.rs:15-86 | whatever could be encoded decodes to the same values against the same base |
| Compression.EncodedIsWhole | backroll/src/protocol/compression.rs:74 | whatever was encoded decodes to a whole number of values |
| Compression.Encode | backroll/src/protocol/compression.rs:15-49 | encoding succeeds if and only if the values are few enough for the size limit |
| Compression.DeltaRoundTrip | backroll/src/protocol/compression.rs:35-46 | applying the differences to the base again gives the values |
| Compression.EqualValuesDelta | backroll/src/protocol/compression.rs:35-46 | of equal values only the first costs anything but zeros |
| Compression.XorUndoes | backroll/src/protocol/compression.rs:39 | the difference of two bytes leads from the first to the second |
| Compression.XorIsExclusive | backroll/src/protocol/compression.rs:39 | bit k of a difference is set exactly when bit k of the two bytes differs |
| Compression.UnequalValuesOnTheWire | backroll/src/protocol/compression.rs:35-46 | the bytes on the wire for lists of inputs that differ |
| Compression.UndeltaLosesNothing | backroll/src/protocol/compression.rs:78-84 | of whole values nothing is dropped: the values given back have just these differences |
| Compression.DecodeMeans | backroll/src/protocol/compression.rs:60-86 | what becomes of any packet of whole values: an error of the run-length code is passed on, more than 65535 bytes are refused, and otherwise the values have the decoded differences |
| Compression.TooBigAtFirst | backroll/src/protocol/compression.rs:42-46 | too many values fail at the first one that reaches the limit, with the size they have then |
| Compression.EncodeValues | backroll/src/protocol/compression.rs:15-49 | the loop fails at the first value that hits the limit, with the size it has then, and else prints all differences |
| Compression.DeltaOne | backroll/src/protocol/compression.rs:36-41 | one value is appended as its difference and becomes the next base in place |
| Compression.DecodeValues | backroll/src/protocol/compression.rs:60-86 | bad run-length codes and oversized results are reported, everything else of whole values is decoded |
| Compression.UndeltaAll | backroll/src/protocol/compression.rs:78-84 | the loop gives every value back, in order |
| Compression.Apply | backroll/src/protocol/compression.rs:79-81 | one difference is applied to the running value in place |
| Handshake.HandshakeIsPrefix | backroll/src/protocol/mod.rs:615-681 | under any replay or reordering of replies the session sees a prefix of Connected, Synchronizing 1 to 4, Synchronized; all of it once the connection runs, which takes six replies echoing the nonce, and the connection has the magic number of the sixth |
| Handshake.EveryEchoCounts | backroll/src/protocol/mod.rs:615-681 | unless it is closed a connection runs exactly after six echoes, and before that the session has seen as much of the script as there were echoes |
| Handshake.ReplyIsAcceptedIff | backroll/src/protocol/mod.rs:615-681 | a reply is accepted exactly when it moves the handshake on, as any echo of the nonce does, or comes from the peer whose number a running connection has; no other reply changes or reports anything |
| Handshake.RunFollowsScript | backroll/src/protocol/mod.rs:615-681 | from any state on, the rest of the script follows, as far as the echoing replies pay for |
| Handshake.StepFollowsScript | backroll/src/protocol/mod.rs:615-681 | one message emits the next event of the script if it moves the handshake on, else none |
| Handshake.MagicIsFixed | backroll/src/protocol/mod.rs:102-127 | a running connection never takes another magic number, through interruptions and whatever comes in |
| Handshake.InterruptionsTakeTurns | backroll/src/protocol/mod.rs:380-424 | a running connection reports silence and its end in turn, each once, and is interrupted exactly while the last thing it noticed was silence |
| Handshake.EarlySilenceRepeats | backroll/src/protocol/mod.rs:402-413 | before it runs, silence changes nothing and is reported again each time |
| Handshake.DisconnectedIsFinal | backroll/src/protocol/mod.rs:249-254 | a closed connection stays closed and reports nothing, whatever messages are still handled |
| Protocol.MergeIgnoresOrder | backroll/src/protocol/mod.rs:691-705 | what a peer knows of all connections depends only on which statuses it has heard, not on how often or in which order |
| Protocol.MergeKnowsAll | backroll/src/protocol/mod.rs:691-705 | of every connection it knows the latest frame it was ever told, and that it is gone if anybody said so |
| Protocol.AssertionHoldsIffInOrder | backroll/src/protocol/mod.rs:695 | the assertion of the merge holds all along if and only if the statuses come in with last frames that never decrease |
| Protocol.ReorderingBreaksAssertion | backroll/src/protocol/mod.rs:695 | of two statuses sent in order, the earlier one coming in last breaks it unless the later one has no news |
| Protocol.Peer.constructor | backroll/src/protocol/mod.rs:200-243 | a new connection is connecting, with nothing sent or received |
| Protocol.Peer.Disconnect | backroll/src/protocol/mod.rs:249-254 | the state becomes final |
| Protocol.Peer.PushReport | backroll/src/protocol/mod.rs:256-265 | reports reach the session only while the connection is open |
| Protocol.Peer.Send | backroll/src/protocol/mod.rs:267-275 | messages are sent only while the connection is open |
| Protocol.Peer.OnSyncRequest | backroll/src/protocol/mod.rs:600-613 | a request is answered with its own nonce; a stranger is refused while running, and a closed connection reports that the remote end is gone |
| Protocol.Peer.OnReply | backroll/src/protocol/mod.rs:615-681 | state, reports and requests move as the handshake of the theorems does |
| Protocol.Peer.SendInput | backroll/src/protocol/mod.rs:290-309 | inputs are queued only while running; everything pending goes out with an acknowledgement |
| Protocol.Peer.SendPendingOutput | backroll/src/protocol/mod.rs:311-327 | a packet of everything pending and the last frame decoded, which cannot fail while little is pending |
| Protocol.Peer.OnInput | backroll/src/protocol/mod.rs:683-729 | statuses are merged; inputs not seen before are reported and acknowledged; what the packet acknowledges is dropped, unless it cannot be decoded or the connection is closed |
| Protocol.Peer.MergeStatus | backroll/src/protocol/mod.rs:691-705 | the loop merges entry by entry and takes over entries never heard of |
| Snapshot.RestoreIsExact | bevy_backroll/src/save_state.rs:46-149 | whatever world a save state is loaded into, saving the result gives the very same state, there is one entity for each id, and registered resources and the id provider are what they were |
| Snapshot.EntityComesBack | bevy_backroll/src/save_state.rs:82-149 | with distinct ids every entity comes back with exactly the registered components it had |
| Snapshot.SavedEntityStays | bevy_backroll/src/save_state.rs:98-115 | with distinct ids every entity whose id was saved survives a load, with all its components of unregistered kinds |
| Snapshot.IdsNeverCollide | bevy_backroll/src/id.rs:30-37 | over any mix of allocations, despawns, saves and loads from an empty start, ids being held for later but not across a load they do not outlive: live ids are distinct and none is the one the provider hands out next; ids in every save state are below its own counter |
| Snapshot.LoadIsSafeIffIdsOutliveIt | bevy_backroll/src/save_state.rs:57-76 | whoever holds ids may keep them across a load if and only if the loaded counter is past all of them and none of them comes back with the load; otherwise two entities may come to share one |
| Snapshot.NextKeepsFreshIds | bevy_backroll/src/save_state.rs:57-115 | every step keeps it so, loading an older counter included |
| Snapshot.ComponentsAreExact | bevy_backroll/src/save_state.rs:82-149 | components come back exactly, kinds that nobody had leaving no trace |
| Snapshot.ResourcesAreExact | bevy_backroll/src/save_state.rs:46-76 | every registered resource is there after a load exactly when it was there at the save, with the same value |
| WorldStore.LiveWorld.constructor | bevy_backroll/src/id.rs:25-27 | an empty world whose counter is 0 |
| WorldStore.LiveWorld.NewId | bevy_backroll/src/id.rs:30-37 | the counter's value is handed out and the counter moves on |
| WorldStore.LiveWorld.Spawn | bevy_backroll/src/save_state.rs:112-114 | a spawned entity is new |
| WorldStore.LiveWorld.Despawn | bevy_backroll/src/save_state.rs:106-108 | an entity goes with its id and all its components |
| WorldStore.LiveWorld.SaveComponents | bevy_backroll/src/save_state.rs:82-96 | one saved value for every id that an entity with the component has |
| WorldStore.LiveWorld.Save | bevy_backroll/src/save_state.rs:46-96 | ids, registered components and registered resources, in whatever order they are visited |
| WorldStore.LiveWorld.SyncNetworkIds | bevy_backroll/src/save_state.rs:98-115 | afterwards there is one entity for every saved id and no other networked one; where an entity had a saved id, one that had it stays with all its components, and only for ids nobody had are there new ones; entities that were never networked keep everything |
| WorldStore.LiveWorld.DespawnUnwanted | bevy_backroll/src/save_state.rs:103-109 | of the entities with a wanted id exactly one stays, with all its components, and the wanted ids nobody had are left over |
| WorldStore.LiveWorld.SpawnAll | bevy_backroll/src/save_state.rs:111-114 | one new entity for each missing id |
| WorldStore.LiveWorld.LoadComponents | bevy_backroll/src/save_state.rs:117-149 | every networked entity has the component exactly when its id was saved with it, and the same one |
| WorldStore.LiveWorld.LoadResource | bevy_backroll/src/save_state.rs:57-76 | the resource is there exactly when it was saved, and is the saved one |
| WorldStore.LiveWorld.LoadAllComponents | bevy_backroll/src/lib.rs:417-425 | loading kind after kind, in any order, loads them all |
| WorldStore.LiveWorld.LoadAllResources | bevy_backroll/src/lib.rs:427-435 | the same for resources, the id provider among them |
| WorldStore.LiveWorld.Load | bevy_backroll/src/lib.rs:335-350 | the whole load satisfies what the restore theorem asks for; whoever stays keeps its components of unregistered kinds, and everything that was never networked or registered is left alone |

## Left out

- Disconnects and everything only they reach (`backroll/src/backend/p2p.rs:237-302` and 322-326, the disconnected bits of a game input): all theorems are about players that stay connected.
- Two local players and a remote one share one encoder that then holds two inputs per frame; the theorems about two peers have one local player each.
- Giving a local player two inputs for one frame: the documentation promises overwriting, the queue demands consecutive frames; one input per local player and frame is a precondition, as is not advancing after a refused input.
- Negative delays: the builder accepts any 32-bit number (`backroll/src/backend/p2p.rs:161`), the model only those from 0 on.
- A delay that two peers change after the first input: `TwoPeers.Act` has no such act; single sessions may change delays at any time.
- The null test at `backroll/src/input.rs:156-158` is modelled as written, although it looks reversed; sessions with a local player never depend on it.
- Offsets other than 0 into a buffer to be encoded; every caller in the repository passes 0.
- Varint: the integers of the `varinteger` crate are modelled as unbounded unsigned LEB128 (section 7.6 of DWARF Version 5); 64-bit overflow is not modelled, and a buffer that ends inside an integer, on which the crate panics, is a precondition of the decoding methods.
- Compression.DecodeValues: a packet whose length is not a multiple of the value size fails the assertion at `backroll/src/protocol/compression.rs:74`; it is a precondition here, which every packet of a Backroll peer meets (`InputBuffer.GenuineIsSound`).
- SyncEngine.SyncState.SynchronizeInputs: the branch for disconnected players (`backroll/src/sync.rs:227-228`) is left out with all disconnects.
- P2P.P2PSession.FlushEvents: a closed channel (`backroll/src/backend/p2p.rs:322-326`) disconnects its player and is left out with all disconnects.
- P2P.P2PSession.DoPoll: the frame number told to the peers and the advice to sleep (`backroll/src/backend/p2p.rs:402-407` and 430-442) only feed network statistics and time synchronisation.
- P2P.P2PSession.HandleEvent: inputs of a disconnected player are ignored (`backroll/src/backend/p2p.rs:351-353`), which is left out with all disconnects.
- P2P.P2PSession.LeastConfirmedByAll: every peer counts as running and connected, as its untouched status says; the rest is left out with all disconnects.
- P2P.P2PSession.Poll: as for `P2P.P2PSession.DoPoll`; the session must have a local player and at most eight players, otherwise see `RemoteOnly.AlwaysPlayableIff`.
- P2P.P2PSession.AdvanceFrame: as for `P2P.P2PSession.Poll`.
- Protocol.Peer.OnReply: the tasks started on entering the running state (heartbeat, reports, resending) are not part of this model; that they may resend at any time is a step of the replication and two-peer runs.
- Frame numbers and ids are unbounded; frames are 32-bit in the original. The end of the id range is a precondition of `NewId`.
- Input values are compared as values, and as bytes where they meet the wire code; alignment casts and uninitialised memory are not modelled.
- Sockets, channels, locks, tasks, timers, packet serialisation, sequence numbers and the packet size limit: a call of the session is one step, and a packet that is dropped anywhere is a lost packet. The handlers of `Protocol.Peer` likewise run one at a time.
- Network statistics, quality reports, time synchronisation, frame stalling and checksums; they influence none of the properties.
- SessionProofs.RollbackRefinesReplay: for sessions with a local player and at most eight players; with others a run can panic, see `RemoteOnly.AlwaysPlayableIff`.
- Convergence.PeersConverge: for two peers, and for values of which fifteen fit one packet buffer, beyond which the original panics on purpose. Between more than two peers only the single sessions are covered.
- Mispredictions.RollbackIff: the batches of undelayed players start at frame 0, which is what peers send.
- InputQueues.InputQueue.ResetPrediction: the frame it is given only serves the assertion of the original and is a ghost parameter.
- WorldStore.LiveWorld.Despawn: the order of commands inside one Bevy stage, change detection and scheduling are not modelled; each stage takes effect before the next.
- Hierarchies, events and everything else of a world that is not a registered component or resource.
