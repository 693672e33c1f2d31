# Verified model of the multi-user DCC throttle

This project models the parts of the system where several processes, timers
or users meet, and proves what each of them keeps. Check it with
`dafny verify dfyconfig.toml`.

| files | what they model |
|---|---|
| `PairingKeys`, `PairingModel`, `PairingStore`, `PairingRuns` | handset pairing in Redis: keys with expiries, the five Lua scripts, the store's methods, runs of them |
| `PairingCodes`, `PairingHistory`, `PairingLabels` | which typed codes succeed, for whom and how often, decided by the history of calls; how long labels stay reserved |
| `PairingSessions`, `PairingMethods`, `SessionWrites` | one session per user; the user index as inverse of the sessions; concurrent writes to one session |
| `SeenFlush`, `Coordinator`, `SweepProofs`, `PublishProtocol` | the coordinator: batched last-seen flush, idle sweep, snapshot publishing |
| `RetryChain`, `DebouncedSend`, `KeyedSend` | retry chains of the web client, with the speed debounce and per key |
| `WsConnection`, `WsProofs`, `WsProgress`, `PendingAcks` | the reconnecting WebSocket and the table of unacknowledged requests |
| `Text`, `CvText`, `CvGrammar`, `CvPrint`, `CvPipe` | the text form of configuration variables: parser, grammar of a line, printer, shell pipe |
| `CvMemory`, `CvBits`, `CvAddress` | decoder memory: bit writes grouped by CV, address programming (NMRA S-9.2.2) |
| `FunctionCache`, `FunctionRuns`, `FunctionRace`, `Pulses`, `EStop` | bus commands: function cache, its runs with everything else that writes the same state, overlapping commands, timed pulses, emergency stops |
| `Options` | the optional value |

Objects whose methods change fields are classes; each method is tied to a
function of the old state, and the theorems are about that function and its
runs. Asynchronous client code is a state machine over its events: timers
firing, promises resolving, the user acting.

## Conventions

- Times are integers in milliseconds. Redis keeps a key through the
  millisecond of its expiry time, so a key that still exists can report a
  PTTL of 0; the state is cleared of expired keys at every clock step.
- Each store method runs at one instant. The scripts are also treated one by
  one, under any interleaving with each other and with pipelines on the
  request keys (`PairingSessions.EveryRunKeepsOneSession`,
  `SessionWrites.NoWriteLost`).
- `FunctionRuns` includes what other throttles do to the station as steps of
  their own; nothing is assumed about when, or whether, the bus reports them.
- Random codes, clocks, replies of the station, failures of Redis batches and
  the order in which maps are walked are parameters or arbitrary choices.

## Where the code does not do what it says

Each of these is a lemma or a contract, with the exact condition.

- A scope update or TTL-keeping touch in a session's last millisecond makes
  it permanent while its index entry expires
  (`PairingSessions.RescopeKeepsIndexedIff`, `LastMillisecondStrandsSession`).
- An index clean-up that is overtaken by a pairing deletes the new entry
  (`PairingSessions.LateDeleteKeepsIndexedIff`, `PairingBeforeLateDelete`).
- Pairing a handset that belongs to another user leaves that user's index
  entry pointing at the new session (`PairingSessions.PairKeepsExactIff`,
  `TakenHandsetMisleadsOwner`).
- The comment at `pkgs/bigfred/remotepairing/store.go:316-320` says that labels
  of abandoned codes do not accumulate; they do for as long as the protocol
  issues a code every five and a half minutes
  (`PairingLabels.AbandonedLabelKeptIff`).
- A last-seen mark that arrives while its bucket is being written is cleared
  without having been written (`SeenFlush.MarkKeptIff`).
- A handset that was braked, unpaired, heard from and paired again keeps its
  old brake mark, so that a later sweep drops it without a brake or stop
  (`SweepProofs.NeverDroppedUnbrakedIff`, `RepairedHandsetDroppedUnbraked`).
- Snapshots are stored after the lock is released, so an older one can win
  (`PublishProtocol.LateStoreWins`, `NewestStaysIff`).
- The gateways clear the idle-brake mark before the coordinator looks, so that
  nothing is flagged; a publish withheld at that moment leaves the change out,
  and a sweep brings it in only if something else is flagged by then, be it by
  a brake or drop of its own (`Coordinator.NoteClientActivity`,
  `Coordinator.Sweep`, `PublishProtocol.UnflaggedStaysOutIff`).
- `onUnauthorized` can fire after dispose
  (`WsProofs.UnauthorizedAfterDisposeIff`).
- A socket that is given up while it connects, but then opens all the same, is
  never closed (`WsProgress.GivenUpSocketStaysOpen`).
- A send that is in flight when its throttle unmounts goes on being retried
  (`DebouncedSend.FailedSendIsRetried`, `QuietAfterUnmount`).
- A request sent under an id that still waits, or that an old ack timer still
  watches, can be left neither resolved nor waiting, or leave the earlier one so
  (`PendingAcks.SendSettlesIff`, `ReusedIdLosesRequest`).
- A range that ends at 65535 never ends (`CvText.RangeLoopEndsIff`), and a
  single printed read does not read back (`CvPipe.RoundTripIff`).
- An address change from long to short, interrupted after CV17, leaves the
  decoder without a valid address (`CvAddress.StrandedIff`).
- A function command is skipped wrongly when another throttle's change has not
  been reported, when a subscription brings back an old value, when a loco
  returns to the roster, or when a new roster loads an old vector from Redis
  (`FunctionRuns.NextSkippedWronglyIff`, `SeedMisleadsIff`,
  `StaleLoadMisleads`); and when commands overlap
  (`FunctionRace.OverlapLosesCommand`, `LosesCommandIff`).
- Skipping a command for an address that the state store does not know leaves
  it unknown, so that an old vector can still be loaded, which a sent command
  would have prevented (`FunctionRuns.SkippingIsSendingIff`, `SkipLetsLoadIn`).
- The layout-wide stop zeroes the cached speed of a loco even when the station
  reported an error for it (`EStop.RadioStopHonestIff`).

## Model

| member | source | states |
|---|---|---|
| `PairingKeys.KeyNameInjective` | pkgs/bigfred/contract/remotepairing.go:27-57 | Two formatted Redis keys are equal only for the same layout, station, key family and field, so five typed maps stand for the one flat key space. |
| `PairingKeys.ReqIdInjective` | pkgs/bigfred/contract/z21pairing.go:12-25 | No two pairing codes share a request identifier, not even across the two protocols. |
| `PairingStore.Store.CompleteScript` | pkgs/bigfred/remotepairing/store.go:48-84 | The script as atomic steps leaves the state, reply and evicted handset of the completion function; without the request it changes nothing. |
| `PairingStore.Store.UnpairScript` | pkgs/bigfred/remotepairing/store.go:86-100 | Deletes the session, and the index entry only if it still names this handset. |
| `PairingStore.Store.TouchScript` | pkgs/bigfred/remotepairing/store.go:107-127 | Rewrites the last-seen time; with a TTL renews session and index alike, without one keeps the remaining PTTL only if it is positive. |
| `PairingStore.Store.TouchBatchScript` | pkgs/bigfred/remotepairing/store.go:134-161 | The loop has the effect of one touch per key, in order. |
| `PairingStore.Store.RescopeScript` | pkgs/bigfred/remotepairing/store.go:166-181 | Replaces the vehicle scope and nothing else, with the remaining PTTL if that is positive; reports whether the session existed. |
| `PairingStore.Store.RejectIfUserPaired` | pkgs/bigfred/remotepairing/store.go:420-436 | Paired only if the index and the session it names both exist; a stale index entry is deleted on the way. |
| `PairingStore.Store.GetPendingByUser` | pkgs/bigfred/remotepairing/store.go:439-461 | The request the user index names; a stale index entry is deleted on the way. |
| `PairingStore.Store.ClearUserPending` | pkgs/bigfred/remotepairing/store.go:773-798 | Removes the request, its index entry and its label together, or nothing. |
| `PairingStore.Store.ClaimCode` | pkgs/bigfred/remotepairing/store.go:281-326 | Claims the label, stores request and index for five minutes and extends the label set to outlive them. |
| `PairingStore.Store.CreatePairingRequest` | pkgs/bigfred/remotepairing/store.go:262-329 | The bounded loop issues the first of 32 drawn codes whose label is free, after clearing the user's previous request; otherwise it reports that the user is paired or that no code was free. |
| `PairingStore.Store.PairVia` | pkgs/bigfred/remotepairing/store.go:530-628 | Invalid codes are rejected, unknown ones and those meant for another handset do not match, and a match completes the pairing. |
| `PairingStore.Store.UpdateSessionScope` | pkgs/bigfred/remotepairing/store.go:695-733 | Returns the rewritten session, read back, or nothing if there was none. |
| `PairingStore.Store.Unpair` | pkgs/bigfred/remotepairing/store.go:737-757 | Removes the handset's session and the index entry of the user it belongs to. |
| `PairingStore.Store.UnpairAllForUser` | pkgs/bigfred/remotepairing/store.go:760-770 | Ends the session the user's index names. |
| `PairingStore.Store.ListActiveByUser` | pkgs/bigfred/remotepairing/store.go:508-526 | Lists the one session the index names; a stale index entry is deleted on the way. |
| `PairingCodes.StepRefinesCodes` | pkgs/bigfred/remotepairing/store.go:262-418 | Every store method keeps the reservation invariant (each live request is named after its code, indexed under its user with the same expiry, and its label reserved at least as long) and moves each user's request exactly as a map from users to requests would. |
| `PairingCodes.FreshForAll` | pkgs/bigfred/remotepairing/store.go:281-287 | A code whose label is free is carried by no user's live request. |
| `PairingCodes.MatchesFound` | pkgs/bigfred/remotepairing/store.go:530-545 | A typed code finds a stored request just when some user's current request matches code and handset. |
| `PairingHistory.HistoryDecidesRequests` | pkgs/bigfred/remotepairing/store.go:262-418 | Over every run Redis holds a user's request just when the history's last ticket for that user (issued, not replaced, cancelled or completed) is at most five minutes old. |
| `PairingHistory.CreateRepliesIff` | pkgs/bigfred/remotepairing/store.go:262-418 | After any run a request for a code is refused exactly to a user whose index names a live session, gives up exactly when every drawn label is taken (the user's own old one does not count), and otherwise issues the first drawn code whose label is free. |
| `PairingHistory.CodeSucceedsIff` | pkgs/bigfred/remotepairing/store.go:605-628 | After any run a typed code succeeds if and only if it is some user's latest ticket, at most five minutes old and open to this handset; it then pairs that user with this handset as of the time given, with the ticket's code and the login, vehicles and brake window asked for, the window kept within 6 to 60 seconds. |
| `PairingHistory.OneOwnerPerCode` | pkgs/bigfred/remotepairing/store.go:270-287 | No two users ever hold live tickets for the same code, so a fresh code never displaces a live one. |
| `PairingHistory.CodeWorksOnce` | pkgs/bigfred/remotepairing/store.go:575-602 | Once a code has paired a handset it never pairs again until it is issued anew, whatever happens in between. |
| `PairingLabels.LabelKeptIff` | pkgs/bigfred/remotepairing/store.go:262-329 | Over every run of calls that do not complete, cancel or replace its request, a label stays reserved throughout if and only if its protocol never goes more than five and a half minutes without issuing a code. |
| `PairingLabels.AbandonedCodeOrphansLabel` | pkgs/bigfred/remotepairing/store.go:315-321 | After any such run a code that nobody used has its label reserved without a request exactly from the end of its five minutes on. |
| `PairingLabels.OrphanSurvivesCreateIff` | pkgs/bigfred/remotepairing/store.go:315-321 | After a new request of the protocol, such a label survives a wait if and only if it is at most five and a half minutes, and the request is given another code. |
| `PairingLabels.AbandonedLabelKeptIff` | pkgs/bigfred/remotepairing/store.go:315-321 | Over every run of every call, an abandoned label is kept throughout if and only if its protocol never falls silent for more than five and a half minutes: on a busy station such labels do accumulate, against the comment. |
| `PairingLabels.StepMovesLabels` | pkgs/bigfred/remotepairing/store.go:262-418 | Every method takes and gives back exactly the labels it should: it takes that of the code issued and gives back that of the request replaced, cancelled or completed; all others stay until their set expires. |
| `PairingSessions.ScriptKeepsIndexed` | pkgs/bigfred/remotepairing/store.go:48-181 | Every script and clock step keeps: each live session is the one its user's index names, and the index outlives it; provided no TTL-keeping write meets a session in its last millisecond. |
| `PairingSessions.EveryRunKeepsOneSession` | pkgs/bigfred/remotepairing/store.go:48-181 | Hence over every interleaving of scripts, expiries and index clean-ups that find their user unpaired no user has two live sessions. |
| `PairingSessions.LateDeleteKeepsIndexedIff` | pkgs/bigfred/remotepairing/store.go:429-433 | The delete of an index entry read earlier keeps the invariant if and only if its user has no session at that moment. |
| `PairingSessions.PairingBeforeLateDelete` | pkgs/bigfred/remotepairing/store.go:429-433 | If the user's pairing completes between the read and the delete, the new session loses its index entry and its user counts as not paired. |
| `PairingMethods.MethodKeepsIndexed` | pkgs/bigfred/remotepairing/store.go:420-526 | Every whole method, its lazy deletes included, keeps each session indexed, also when it takes over another user's handset. |
| `PairingMethods.MethodRunsKeepOneSession` | pkgs/bigfred/remotepairing/store.go:420-770 | So after every run of whole methods from the empty store no user has two live sessions. |
| `PairingMethods.StaleEntryGoes` | pkgs/bigfred/remotepairing/store.go:420-436 | Asking for a code, and listing, delete the user's index entry exactly when its session is gone, and nothing else; the former leaves an empty entry alone. |
| `PairingMethods.StaleRequestGoes` | pkgs/bigfred/remotepairing/store.go:439-461 | Looking for a request deletes its index entry exactly when the request is gone, and nothing else. |
| `PairingSessions.RescopeKeepsIndexedIff` | pkgs/bigfred/remotepairing/store.go:117-121 | A scope update, and a touch without TTL, keeps the index invariant if and only if the session's PTTL is not zero. |
| `PairingSessions.LastMillisecondStrandsSession` | pkgs/bigfred/remotepairing/store.go:174-179 | At PTTL zero the session becomes permanent while its index entry expires, so its user counts as not paired. |
| `PairingSessions.StepRefinesSessions` | pkgs/bigfred/remotepairing/store.go:420-436 | Called for a handset that is free or the user's own, every method keeps the index an exact inverse with equal expiries and moves each user's session, and replies, as a map from users to sessions would. |
| `PairingSessions.CarefulRunsKeepExactIndex` | pkgs/bigfred/remotepairing/store.go:48-181 | So over whole runs of such calls the index is the exact inverse of the sessions. |
| `PairingSessions.IndexAgreesWithScan` | pkgs/bigfred/remotepairing/store.go:507-526 | Then looking a user up in the index agrees with scanning all sessions. |
| `PairingSessions.PairKeepsExactIff` | pkgs/bigfred/remotepairing/store.go:71-77 | A call with a typed code keeps the exact inverse if and only if, before it, no request open to this handset waits under the code or the handset is free or already paired to the user of that request. |
| `PairingSessions.TakenHandsetMisleadsOwner` | pkgs/bigfred/remotepairing/store.go:71-77 | Otherwise the previous user still counts as paired, is listed the new user's session, and ends it by unpairing. |
| `SessionWrites.NoWriteLost` | pkgs/bigfred/remotepairing/store.go:107-181 | In any interleaving of touches and scope updates on a live session the last touch's time, the last update's scope (empty lists included) and the last TTL survive, the TTL unless a write in the last millisecond removes it, everything else is as paired, and no empty list is left as an empty Lua table. |
| `SeenFlush.TouchOneMore` | pkgs/bigfred/remotepairing/store.go:107-127 | Under the one-session invariant, touching one more key amounts to one more mark. |
| `SeenFlush.AnyOrder` | pkgs/bigfred/remotepairing/store.go:107-161 | Touching marked keys one at a time gives the same state in every order. |
| `SeenFlush.SharedUserMakesOrderMatter` | pkgs/bigfred/remotepairing/store.go:122-125 | If two sessions shared a user, order would matter: the invariant is needed. |
| `SeenFlush.BatchIsMarks` | pkgs/bigfred/remotepairing/store.go:134-161 | One batch script has the effect of its marks, whatever else has been written. |
| `SeenFlush.Flusher.Group` | pkgs/bigfred/remotes/coordinator.go:262-278 | The buckets hold each marked key once, under its protocol, with its time. |
| `SeenFlush.Flusher.Write` | pkgs/bigfred/remotes/coordinator.go:279-285 | Writing the buckets in any order has the effect of touching the keys of the buckets that succeed, and returns the keys of those that fail. |
| `SeenFlush.Flusher.Flush` | pkgs/bigfred/remotes/coordinator.go:251-305 | The flush leaves the Redis state of touching every key of a successful bucket, and exactly the other keys marked. |
| `SeenFlush.FlushedSession` | pkgs/bigfred/remotes/coordinator.go:251-305 | Session by session: a marked one whose batch succeeds gets its time, and its expiry anew from the sticky window of its protocol, 72 hours without a policy; any other stays as it is. |
| `SeenFlush.FlushedIndex` | pkgs/bigfred/remotes/coordinator.go:251-305 | The index entry of a session moves along with it and keeps naming it. |
| `SeenFlush.ProtocolIs` | pkgs/bigfred/remotes/inbound/keys.go:18-23 | The protocol of a key is what stands before its first colon, if that is anything. |
| `SeenFlush.MarkKeptIff` | pkgs/bigfred/remotes/coordinator.go:286-304 | A mark that arrives during the flush survives if and only if its key was not marked before or its bucket failed. |
| `Coordinator.Coordinator.MarkDirty` | pkgs/bigfred/remotes/coordinator.go:418-422 | Sets the flag. |
| `Coordinator.Coordinator.PublishSnapshotThrottled` | pkgs/bigfred/remotes/coordinator.go:425-439 | Builds from the current registry, clears the flag and restarts the throttle, or changes nothing at all while throttled or without a publisher. |
| `Coordinator.Coordinator.PublishSnapshot` | pkgs/bigfred/remotes/coordinator.go:442-451 | With a publisher always builds and clears the flag, without one changes nothing. |
| `Coordinator.Coordinator.PublishIfDirty` | pkgs/bigfred/remotes/coordinator.go:456-470 | With a publisher builds just when the flag is set and leaves it clear; otherwise changes nothing. |
| `Coordinator.Coordinator.NoteActivity` | pkgs/bigfred/remotes/coordinator.go:408-414 | Clears a paired client's brake mark, flags that if there was one, and builds unless the publish is withheld. |
| `Coordinator.Coordinator.NoteClientActivity` | pkgs/bigfred/dcc-bus/z21server/clients.go:5-16 | The gateway clears the mark before the coordinator looks: the change is kept track of if and only if something else was flagged or the publish is not withheld. |
| `Coordinator.Coordinator.DropPresence` | pkgs/bigfred/remotes/coordinator.go:655-668 | Removes the client from the registry only, flags that, and builds unless the publish is withheld. |
| `Coordinator.Coordinator.EvictClient` | pkgs/bigfred/remotes/coordinator.go:633-646 | Unpairs first, then removes. |
| `Coordinator.Coordinator.BrakeIfIdle` | pkgs/bigfred/remotes/coordinator.go:523-533 | From any state, brakes and marks a paired client past its window just once, and flags it just then. |
| `Coordinator.Coordinator.RemoveIfSilent` | pkgs/bigfred/remotes/coordinator.go:534-545 | Heartbeat loss stops and drops; otherwise an overdue client is dropped or evicted as its policy says; a removal is flagged, or built at once, and without one nothing changes. |
| `Coordinator.Coordinator.SweepClient` | pkgs/bigfred/remotes/coordinator.go:518-546 | One client under the sweep, from any state: what is left of it, and what was done for it in order; if anything was, no change to the registry is lost any more. |
| `Coordinator.Coordinator.Sweep` | pkgs/bigfred/remotes/coordinator.go:518-549 | From any state, every client once, in any order: the swept registry and exactly the prescribed deeds per client; afterwards the snapshot matches the registry if and only if no change had been lost before or the sweep does something for some client. |
| `SweepProofs.SweepComplete` | pkgs/bigfred/remotes/coordinator.go:518-557 | A client is gone just when its eviction or heartbeat window has passed; one that remains past its brake window is marked, a new mark comes with a brake, and nothing else about it changed. |
| `SweepProofs.UnpairedSwept` | pkgs/bigfred/remotes/coordinator.go:518-582 | An unpaired client stays, as it is, exactly while it has been silent for less than the eviction time of its protocol's policy, 60 seconds without one, whatever the stickiness, and is then evicted. |
| `SweepProofs.PairedSwept` | pkgs/bigfred/remotes/coordinator.go:518-582 | A paired client is braked once silent for its own brake time and the protocol's minimum, stopped and dropped when its monitored heartbeat is lost, and otherwise stays exactly while silent for less than the sticky or plain eviction time, to be dropped with or without its pairing. |
| `SweepProofs.ShownAsIs` | pkgs/bigfred/remotes/coordinator.go:472-500 | A snapshot shows a client exactly while it is connected, with its pairing's user and its brake mark. |
| `SweepProofs.NeverDroppedSilentlyIff` | pkgs/bigfred/remotes/coordinator.go:518-557 | No sweep removes a paired client that was never braked or stopped, if and only if the eviction window is at least 60 s and at least MinBrakeWindow. |
| `SweepProofs.BrakedAtMostOnce` | pkgs/bigfred/remotes/coordinator.go:523-533 | Between two activity notes a connected client is braked at most once, whatever sweeps and session changes happen. |
| `SweepProofs.MarkExplained` | pkgs/bigfred/remotes/coordinator.go:523-533 | Over every life of a client, it is marked just when it was braked since its last packet or that packet left an older mark standing, never both. |
| `SweepProofs.NeverDroppedUnbrakedIff` | pkgs/bigfred/remotes/coordinator.go:518-549 | Under such a policy, a sweep that drops a paired client follows or brings a brake or stop since its last packet if and only if that packet did not leave an older mark standing, or the client is stopped for its lost heartbeat. |
| `SweepProofs.RepairedHandsetDroppedUnbraked` | pkgs/bigfred/remotes/coordinator.go:408-414 | The failing run: braked, unpaired, heard, paired again, and evicted under the default policy without a brake or stop. |
| `PublishProtocol.NoLostPublish` | pkgs/bigfred/remotes/coordinator.go:408-470 | With registry change, flag and build as separate steps of any threads, a change missing from the last built snapshot is flagged or still to be flagged by its thread. |
| `PublishProtocol.SweepCatchesUp` | pkgs/bigfred/remotes/coordinator.go:546-549 | So the end of a sweep with no thread in between leaves snapshot and registry equal. |
| `PublishProtocol.UnflaggedStaysOutIff` | pkgs/bigfred/remotes/coordinator.go:425-470 | Over every run of changes, flags, publishes, sweeps and stores by any threads: a registry change to one client that the last snapshot does not show, and that no later step overrides, gets in if and only if some publish builds without looking at the flag or some sweep finds it up, at first or set since by anyone; else the old state stays. |
| `PublishProtocol.BuildsIff` | pkgs/bigfred/remotes/coordinator.go:425-470 | Over every run a snapshot is built if and only if such a step occurs, and without one the last snapshot stays. |
| `PublishProtocol.OrderedStoresKeepLast` | pkgs/bigfred/remotes/coordinator.go:437-438 | If each store took the oldest snapshot waiting, Redis would hold the last one once none waits. |
| `PublishProtocol.LateStoreWins` | pkgs/bigfred/remotes/coordinator.go:437-469 | They are stored after the lock is released: a run in which an older snapshot stays in Redis with nothing flagged to correct it. |
| `PublishProtocol.NewestStaysIff` | pkgs/bigfred/remotes/coordinator.go:437-469 | After any run, Redis holds the newest snapshot built if and only if the last store was of that one. |
| `RetryChain.ChainsAreBounded` | web/src/hooks/useRetryingSend.ts:3-12 | The bookkeeping of a chain bounds its sends by 18. |
| `RetryBound.EveryChainEnds` | web/src/hooks/useRetryingSend.ts:26-75 | With a clock that never runs back and timers that never fire early, one dispatch makes at most 18 sends, whatever mix of timeouts and offline errors occurs. |
| `RetryBound.EighteenSendsHappen` | web/src/hooks/useRetryingSend.ts:26-75 | The bound is reached. |
| `RetryBound.RetriedIff` | web/src/hooks/useRetryingSend.ts:26-75 | After any events an answer is followed by another attempt 200 ms later if and only if it is one of the first two timeouts, or says offline within three seconds of the dispatch; otherwise the chain settles with it. |
| `DebouncedSend.SpeedSender.Cancel` | web/src/hooks/useRetryingSend.ts:93-100 | Starts a new generation and disarms the retry timer. |
| `DebouncedSend.SpeedSender.Dispatch` | web/src/hooks/useRetryingSend.ts:102-117 | Supersedes the running chain and sends at once. |
| `DebouncedSend.SpeedSender.FlushPending` | web/src/hooks/useDebouncedSpeedSend.ts:28-39 | Sends the waiting move under a new generation, if there is one, and leaves none waiting. |
| `DebouncedSend.SpeedSender.Queue` | web/src/hooks/useDebouncedSpeedSend.ts:41-53 | Cancels the chain and replaces the waiting move. |
| `DebouncedSend.SpeedSender.SendNow` | web/src/hooks/useDebouncedSpeedSend.ts:55-65 | Drops the waiting move and dispatches this one. |
| `DebouncedSend.SpeedSender.OnResult` | web/src/hooks/useRetryingSend.ts:59-73 | A reply to a superseded generation does nothing; a current one settles or arms the next attempt. |
| `DebouncedSend.SpeedSender.OnRetryTimer` | web/src/hooks/useRetryingSend.ts:68-71 | Resends only for the current generation. |
| `DebouncedSend.SpeedSender.OnUnmount` | web/src/hooks/useDebouncedSpeedSend.ts:67-82 | Sends the waiting move and disarms both timers. |
| `DebouncedSend.NoSupersededSend` | web/src/hooks/useDebouncedSpeedSend.ts:28-82 | In every run each frame sent or resent carries the newest move made so far. |
| `DebouncedSend.NewestGoesOut` | web/src/hooks/useDebouncedSpeedSend.ts:28-82 | In every run the newest move, just as the user made it, has been sent or waits with the debounce armed; nothing is ever sent that the user did not ask for. |
| `DebouncedSend.SentIsNewest` | web/src/hooks/useDebouncedSpeedSend.ts:28-82 | After any run exactly the events that should send do, once each and the newest move; its chain is then in flight under the current generation with nothing waiting. |
| `DebouncedSend.FailedSendIsRetried` | web/src/hooks/useRetryingSend.ts:50-75 | After any run a failed send that its budget lets retry is sent again 200 ms later, shown as retrying until then; any other answer leaves nothing to come. |
| `DebouncedSend.QuietAfterUnmount` | web/src/hooks/useDebouncedSpeedSend.ts:67-82 | Unmounting sends the waiting move once, and nothing is sent after that unless a send was in flight, whose retries go on. |
| `DebouncedSend.LiveChainsBounded` | web/src/hooks/useRetryingSend.ts:50-117 | In every run each live chain is within its 18 sends, the current one is in flight or waiting and never both, and while mounted the retrying flag shows exactly whether it is past a failed send. |
| `KeyedSend.KeyedSender.SetKeyRetrying` | web/src/hooks/useRetryingSend.ts:175-185 | Keeps the flag equal to whether any key is retrying. |
| `KeyedSend.KeyedSender.Send` | web/src/hooks/useRetryingSend.ts:187-222 | A new generation for this key only. |
| `KeyedSend.KeyedSender.OnResult` | web/src/hooks/useRetryingSend.ts:50-75 | Settles or arms this key's chain. |
| `KeyedSend.KeyedSender.OnRetryTimer` | web/src/hooks/useRetryingSend.ts:50-75 | Resends for this key's current generation only. |
| `KeyedSend.KeyedSender.OnUnmount` | web/src/hooks/useRetryingSend.ts:224-233 | Disarms every timer. |
| `KeyedSend.KeysDoNotInterfere` | web/src/hooks/useRetryingSend.ts:153-236 | Over every run of steps on other keys a key's generation, timer, send in flight and retry mark stay as they are. |
| `KeyedSend.RetryingShowsSomeKey` | web/src/hooks/useRetryingSend.ts:171-185 | In every run while mounted the flag shows exactly whether some key is in retry, which is exactly while its current chain is past a failed send and unsettled. |
| `KeyedSend.SentIsLatest` | web/src/hooks/useRetryingSend.ts:153-222 | After any run exactly dispatches and due retries send, once each and the latest request of their key, whose chain is then in flight. |
| `KeyedSend.FailedSendIsRetried` | web/src/hooks/useRetryingSend.ts:50-75 | After any run a failed send of a key that its budget lets retry is sent again 200 ms later; any other answer leaves nothing to come for the key. |
| `KeyedSend.QuietAfterUnmount` | web/src/hooks/useRetryingSend.ts:224-233 | Unmounting ends all sending unless a send was in flight, whose retries go on. |
| `WsConnection.Connection.Cleanup` | web/src/hooks/useWsConnection.ts:292-303 | Orphans the latest socket and closes it if open. |
| `WsConnection.Connection.Attach` | web/src/hooks/useWsConnection.ts:180-225 | A socket of the next generation takes over. |
| `WsConnection.Connection.Connect` | web/src/hooks/useWsConnection.ts:175-181 | Nothing after dispose; else timer cleared, old socket cleaned up, new one attached. |
| `WsConnection.Connection.ScheduleReconnect` | web/src/hooks/useWsConnection.ts:189-198 | Arms the timer with the current delay and raises the delay to its cap. |
| `WsConnection.Connection.OnMount` | web/src/hooks/useWsConnection.ts:154-164 | A new effect starts with the base delay and connects. |
| `WsConnection.Connection.OnUnmount` | web/src/hooks/useWsConnection.ts:329-340 | Cleans up, notifies, resets. |
| `WsConnection.Connection.OnReconnectTimer` | web/src/hooks/useWsConnection.ts:197-197 | Connects from the effect that armed it. |
| `WsConnection.Connection.OnConnectTimeout` | web/src/hooks/useWsConnection.ts:200-225 | Orphans a socket that is still connecting and starts its session check. |
| `WsConnection.Connection.OnSocketOpen` | web/src/hooks/useWsConnection.ts:227-236 | Resets the backoff and notifies, for the current generation only. |
| `WsConnection.Connection.OnSocketError` | web/src/hooks/useWsConnection.ts:238-242 | Notifies for the current generation only. |
| `WsConnection.Connection.OnSocketClose` | web/src/hooks/useWsConnection.ts:244-264 | Detaches the socket and starts its session check. |
| `WsConnection.Connection.OnSocketMessage` | web/src/hooks/useWsConnection.ts:266-279 | Reaches the consumer as long as handlers are attached. |
| `WsConnection.Connection.OnPongMissed` | web/src/hooks/useWsConnection.ts:286-290 | Closes the current socket. |
| `WsConnection.Connection.OnCheckDone` | web/src/hooks/useWsConnection.ts:71-84 | The dispose flag is the one passed when the check began: unauthorized is reported on the generation alone, everything else on both. |
| `WsConnection.Connection.ReconnectNow` | web/src/hooks/useWsConnection.ts:309-320 | Connects at once unless a socket is open or connecting. |
| `WsProofs.OneThingAtATime` | web/src/hooks/useWsConnection.ts:154-340 | In every reachable state at most one of these exists: an attached socket of the current generation, its session check, an armed reconnect timer; and none of socket and timer after dispose. |
| `WsProgress.KeepsTryingIff` | web/src/hooks/useWsConnection.ts:154-340 | In every reachable mounted state at least one of these exists as well, if and only if the consumer has not been told that the session of the current generation is unauthorized. |
| `WsProgress.LossIsRetried` | web/src/hooks/useWsConnection.ts:189-264 | After any run, when the attached socket closes or fails to connect in time, the check that follows schedules a reconnect unless the session is unauthorized, and its timer makes an attempt of the next generation. |
| `WsProgress.VisibleReconnectsIff` | web/src/hooks/useWsConnection.ts:309-323 | The page becoming visible makes a new attempt if and only if the attached socket is neither open nor connecting. |
| `WsProgress.CheckReportsIff` | web/src/hooks/useWsConnection.ts:71-84 | A check of the current generation reports an unauthorized session if and only if it is and the attempt was never open; otherwise, while mounted, it tells of the close and schedules the reconnect. |
| `WsProgress.AttachedIsHeard` | web/src/hooks/useWsConnection.ts:227-279 | An open, error, message or pong reaches the consumer if and only if its socket is the attached one. |
| `WsProgress.ReconnectingIff` | web/src/hooks/useWsConnection.ts:175-236 | The reconnecting flag is shown exactly when the connection has been open since the mount, and the current attempt has not or the next one is scheduled. |
| `WsProgress.OpenedIsClosed` | web/src/hooks/useWsConnection.ts:292-301 | Whatever the consumer saw open is closing or closed once it is not the current socket. |
| `WsProgress.MissedPongCloses` | web/src/hooks/useWsConnection.ts:286-290 | A missed pong closes the attached socket, so that the attempt can only end. |
| `WsProgress.GivenUpSocketStaysOpen` | web/src/hooks/useWsConnection.ts:200-205 | The exception: a socket given up while connecting that opens all the same stays open beside the new one. |
| `WsProofs.NoStaleCallback` | web/src/hooks/useWsConnection.ts:227-279 | In every run no open, close, error, message or pong callback comes from an older generation or after dispose. |
| `WsProofs.BackoffIsLinear` | web/src/hooks/useWsConnection.ts:189-198 | After k reconnects scheduled since the last open the next delay is min(interval + k*step, max) when interval <= max, and the armed timer has the one before; for the current options, however often they changed. |
| `WsProgress.BackoffCountsFailures` | web/src/hooks/useWsConnection.ts:189-198 | That count is what the consumer was told: the closes since the last open or dispose. |
| `WsProofs.UnauthorizedAfterDisposeIff` | web/src/hooks/useWsConnection.ts:71-84 | From every reachable mounted state, the unauthorized callback can still fire after dispose and before the next mount if and only if a failed handshake of the current generation is being checked at dispose. |
| `PendingAcks.AckTable.SendRequest` | web/src/context/DccBusContext.tsx:256-274 | Offline at once, or entered in the table with its own timer. |
| `PendingAcks.AckTable.OnAck` | web/src/context/DccBusContext.tsx:189-201 | Resolves and removes the request of that id, if it waits. |
| `PendingAcks.AckTable.OnAckTimer` | web/src/context/DccBusContext.tsx:267-271 | Resolves the timer's own promise if its id is in the table. |
| `PendingAcks.AckTable.OnClose` | web/src/context/DccBusContext.tsx:136-155 | Every waiting request fails once, whatever the order, and the table is empty. |
| `PendingAcks.ResolvedExactlyOnce` | web/src/context/DccBusContext.tsx:136-274 | In every run with fresh ids each request has been resolved exactly once or still waits with its own timer armed, never both; with no timer left nothing waits. |
| `PendingAcks.FirstAnswerCounts` | web/src/context/DccBusContext.tsx:136-274 | In every run with fresh ids a request is answered by the first thing that concerns it and by nothing after: at once if the socket was not open, else with the verdict of its ack, by its timer or by the close. |
| `PendingAcks.SendSettlesIff` | web/src/context/DccBusContext.tsx:264-271 | After any run with fresh ids, a send on an open socket leaves every later run with fresh ids resolving each request once or keeping it waiting, never both, if and only if its own id is neither waiting nor watched by an old timer. |
| `PendingAcks.ReusedIdLosesRequest` | web/src/context/DccBusContext.tsx:264-271 | With a reused id a request is lost for good: neither resolved nor pending. |
| `CvText.Expand` | pkgs/loco/syntax/cv.go:62-64 | The range loop sets exactly the range, for ends below 65535. |
| `CvText.Sorted` | pkgs/loco/syntax/cv.go:84-90 | Lists the map's entries exactly, in strictly ascending order. |
| `CvText.ParseCVString` | pkgs/loco/syntax/cv.go:16-92 | Returns the listing of what the text's lines mean, an error if a line is malformed, and does not return if a range ends at 65535. |
| `CvText.LastOneWins` | pkgs/loco/syntax/cv.go:22-82 | Each CV has the value of the last assignment or range that covers it, and no other CV is set. |
| `CvGrammar.ReadIff` | pkgs/loco/syntax/cv.go:22-82 | A line is read as an assignment or range if and only if it is written like one (numbers in any spacing, with a prefix cv in any case or none, a value or none, a comment or none), and as exactly what it says; numbers beyond 16 bits and spans that run backwards are errors. |
| `CvGrammar.SkippedIff` | pkgs/loco/syntax/cv.go:22-36 | A line is skipped if and only if nothing but spaces stands before its comment. |
| `CvGrammar.WrittenIsRead` | pkgs/loco/syntax/cv.go:22-82 | Whatever is written by that grammar is read as what it says. |
| `CvGrammar.ReadIsWritten` | pkgs/loco/syntax/cv.go:22-82 | Whatever is read as an assignment is written by that grammar. |
| `CvText.AcceptedIff` | pkgs/loco/syntax/cv.go:51-79 | A text is accepted if and only if every line is well formed and no range ends at 65535. |
| `CvText.RangeLoopEndsIff` | pkgs/loco/syntax/cv.go:62-64 | The uint16 counter passes the end of a range if and only if that end is below 65535. |
| `CvText.ListingUnique` | pkgs/loco/syntax/cv.go:84-91 | The ascending listing of a map is unique, so the map order met on the way does not show. |
| `CvPrint.ParsesBack` | pkgs/loco/syntax/cv.go:37-81 | A printed assignment is parsed as that assignment. |
| `CvPrint.ListParsesToItself` | pkgs/loco/syntax/cv.go:16-92 | An ascending comma-separated list of assignments parses to itself. |
| `CvPipe.PrintCVReads` | pkgs/loco/cli/print.go:18-40 | Prints nothing, one bare value or one numbered line per read, and returns the last error. |
| `CvPipe.ParseArgsAsCVs` | pkgs/loco/cli/cv.go:211-251 | Glues the arguments with spaces, skipping blank ones, and appends standard input with newlines turned into commas. |
| `CvPipe.GluedIsEchoed` | pkgs/loco/cli/cv.go:232-244 | Arguments none of which is blank are joined by single spaces. |
| `CvPipe.BlankIsSkipped` | pkgs/loco/cli/cv.go:232-244 | A blank argument after the first might as well not be there. |
| `CvPipe.PipedReadsOverrule` | pkgs/loco/cli/cv.go:211-251 | Two or more error-free reads piped in overrule what the arguments before the dash assign and add the rest. |
| `CvPipe.PipedErrorRejected` | pkgs/loco/cli/print.go:32-36 | If one of them failed, the piped text is rejected as a whole. |
| `CvPipe.LoneValueMeans` | pkgs/loco/cli/print.go:22-28 | A single piped value is taken for the number of a CV to be set to zero. |
| `CvPipe.RoundTripIff` | pkgs/loco/cli/print.go:18-40 | Error-free ascending reads piped alone come back as they were if and only if there is not exactly one (or it is CV 0 reading 0). |
| `CvPipe.Pipe` | pkgs/loco/cli/cv.go:211-251 | Printing, joining and parsing returns exactly the entries read. |
| `CvMemory.OnlyThatBit` | pkgs/loco/syntax/cv_bit.go:97-102 | Setting or clearing a bit leaves every other bit of a two's complement int as it was. |
| `CvBits.ApplyCVBits` | pkgs/loco/syntax/cv_bit.go:92-105 | The loop applies the bits in order, or fails at the first out of range. |
| `CvBits.BitsAfter` | pkgs/loco/syntax/cv_bit.go:92-105 | Each bit ends as its last assignment says; the others keep their value. |
| `CvBits.GroupCVBitAssignments` | pkgs/loco/app/cv.go:134-144 | Groups keep input order and hold exactly the assignments of their CV; the order is that of first mention, without repeats. |
| `CvBits.SeenInOrder` | pkgs/loco/app/cv.go:134-144 | The order is that of first mentions: before any mention of a later CV an earlier one has been mentioned. |
| `CvBits.GroupingKeepsMeaning` | pkgs/loco/app/cv.go:100-127 | One read-modify-write per CV leaves exactly the memory of one per assignment. |
| `CvBits.BitsAfterAll` | pkgs/loco/app/cv.go:100-127 | For every CV and bit: the last assignment decides, anything else is untouched. |
| `CvBits.ModifyCV` | pkgs/loco/app/cv.go:105-123 | One CV is changed as its assignments say, or not at all, with the reason. |
| `CvBits.SetCVBits` | pkgs/loco/app/cv.go:91-130 | Wherever it stops, reported CVs have their final value and all others their old one, and the next one was unreadable, had a bit above 7 or was unwritable, as the reason says; with none of these it succeeds, and then the memory is that of one write per assignment. |
| `CvAddress.TextParsesToWrites` | pkgs/loco/app/addr.go:63-75 | The parser turns the address text into exactly the intended writes, CV29 last. |
| `CvAddress.WritesDecode` | pkgs/loco/app/addr.go:32-50 | For every address up to 10239, every CV29 and any prior memory the written decoder answers to that address, short exactly for 1 to 127. |
| `CvAddress.WritesTouchOnly` | pkgs/loco/app/addr.go:52-75 | At every stage other CVs, CV1 for a long address, and all bits of CV29 but bit 5 are unchanged; bit 5 too until the last write. |
| `CvAddress.InterruptedWrites` | pkgs/loco/app/addr.go:170-184 | What a decoder with a valid address answers to after each prefix of the writes. |
| `CvAddress.StrandedIff` | pkgs/loco/app/addr.go:170-184 | Stopping early leaves no valid address if and only if a long one was being replaced by a short one and CV17 was already cleared. |
| `CvAddress.SetAddress` | pkgs/loco/app/addr.go:149-186 | Reads CV29, rejects addresses out of range, writes a prefix of the entries up to the first failure; on success the decoder answers to the address. |
| `FunctionCache.Router.Stage` | pkgs/bigfred/dcc-bus/service/function_cache.go:47-54 | Records the new value and returns the old one. |
| `FunctionCache.Router.Rollback` | pkgs/bigfred/dcc-bus/service/function_cache.go:57-66 | Restores exactly what Stage found. |
| `FunctionCache.Router.SetLocoFunction` | pkgs/bigfred/dcc-bus/cmd/functions.go:45-78 | Skipped, accepted everywhere alike, or refused without a trace; a slot error is tried once more. |
| `FunctionCache.Router.SetLocoFunctionWithRetry` | pkgs/bigfred/dcc-bus/cmd/functions.go:30-43 | At most retry + 1 attempts; with none at all it reports success. |
| `FunctionCache.AllOrNothing` | pkgs/bigfred/dcc-bus/cmd/functions.go:30-78 | After any number of attempts either nothing changed or exactly this function did, in cache, store and station; failure is always the former. |
| `FunctionCache.RetriedFailsIff` | pkgs/bigfred/dcc-bus/cmd/functions.go:30-43 | It fails if and only if there is something to send and no attempt gets through. |
| `FunctionCache.Router.Seed` | pkgs/bigfred/dcc-bus/cmd/subscribe.go:81-87 | The loop copies the store's vector, functions 0 to 31, into the cache. |
| `FunctionCache.Router.ApplyObservation` | pkgs/bigfred/dcc-bus/state/loco_store.go:209-242 | The store takes over every function of a report up to 28, and says whether anything was news to it. |
| `FunctionCache.Router.Observe` | pkgs/bigfred/dcc-bus/service/state_feed.go:163-200 | With nobody watching, the report goes to the cache alone; otherwise to the store, and to the cache only if it was news. |
| `FunctionCache.Router.Retire` | pkgs/bigfred/dcc-bus/cmd/roster_retire.go:36-53 | Switches functions 0 to 31 off at the station as far as it agrees, and forgets the address in the cache but not in the store. |
| `FunctionCache.Router.LoadMissingFromRedis` | pkgs/bigfred/dcc-bus/state/loco_store.go:57-79 | The loop takes over what Redis has for the addresses that the store does not know, and nothing else. |
| `FunctionRuns.SkippingIsSendingIff` | pkgs/bigfred/dcc-bus/cmd/functions.go:45-78 | Over every run of commands, other throttles, reports, subscriptions, drives, loads from Redis and removals: station and store are throughout as if every command had been sent, if and only if no command that the station would have obeyed is skipped while the station has the other value, and no vector with a function on is loaded for an address that only skipped commands would have made known. |
| `FunctionRuns.HistoryDecides` | pkgs/bigfred/dcc-bus/service/state_feed.go:163-200 | After every run station, store, vector and cache hold for each function exactly what the last acceptance, other throttle, report, load, subscription or removal says, and the store knows exactly the addresses the history says. |
| `FunctionRuns.NextSkippedWronglyIff` | pkgs/bigfred/dcc-bus/cmd/functions.go:117-126 | The next command for a value is skipped wrongly if and only if the last words of cache and store are for that value and the station's is against it. |
| `FunctionRuns.OnlyUnreportedMislead` | pkgs/bigfred/dcc-bus/cmd/functions.go:117-126 | Over every run with truthful reports, only a function that was last switched at the station past the store, or loaded from Redis against the station, and since then neither reported to the store nor commanded with success, can be skipped wrongly. |
| `FunctionRuns.UndisturbedRunsAgree` | pkgs/bigfred/dcc-bus/cmd/functions.go:45-78 | Among our own commands, drives, loads and removals alone a sound cache is never observable, if it holds only addresses the store knows or nothing is loaded. |
| `FunctionRuns.UnreportedThrottle` | pkgs/bigfred/dcc-bus/cmd/functions.go:117-126 | The failing run: another throttle switches a function off, and our next on is skipped. |
| `FunctionRuns.SubscriptionRevivesOldValue` | pkgs/bigfred/dcc-bus/service/state_feed.go:169-182 | A report while nobody watches mends the cache only; the next subscription brings the old value back into it, and the next command is skipped. |
| `FunctionRuns.RetiredLocoMisleads` | pkgs/bigfred/dcc-bus/cmd/roster_retire.go:32-68 | A loco taken off the roster and subscribed to again: its functions are off, but an on is skipped. |
| `FunctionRuns.StaleLoadMisleads` | pkgs/bigfred/dcc-bus/cmd/router.go:195-206 | An old vector in Redis, loaded with a new roster and subscribed to: an on is skipped although nothing was ever switched. |
| `FunctionRuns.SkipLetsLoadIn` | pkgs/bigfred/dcc-bus/state/loco_store.go:57-79 | A run without a wrong skip in which the store shows a function on that it would show off had the skipped command been sent. |
| `FunctionRuns.SeedMisleadsIff` | pkgs/bigfred/dcc-bus/cmd/subscribe.go:81-87 | Right after a subscription some command for a function of the vector is skipped wrongly if and only if the store's last word was not the station's. |
| `FunctionRace.OneByOneNeverLoses` | pkgs/bigfred/dcc-bus/cmd/functions.go:45-78 | Commands that do not overlap never lose one. |
| `FunctionRace.OverlapLosesCommand` | pkgs/bigfred/dcc-bus/cmd/functions.go:45-78 | The failing run: two overlapping commands leave cache and store saying on while the station has it off, so that the next on is skipped. |
| `FunctionRace.AgreeIff` | pkgs/bigfred/dcc-bus/cmd/functions.go:45-78 | After any interleaving of commands for a function, refusals included, cache and station agree if and only if the last stage or rollback and the last acceptance carry the same value; likewise store and station for the last record. |
| `FunctionRace.LosesCommandIff` | pkgs/bigfred/dcc-bus/cmd/functions.go:45-78 | The next command for a value is skipped wrongly if and only if the last stage or rollback and the last record carry it and the last acceptance the other. |
| `Pulses.Pulser.MarkTimedFunctionStarted` | pkgs/bigfred/dcc-bus/cmd/functions.go:16-22 | Marks, and reports whether the mark is new. |
| `Pulses.Pulser.MarkTimedFunctionStopped` | pkgs/bigfred/dcc-bus/cmd/functions.go:24-28 | Clears the mark. |
| `Pulses.Pulser.RequestPulse` | pkgs/bigfred/dcc-bus/cmd/functions.go:80-89 | Starts a pulse with retry + 1 attempts if the mark is new, else nothing at all. |
| `Pulses.Pulser.OnReply` | pkgs/bigfred/dcc-bus/cmd/functions.go:30-43 | An accepted on starts the hold, the last refused one gives up; off ends when accepted or out of attempts. |
| `Pulses.Pulser.OnTimer` | pkgs/bigfred/dcc-bus/cmd/functions.go:103-105 | The end of the hold starts the calls for off. |
| `Pulses.Pulser.OnEnd` | pkgs/bigfred/dcc-bus/cmd/functions.go:92-104 | Clears the mark and ends the pulse, after a failed on or after the calls for off. |
| `Pulses.MarkedIffPulsing` | pkgs/bigfred/dcc-bus/cmd/functions.go:80-115 | In any interleaving a function is marked just when a pulse for it is switching on, holding or switching off, and there are never two. |
| `Pulses.PulsesAreOrderly` | pkgs/bigfred/dcc-bus/cmd/functions.go:80-115 | The calls of one function's pulses never mix, and no mark clears on a function that was switched on without a call to switch it off. |
| `Pulses.PulseIsShort` | pkgs/bigfred/dcc-bus/cmd/functions.go:30-43 | One pulse makes at most retry + 1 calls for on, at most as many for off, and no more than two steps besides, however pulses interleave. |
| `Pulses.PulseRunsItsCourse` | pkgs/bigfred/dcc-bus/cmd/functions.go:30-115 | However pulses interleave, on is tried until accepted, at most retry + 1 times, and only then off, again until accepted and at most so often; at the end on was refused every time, or it was accepted and off was accepted or refused every time. |
| `EStop.Daemon.EmergencyStopLoco` | pkgs/bigfred/dcc-bus/cmd/estop.go:150-156 | One command; the loco stands if the station agrees. |
| `EStop.Daemon.StopLoop` | pkgs/bigfred/dcc-bus/cmd/estop.go:33-53 | The loop stops in order the locos that are wanted at their turn; only those the station stopped are zeroed and reported, and of them those with dead-man functions have these set off. |
| `EStop.Daemon.ApplyStops` | pkgs/bigfred/dcc-bus/cmd/estop.go:32-66 | The same with an audit record of the affected locos, or none. |
| `EStop.Daemon.ApplyEStopAll` | pkgs/bigfred/dcc-bus/cmd/estop.go:128-148 | Every roster loco gets a command; all but the superseded are zeroed in the cache. |
| `EStop.CollectHandsetDriveTargets` | pkgs/bigfred/dcc-bus/cmd/handset_drive.go:25-58 | The targets are exactly the subscribed locos and those in scope under the user's control, without repeats. |
| `EStop.Daemon.ApplyHandsetIdleBrake` | pkgs/bigfred/dcc-bus/cmd/handset_drive.go:72-78 | Afterwards every target's cached speed is at most 1 unless the station refused; exactly the moving targets get one command each, and the dead-man functions of those stopped go off once; nothing else changes. |
| `EStop.EachDecided` | pkgs/bigfred/dcc-bus/cmd/estop.go:32-53 | On a list without repeats each loco is judged by its state beforehand: one that moves faster than step 1, or when all are stopped is not known to stand, is set to speed zero in its direction under the given user if the station agrees; any other stays as it is. |
| `EStop.EachListed` | pkgs/bigfred/dcc-bus/cmd/estop.go:32-66 | Exactly such a loco gets a command, counts as affected if the station agrees, and has its dead-man functions set off if it has any. |
| `EStop.OneStopEach` | pkgs/bigfred/dcc-bus/cmd/estop.go:95-116 | Exactly the wanted locos get a command, one each. |
| `EStop.RepeatedBrakeIsQuiet` | pkgs/bigfred/dcc-bus/cmd/estop.go:68-77 | After a round of stops that all succeeded another one over the same locos sends nothing and changes nothing. |
| `EStop.SecondIdleBrakeIsQuiet` | pkgs/bigfred/dcc-bus/cmd/handset_drive.go:72-78 | So an idle brake made twice sends nothing the second time. |
| `EStop.StopsKeepHonest` | pkgs/bigfred/dcc-bus/cmd/estop.go:32-116 | Whatever the station replies, these stops never leave a driven loco cached as standing. |
| `EStop.RadioStopHonestIff` | pkgs/bigfred/dcc-bus/cmd/estop.go:128-148 | The layout-wide stop keeps the cache honest if and only if the station reports no error for a moving loco. |
| `EStop.FailedRadioStopHidesLoco` | pkgs/bigfred/dcc-bus/cmd/estop.go:128-148 | After such an error the loco runs on and no brake for moving locos sends it another stop. |

## Left out

- Redis errors inside a store method, networking, pub/sub and the wiring of the daemons: only the failure of a whole batch in the flush is modelled.
- `CreatePending`, the generic request: it does not reserve labels, so the claims about codes do not cover it.
- Durations below a millisecond, and numbers that JSON or Lua would print in exponent form (user ids from 10^14 on).
- `displayLabel`, login and layout fields that no decision depends on; the index of requests stores the request identifier instead of the full key it is part of.
- `PairingStore.Store.PairVia`: the read of the request and the completion script run at one instant, as do all methods, although the script alone is what makes a completion atomic.
- The registry and drive types behind the coordinator: a map of clients with the operations used, and a log of brakes, stops, unpairs and drops; the registry's per-client copy of a seen mark is not kept.
- The eviction and unpair hooks, virtual locos and the per-protocol session-sync handlers: their registry effects appear as arbitrary session changes.
- Ping frames of the WebSocket and the contents of messages; pong timing is an arbitrary watchdog event.
- `Text.ToLower` lowers ASCII letters only, and `Text.IsSpace` works on characters, not on invalid UTF-8.
- The text form of bit assignments (`CV29b5=1`): finite, and it only feeds `CvBits` with bits up to 7.
- A negative CV29 read and a failed write that the decoder applied all the same: a failing write leaves the memory as it was, an unset CV reads zero.
- Function commands with the state store's user and source fields, broadcasts and slot leases; `EStop` keeps user, source and time of a loco because the stop rules read them.
- `SetFromBus` of the state store, which nothing calls; the replies of Redis to a load, a failed read counting as nothing found.
- EStop.Daemon.StopLoop: records which locos have their dead-man functions set off, but not the pulse and the light that follow, which `Pulses` and `FunctionCache` model.
- FunctionCache.Router.Observe: only for locos on the roster, since reports about others are ignored, and without the window in which a report's speed and direction are held back; whether those changed is an arbitrary input.
- `EStop.CollectHandsetDriveTargets`: a daemon without a state store, where every loco counts as controlled.
- Floating-point speed scaling, gamepads, React pages, boot stop and key registry.
