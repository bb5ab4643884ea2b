# CardBridge verified

A Dafny model of the parts of CardBridge that carry state: the macOS bridge that lets several
handheld devices share one keyboard and one audio output, the virtual microphone driver it feeds,
and the device firmware that connects to it. Each module states what a component keeps over every
run, or that a fast form does what a simple one does, and proves it for all inputs.

`dafny verify dfyconfig.toml` checks everything.

## How the model is built

Most components come in two files. The first one describes the component on values: a datatype for
its state, a function for each operation, a run as a sequence of events, and lemmas about all runs.
The second one is the component as the program has it, a class whose methods change fields, arrays
and maps in place. Each of its methods ends in the state the function gives, so what is proved of
every run holds of every use of the object. Where an invariant is proved of the runs, the object's
`Valid()` is that invariant, and its methods keep it.

| files | component |
|---|---|
| `JitterBuffer`, `JitterRuns`, `JitterLaws` | the jitter buffer of one audio stream: order, starvation, resynchronisation, eviction, and when it plays |
| `Resampler` | the output callback as a streaming linear resampler |
| `Devices`, `KeyArbitration`, `AudioLease`, `Bridge`, `BridgeApp` | the registry, the shared keyboard and the microphone lease, alone and together |
| `KeyLaws`, `LeaseLaws`, `LeaseMarks`, `StreamOrder`, `Playback` | who holds a key, who owns the lease, and what is heard, told from the messages |
| `Subscriptions`, `SubscriptionLaws`, `LostChanges`, `TopicSession` | topic subscriptions and their updates |
| `SessionTail`, `SessionLines`, `SessionMonitor` | the incremental reader of session logs |
| `UsageLedger`, `UsageStore` | token counters as deltas since a baseline |
| `AgentSessions`, `AgentLaws`, `AgentBound`, `AgentStore` | the store of agent sessions, its bound and its snapshots |
| `CodexHooks`, `HooksFile` | installing and removing the hook in the user's hooks file |
| `RingBuffer`, `RingDriver` | the driver's ring buffer |
| `Pairing`, `PairingRuns`, `PairingLaws`, `PairingManager` | the device's connection machine |
| `KeyTransmission`, `KeyNames`, `KeyPresses`, `KeyTransmitter` | key differences as up and down events, and their names |
| `ActivityWrap`, `ActivityLines`, `ActivityScreen` | wrapping the activity text |
| `PetRle`, `PetDrawing` | packing and drawing the pet's frames |

The files whose names end in `Laws`, and `Playback`, `SessionLines`, `ActivityLines` and `KeyPresses`, say what
the operations achieve, told from their inputs and the state before.

What the outside decides is part of an event, or an arbitrary function, and the theorems hold for
every choice: whether the key injector accepts a press, which registered session authenticates a
datagram, whether a capability was negotiated, whether a send succeeds, what the clock says, how
wide a font draws, what a pattern finds in a line. In `Pairing` all such answers come from an
`Oracle`, one for each question in the order the code asks them. A stretch of code between two
awaits is one event; in `Subscriptions` the send of an update is two, so that anything can come
between.

Conventions. An audio payload is the frame of 320 samples it decodes to. An ordered dictionary is
an ascending list, or a list in insertion order. A session object is named by its connection, and
what is kept of it is kept per connection, so the audio output reading a session's buffer is the
name of that session. Samples, gains and positions in the audio stream are exact real numbers.
Times are whole numbers.

## Where the code and what is said of it differ

- The late teardown of a replaced session releases the lease of its replacement
  (`Bridges.ReplacementLosesLease`, with the exact condition `Bridges.TeardownTakesLeaseIff`), and
  leaves the replacement's own `audio_lease_state` at "owner" while the lease is free
  (`LeaseMarks.ReplacementStaysMarked`). Nothing else makes the two differ (`LeaseMarks.RunAgreesIff`).
- The resampler drifts for output rates below 8 kHz (`Resampler.NeverDriftsIff`).
- A topic change that arrives while the send of the same topic is awaited is dropped
  (`LostChanges.ChangeCanBeLost`). When exactly is `LostChanges.SendLosesIff`; no later flush makes up
  for it, and it stays lost until the topic changes again or is given up (`LostChanges.MissedIff`).
- A comment in the firmware says that nothing touches the socket while a worker connects; submitting
  a pair code does (`PairingRuns.RaceHappens`), and nothing else (`PairingRuns.RacesIffSubmitted`).
- A Mac just chosen is meant to be dialled at once, but its deadline is the time 0, which the signed
  comparison takes for the future from 2^31 ms of uptime on (`PairingLaws.ChoiceIsDueIff`).
- Sequence numbers wrap at 2^32, but packets are sorted as numbers: a stream that starts across the
  wrap starts with number 0 (`JitterLaws.StartsInOrderIff`).
- A switch that is down is meant to keep its key down until it is released, but the list holds six
  keys, modifiers first: a seventh can send one up (`KeyNames.SeventhKeyGoesUp`). When exactly is
  `KeyNames.NameStaysIff`.
- The agent store is meant to hold 32 sessions, but some events return before it is trimmed
  (`AgentBounds.SessionsPileUp`). When exactly the bound holds is `AgentBounds.StepIsBoundedIff`,
  and of runs `AgentBounds.RunIsBoundedIff`.

## Model

| member | source | states |
|---|---|---|
| `JitterRuns.RunBalances` | bridge/agent/cardbridge/audio.py:32-100 | over any run of feeds, single frames, reads and resets, each packet on hand or accepted ends up on hand, played or discarded, exactly once; `received` counts the accepted ones; less than one frame of samples is left over |
| `JitterRuns.FramesAreNumbered` | bridge/agent/cardbridge/audio.py:56-82 | while a started buffer neither resynchronises nor is reset, frame k, pulled alone or by a read, is silence or the packet numbered k past the expected number, modulo 2^32 |
| `JitterRuns.StarvationIsBounded` | bridge/agent/cardbridge/audio.py:34-82 | a started buffer with p packets that accepts nothing is waiting again within (p+1) times the starvation limit of frames, however many late packets come, and then accepts any packet |
| `JitterRuns.FeedAllKeepsLargest` | bridge/agent/cardbridge/audio.py:32-54 | feeding packets with distinct numbers to a stopped empty buffer leaves the sorted list of the `max_frames` largest, and changes nothing else but the count |
| `JitterRuns.ArrivalOrderDoesNotMatter` | bridge/agent/cardbridge/audio.py:32-54 | feeding any permutation of such packets leaves the same buffer |
| `JitterRuns.ReadsCompose` | bridge/agent/cardbridge/audio.py:84-90 | reading a samples and then c is reading a + c: same samples, same final state |
| `JitterRuns.FillDecodes` | bridge/agent/cardbridge/audio.py:84-90 | the samples on hand after filling are those before it followed by the decoded frames, silence being zeros |
| `JitterRuns.FillIsOnHand` | bridge/agent/cardbridge/audio.py:56-90 | every frame played while filling was a packet on hand before |
| `JitterLaws.TooFewStaySilent` | bridge/agent/cardbridge/audio.py:56-62 | until `target_frames` distinct packets have been fed to a stopped, empty buffer, in any order and with any repeated, any read goes on with silence and leaves the buffer as it was, but for a rest of silence |
| `JitterLaws.PlaybackStartsIff` | bridge/agent/cardbridge/audio.py:56-70 | such a buffer starts and plays with the next frame exactly if `target_frames` distinct packets were fed to it |
| `JitterLaws.ConsecutivePlaysBack` | bridge/agent/cardbridge/audio.py:32-90 | after consecutive packets, at least `target_frames` and in whatever order they came, were fed to a stopped buffer with nothing on hand, reading 320 n samples returns exactly the payloads of the first n of the last `max_frames` of them, in order; the rest is on hand, and the number after the last one played is expected |
| `JitterLaws.StartsInOrderIff` | bridge/agent/cardbridge/audio.py:51-63 | if the numbers of such packets may pass the end of the 32-bit range, playback starts with the first of the stream exactly if they do not, and with number 0 otherwise |
| `JitterLaws.PlaysExpected` | bridge/agent/cardbridge/audio.py:65-82 | a started buffer plays a packet on hand exactly if it is the one expected; then it is on hand no more, every other one still is, and the next number is expected |
| `JitterLaws.StartsOverIff` | bridge/agent/cardbridge/audio.py:65-81 | while the numbers a started buffer expects are not on hand it pulls silence; it goes on for as long as fewer than the starvation limit are missing in a row, and at the limit it starts over with nothing on hand |
| `JitterLaws.BehindLaw` | bridge/agent/cardbridge/audio.py:34-49 | a packet behind the expected number by at most `max_frames` is counted late and dropped; one further behind makes the buffer start over with it alone |
| `JitterLaws.AheadLaw` | bridge/agent/cardbridge/audio.py:50-54 | any other packet, unless its number is on hand, leaves the `max_frames` largest of those on hand and it; of a number twice the first one stays |
| `JitterBuffers.FeedKeepsInv` | bridge/agent/cardbridge/audio.py:32-54 | a feed keeps the packets ascending and distinct, within `max_frames`, none behind the expected number while started |
| `JitterBuffers.NextFrameKeepsInv` | bridge/agent/cardbridge/audio.py:56-82 | so does a frame |
| `JitterBuffers.ReadKeepsInv` | bridge/agent/cardbridge/audio.py:84-90 | so does a read, which leaves less than one frame of samples over |
| `JitterBuffers.JitterBuffer.constructor` | bridge/agent/cardbridge/audio.py:17-30 | a new buffer is empty and not started, with the depths derived from the target |
| `JitterBuffers.JitterBuffer.Feed` | bridge/agent/cardbridge/audio.py:32-54 | keeps the invariant; drops a late packet, resynchronises on one far behind, else stores it: the new state is that of `AfterFeed`, of which the runs above are made |
| `JitterBuffers.JitterBuffer.Store` | bridge/agent/cardbridge/audio.py:50-54 | stores a packet in order unless its number is there, and evicts the oldest past the limit |
| `JitterBuffers.JitterBuffer.NextFrameLocked` | bridge/agent/cardbridge/audio.py:56-82 | keeps the invariant; below the target depth a stopped buffer returns silence and stays as it is, from it on it starts with its first packet; a started one is left as `NextFrame` has it, of which `JitterLaws.PlaysExpected` and `JitterLaws.StartsOverIff` tell the rest |
| `JitterBuffers.JitterBuffer.ReadSamples` | bridge/agent/cardbridge/audio.py:84-90 | keeps the invariant; the samples returned and the new state are those of `Read`: what a fresh buffer reads is told by `JitterLaws.TooFewStaySilent` and `JitterLaws.ConsecutivePlaysBack` |
| `JitterBuffers.JitterBuffer.Reset` | bridge/agent/cardbridge/audio.py:92-100 | empties the buffer and keeps its counters |
| `Resampler.StreamingIsOneShot` | bridge/agent/cardbridge/audio.py:253-276 | for any split of the output into callbacks, output frame k is the linear interpolation of the whole input at k steps, deleted samples plus phase is N steps, and at 16 kHz output or more a sample always stays |
| `Resampler.SplitDoesNotMatter` | bridge/agent/cardbridge/audio.py:253-276 | two splits of one stream agree on every frame both have produced |
| `Resampler.NeverDriftsIff` | bridge/agent/cardbridge/audio.py:253-276 | no split ever drifts if and only if a step is at most two input samples, that is at output rates from 8 kHz up |
| `Resampler.SlowRatesDrift` | bridge/agent/cardbridge/audio.py:253-276 | below 8 kHz some split drifts: callbacks of one frame delete only the two samples they read |
| `Resampler.OutputNeverDriftsIff` | bridge/agent/cardbridge/audio.py:253-276 | the output object at a given rate never drifts exactly if the rate is at least 8000 frames a second |
| `Resampler.BlackHoleAudioOutput.Step` | bridge/agent/cardbridge/audio.py:257-257 | a second of output takes 16000 input samples |
| `Resampler.PlayIsOneShot` | bridge/agent/cardbridge/audio.py:253-276 | over any sequence of callbacks that read from the jitter buffer, what is played is the one-shot resampling of one read of all the samples pulled |
| `Resampler.AnySplitSoundsTheSame` | bridge/agent/cardbridge/audio.py:253-276 | from the same jitter buffer, different splits of the same number of frames play the same |
| `Resampler.BlackHoleAudioOutput.Callback` | bridge/agent/cardbridge/audio.py:253-276 | reads the shortfall from the jitter buffer, plays the interpolated and shaped frames, and carries the rest |
| `Resampler.BlackHoleAudioOutput.ResetStream` | bridge/agent/cardbridge/audio.py:230-239 | forgets the carried samples and phase |
| `Bridges.LeaseNamesTheStream` | bridge/agent/cardbridge/server.py:931-1006 | in every run the lease is free or names a registered session whose buffer is the one the output reads, and any other registered session holds at most one packet |
| `Bridges.OnlyTheOwnerIsHeard` | bridge/agent/cardbridge/server.py:1442-1475 | after any run, every frame a callback pulls is silence or a packet the session that owns the lease sent since it last took it; so is every sample it interpolates between, those the resampler still held included; a free lease gives zeros |
| `Bridges.LeftoverIsTheOwners` | bridge/agent/cardbridge/server.py:966-998 | what is left over of an earlier frame in the buffer ends the last frame pulled, what the resampler holds ends what was read in the epoch, and every sample of both is silence or the owner's |
| `Bridges.FedWasSent` | bridge/agent/cardbridge/server.py:1442-1475 | the packets heard in the current epoch were sent by the owner, in this epoch |
| `Playbacks.SentIsHeard` | bridge/agent/cardbridge/server.py:1442-1475 | what is sent is heard: after a session that finds the microphone free has sent at least `target_frames` consecutive packets, in whatever order they arrived, the next callback reads the payloads of the last `max_frames` of them in order |
| `Playbacks.SendingFeeds` | bridge/agent/cardbridge/server.py:1454-1472 | with its first datagram such a session becomes the owner and the one read, and its buffer ends as feeding the packets to an emptied one leaves it |
| `Playbacks.CallbackReadsOwner` | bridge/agent/cardbridge/audio.py:253-276 | a callback reads from the owner's buffer, and nothing else of it changes |
| `LeaseLaws.OwnerLosesIff` | bridge/agent/cardbridge/server.py:931-1006 | an owned lease goes free exactly if its own session gives it up, it has been silent for more than 3000 ms when that is checked, its id is torn down, replaced or unpaired, or the service stops; no event passes it to another session |
| `LeaseLaws.FreeLeaseLaw` | bridge/agent/cardbridge/server.py:1357-1472 | a free lease goes to the session that claims it or sends audio, if it may, which then is the one read; no other event takes it |
| `LeaseLaws.ClaimLaw` | bridge/agent/cardbridge/server.py:1357-1384 | a claim by a current, capable session makes it the owner and the session read exactly if the lease was free or its own; any other claim leaves the bridge as it was |
| `LeaseLaws.DatagramLaw` | bridge/agent/cardbridge/server.py:1454-1472 | a packet is fed to the buffer of the session that sent it, after what that held if it is the owner's, and to an empty one if not; one without the capability changes nothing |
| `LeaseLaws.LastAudioIsHeard` | bridge/agent/cardbridge/server.py:1000-1006 | the time the idle check goes by is, in every run, that of the session's last datagram that was listened to |
| `LeaseLaws.ClosingClears` | bridge/agent/cardbridge/server.py:931-956 | a connection that ends leaves nothing in the buffer of its session |
| `KeyLaws.DownLaw` | bridge/agent/cardbridge/server.py:899-911 | after a press the session holds the key exactly if it did, some session did, or the injector took the press; with the modifiers of its own first press; and the injector is asked exactly if nobody held it |
| `KeyLaws.UpLaw` | bridge/agent/cardbridge/server.py:913-929 | after a release the session does not hold the key, and it goes up, with the modifiers it went down with and without its own, exactly if the session held it and nobody else did |
| `KeyLaws.BadMessageLaw` | bridge/agent/cardbridge/server.py:894-895 | a message without a key, with a key name past 64 characters, or with another action changes nothing |
| `KeyLaws.MessagesDecide` | bridge/agent/cardbridge/server.py:891-956 | over every run of the bridge, a session holds a key exactly as the key messages and the ends of sessions decide, one after the other |
| `KeyLaws.DownIff` | bridge/agent/cardbridge/server.py:891-956 | and a key is down exactly if that gives some session that holds it |
| `Bridges.KeyboardIsSafe` | bridge/agent/cardbridge/server.py:891-929 | in every run the owner map of a key lists exactly the sessions that hold it, the key is marked injected and is down exactly while some current session holds it, and presses and releases alternate |
| `Bridges.TeardownTakesLeaseIff` | bridge/agent/cardbridge/server.py:931-946 | closing a connection leaves the lease as it was exactly if the lease belongs to another device id |
| `Bridges.ReplacementLosesLease` | bridge/agent/cardbridge/server.py:931-946 | so the late teardown of a replaced session takes the lease from its own replacement |
| `LeaseMarks.MarksAgreeIff` | bridge/agent/cardbridge/server.py:931-998 | if each registered session's own lease state says "owner" exactly if it is, then after any event they still do exactly if the event is no teardown of a replaced session under whose id the lease is held |
| `LeaseMarks.RunAgreesIff` | bridge/agent/cardbridge/server.py:931-998 | so they agree all along a run exactly if it has no such teardown |
| `LeaseMarks.ReplacementStaysMarked` | bridge/agent/cardbridge/server.py:934-944 | after one the replacement, still current, says "owner" while the lease is free |
| `LeaseMarks.OwnerIsMarked` | bridge/agent/cardbridge/server.py:966-985 | in every run the owner's own state says so |
| `StreamOrder.StreamIsInOrder` | bridge/agent/cardbridge/audio.py:84-90 | in every run what was read since the stream was last cut, followed by what is on hand of a frame, is the frames pulled since, decoded one after the other |
| `StreamOrder.ReadsAreContiguous` | bridge/agent/cardbridge/audio.py:253-276 | so what a callback reads, after what was read since the cut, is a prefix of the owner's frames pulled since, in order and without a gap |
| `StreamOrder.CutsIff` | bridge/agent/cardbridge/audio.py:32-48 | while a session owns the lease the stream is cut exactly when a packet of the owner far behind makes its buffer start over in the middle of a frame |
| `Bridges.NextKeepsInv` | bridge/agent/cardbridge/server.py:891-1006 | every event, from every state with the invariant, keeps it |
| `KeyArbitration.PressKeepsInv` | bridge/agent/cardbridge/server.py:891-914 | a press keeps held lists, owner maps, injected marks and the log of the injector in agreement, whether the injector accepts it or not; what the press achieves is `KeyLaws.DownLaw` |
| `KeyArbitration.ReleaseKeepsInv` | bridge/agent/cardbridge/server.py:916-925 | so does a release |
| `KeyArbitration.HandleKeepsInv` | bridge/agent/cardbridge/server.py:891-925 | so does any key message, malformed ones included |
| `KeyArbitration.HandleTouchesOne` | bridge/agent/cardbridge/server.py:891-925 | a key message changes no other session's held keys |
| `KeyArbitration.SessionIsReleased` | bridge/agent/cardbridge/server.py:927-929 | a cleaned-up session holds nothing, and no key that another session holds is released |
| `KeyArbitration.CleanedKeysAreUp` | bridge/agent/cardbridge/server.py:927-956 | after any sessions are cleaned up, in any order and any number of times, a key is down exactly if a session outside them held it |
| `AudioLease.SetLeaseOk` | bridge/agent/cardbridge/server.py:966-985 | taking the lease keeps the invariant of lease and stream in a new epoch: the session owns it, its buffer is empty; its present owner changes nothing |
| `AudioLease.ReleaseOk` | bridge/agent/cardbridge/server.py:987-998 | a release frees the lease of the owner it names and keeps the invariant in a new epoch; any other changes nothing |
| `AudioLease.ExpireOk` | bridge/agent/cardbridge/server.py:1000-1006 | so does the idle check |
| `AudioLease.CleanupOk` | bridge/agent/cardbridge/server.py:931-946 | cleanup keeps the invariant, and frees the lease exactly if it is held under the id of the session cleaned up |
| `AudioLease.ConnectOk` | bridge/agent/cardbridge/server.py:692-694 | a registration keeps the invariant of lease and stream, whomever it replaces |
| `AudioLease.ReplacingOwnerOk` | bridge/agent/cardbridge/server.py:692-694 | one that replaces the owner frees the lease |
| `AudioLease.ReceiveOk` | bridge/agent/cardbridge/server.py:1442-1475 | a datagram keeps the invariant: a packet of the owner joins its epoch, one that takes a free lease begins it, any other leaves at most one packet in its buffer |
| `AudioLease.OutputOk` | bridge/agent/cardbridge/audio.py:253-276 | a callback keeps it: the packets it pulls and the samples it reads and leaves over are those of the epoch, or silence |
| `Devices.RegisterKeepsInv` | bridge/agent/cardbridge/devices.py:178-185 | registering a session replaces at most the one of the same id; every other registration stays |
| `Devices.RemoveKeepsInv` | bridge/agent/cardbridge/devices.py:193-198 | removing a session removes no other, even one of the same id |
| `Devices.CurrentIsRegistered` | bridge/agent/cardbridge/server.py:860-866 | a session is current exactly if it is the registered one of its id |
| `Devices.DeviceRegistry.Register` | bridge/agent/cardbridge/devices.py:178-185 | the state of `AfterRegister`, and the session replaced, if any |
| `Devices.DeviceRegistry.Remove` | bridge/agent/cardbridge/devices.py:193-198 | the state of `AfterRemove`, and whether the session was the registered one |
| `Devices.DeviceRegistry.Clear` | bridge/agent/cardbridge/devices.py:233-238 | forgets every session and returns them |
| `BridgeApps.BridgeApp.HandleKey` | bridge/agent/cardbridge/server.py:891-925 | one key message: keys and lease end as the functions in `KeyArbitration` and `AudioLease` have them, about which the lemmas above are |
| `BridgeApps.BridgeApp.PressKey` | bridge/agent/cardbridge/server.py:891-914 | a press: injected only for the first owner, forgotten if the injector refuses it, and shared if another session holds the key (`KeyLaws.DownLaw`): keys and lease end as the functions in `KeyArbitration` and `AudioLease` have them, about which the lemmas above are |
| `BridgeApps.BridgeApp.ReleaseKey` | bridge/agent/cardbridge/server.py:916-925 | a release: injected only for the last owner: keys and lease end as the functions in `KeyArbitration` and `AudioLease` have them, about which the lemmas above are |
| `BridgeApps.BridgeApp.ReleaseSessionKeys` | bridge/agent/cardbridge/server.py:927-929 | releases every key the session holds, one after the other: keys and lease end as the functions in `KeyArbitration` and `AudioLease` have them, about which the lemmas above are |
| `BridgeApps.BridgeApp.AudioOwner` | bridge/agent/cardbridge/server.py:958-964 | resolves the owner, and frees a lease whose owner is gone: keys and lease end as the functions in `KeyArbitration` and `AudioLease` have them, about which the lemmas above are |
| `BridgeApps.BridgeApp.SetAudioLease` | bridge/agent/cardbridge/server.py:966-985 | hands the lease over: keys and lease end as the functions in `KeyArbitration` and `AudioLease` have them, about which the lemmas above are |
| `BridgeApps.BridgeApp.ReleaseAudioLease` | bridge/agent/cardbridge/server.py:987-998 | gives it up: keys and lease end as the functions in `KeyArbitration` and `AudioLease` have them, about which the lemmas above are |
| `BridgeApps.BridgeApp.CleanupSession` | bridge/agent/cardbridge/server.py:931-956 | cleans one session up: keys and lease end as the functions in `KeyArbitration` and `AudioLease` have them, about which the lemmas above are |
| `BridgeApps.BridgeApp.RegisterSession` | bridge/agent/cardbridge/server.py:692-696 | a new session, replacing any of the same id: keeps the invariant and ends in the state of `Bridges.Next`, so the theorems about runs hold of the object |
| `BridgeApps.BridgeApp.TeardownSession` | bridge/agent/cardbridge/server.py:708-711 | the end of a connection's task: keeps the invariant and ends in the state of `Bridges.Next`, so the theorems about runs hold of the object |
| `BridgeApps.BridgeApp.Unpair` | bridge/agent/cardbridge/server.py:379-380 | unpairing: keeps the invariant and ends in the state of `Bridges.Next`, so the theorems about runs hold of the object |
| `BridgeApps.BridgeApp.ReceiveKey` | bridge/agent/cardbridge/server.py:797-797 | a key message of the current session: keeps the invariant and ends in the state of `Bridges.Next`, so the theorems about runs hold of the object |
| `BridgeApps.BridgeApp.HandleAudioClaim` | bridge/agent/cardbridge/server.py:1357-1384 | a claim: keeps the invariant and ends in the state of `Bridges.Next`, so the theorems about runs hold of the object |
| `BridgeApps.BridgeApp.HandleAudioRelease` | bridge/agent/cardbridge/server.py:1386-1413 | a release: keeps the invariant and ends in the state of `Bridges.Next`, so the theorems about runs hold of the object |
| `BridgeApps.BridgeApp.ExpireAudioLease` | bridge/agent/cardbridge/server.py:1000-1006 | the idle check: keeps the invariant and ends in the state of `Bridges.Next`, so the theorems about runs hold of the object |
| `BridgeApps.BridgeApp.ReceiveAudio` | bridge/agent/cardbridge/server.py:1442-1475 | an authenticated datagram: keeps the invariant and ends in the state of `Bridges.Next`, so the theorems about runs hold of the object |
| `BridgeApps.BridgeApp.Stop` | bridge/agent/cardbridge/server.py:232-260 | the end of the service: keeps the invariant and ends in the state of `Bridges.Next`, so the theorems about runs hold of the object |
| `BridgeApps.BridgeApp.PlayAudio` | bridge/agent/cardbridge/audio.py:253-276 | an output callback: keeps the invariant and ends in the state of `Bridges.Next`; the samples are those read from the active buffer |
| `Subscriptions.MessagesAreProper` | bridge/agent/cardbridge/server.py:1146-1268 | in every run a device is sent only topics it negotiated the capabilities for, the messages of a topic are numbered one by one, and updates keep to the interval, itself within 250..60000 ms |
| `Subscriptions.UpdatesAreSpaced` | bridge/agent/cardbridge/server.py:1331-1355 | two updates of a topic that was not given up between are at least the interval then in force apart, whatever the clock does |
| `SubscriptionLaws.SubscribedIff` | bridge/agent/cardbridge/server.py:1179-1241 | over every run a topic is subscribed to exactly if it was asked for with the capability to subscribe, the one it takes to be read and those it takes besides, and not given up or cleaned up since |
| `SubscriptionLaws.IntervalLaw` | bridge/agent/cardbridge/server.py:1195-1209 | the interval changes exactly with a request that is granted a topic, to the one asked for within 250 and 60000 ms, or 1000 ms |
| `SubscriptionLaws.SentIff` | bridge/agent/cardbridge/server.py:1146-1355 | in every run a device is sent a snapshot exactly for a request it may make, and an update exactly when its topic waits, is subscribed to and due and no other send is awaited; each carries the topic's next number |
| `SubscriptionLaws.WaitsIff` | bridge/agent/cardbridge/server.py:1205-1355 | a topic waits from a change or a subscription until an update of it was sent, or it was given up or found not subscribed to |
| `SubscriptionLaws.OpenIff` | bridge/agent/cardbridge/server.py:1340-1355 | a session is sent updates until a send fails or finds it replaced, or it is cleaned up; a send is awaited from an update to its return |
| `SubscriptionLaws.LastSentLaw` | bridge/agent/cardbridge/server.py:1347-1355 | the time a topic was last sent is kept from the return of its send until it is given up |
| `SubscriptionLaws.RequestedOnce` | bridge/agent/cardbridge/server.py:1105-1113 | of the topics asked for, each known one is taken up once |
| `LostChanges.SendLosesIff` | bridge/agent/cardbridge/server.py:1340-1355 | the send of a topic that an event begins loses a change exactly if one of the events up to its return is a change of the topic, or subscribes to it, and none after that one gives it up or cleans up |
| `LostChanges.MissedIff` | bridge/agent/cardbridge/server.py:1331-1355 | after any run a change of a topic waits for no update exactly if some send of it was so overtaken, and the topic has since neither changed nor been given up: no flush makes up for it, however due |
| `LostChanges.NoChangeIsLostIff` | bridge/agent/cardbridge/server.py:1331-1355 | so after a run every change has led to an update or waits for one exactly if, after each such loss, its topic changed again or was given up |
| `LostChanges.StaysMissedIff` | bridge/agent/cardbridge/server.py:1331-1355 | a missed change stays missed exactly until its topic changes again or is given up; a flush passes it over, as it goes through the waiting topics only |
| `LostChanges.LosesIff` | bridge/agent/cardbridge/server.py:1347-1355 | one step loses a change exactly if a send returns whose topic has changed since it began |
| `LostChanges.ChangeCanBeLost` | bridge/agent/cardbridge/server.py:1347-1355 | a run of four events in which that happens |
| `TopicSessions.TopicSession.RequestedTopics` | bridge/agent/cardbridge/server.py:1105-1113 | the known topics of a request, each once, in order |
| `TopicSessions.TopicSession.AcceptedTopics` | bridge/agent/cardbridge/server.py:1195-1209 | the requested topics whose capabilities were all negotiated |
| `TopicSessions.TopicSession.HandleSubscribe` | bridge/agent/cardbridge/server.py:1179-1220 | adds the accepted topics, sets the interval within its bounds if there are any, and makes them wait for an update |
| `TopicSessions.TopicSession.HandleUnsubscribe` | bridge/agent/cardbridge/server.py:1232-1260 | gives up the topics named, or all, and forgets when they were last sent |
| `TopicSessions.TopicSession.HandleRequest` | bridge/agent/cardbridge/server.py:1146-1177 | one topic of a request: numbers a snapshot if the device may read it |
| `TopicSessions.TopicSession.FlushTopic` | bridge/agent/cardbridge/server.py:1340-1347 | one turn of the flush up to its await: sends if the topic waits, is subscribed and due |
| `TopicSessions.TopicSession.FinishSend` | bridge/agent/cardbridge/server.py:1348-1355 | the rest of the turn: notes the time, or ends the session if the send failed or it was replaced |
| `TopicSessions.TopicSession.Change` | bridge/agent/cardbridge/server.py:406-408 | makes the topics wait for an update |
| `TopicSessions.TopicSession.Cleanup` | bridge/agent/cardbridge/server.py:946-947 | forgets subscriptions and pending topics |
| `TopicSessions.TopicSession.NextTopicSequence` | bridge/agent/cardbridge/devices.py:113-116 | the next number of a topic, one more than the last |
| `SessionTails.PollingIsOnePass` | bridge/agent/cardbridge/session_usage.py:239-291 | for a file that only grows, also while it is read, however it is polled and whatever I/O errors come between, the cursor after a successful poll is that of one line-by-line pass over what the file held when the reading ended, which is at least what `stat` reported, and the last two notifications agree unless a failed read lost some |
| `SessionTails.PollTimingDoesNotMatter` | bridge/agent/cardbridge/session_usage.py:239-291 | two readers of one file, polled differently, that saw it last alike end up with the same cursor and last two notifications |
| `SessionTails.ReadFollowsPass` | bridge/agent/cardbridge/session_usage.py:256-286 | reading in bounded pieces, each from a file that may have grown since the last, follows the line-by-line pass over what was seen, and enough pieces complete it |
| `SessionTails.PassGoesOn` | bridge/agent/cardbridge/session_usage.py:239-291 | the pass over a longer file is the pass over the shorter one, taken up where it stopped, in the middle of a long line included |
| `SessionLines.FileReports` | bridge/agent/cardbridge/session_usage.py:239-359 | the pass over a file of lines reports each line of counters, in order, under the session named last before it, or else the file's name, and the turn named last; it ends with the ids named last; of a line past the limit only the first bytes count, and only for ids |
| `SessionTails.OffsetIsALineStart` | bridge/agent/cardbridge/session_usage.py:258-282 | unless a long line is being skipped the offset is 0 or just after a newline, and it never exceeds the file |
| `SessionTails.GoodPollIsDone` | bridge/agent/cardbridge/session_usage.py:239-291 | one successful read of a grown file leaves the cursor of the whole file |
| `SessionTails.FailedPollKeepsInv` | bridge/agent/cardbridge/session_usage.py:285-287 | a read that fails half-way loses notifications but neither ids nor its place |
| `SessionMonitors.SessionCursor.ReadMetadataPrefix` | bridge/agent/cardbridge/session_usage.py:293-305 | takes over an id only from a line of its kind, and only if one was found |
| `SessionMonitors.SessionCursor.ReadCompleteLine` | bridge/agent/cardbridge/session_usage.py:307-359 | the notification of a complete line, and the ids it sets |
| `SessionMonitors.SessionCursor.ReadPiece` | bridge/agent/cardbridge/session_usage.py:256-283 | one turn of the loop: skips, searches a prefix, stops at an incomplete line, or parses |
| `SessionMonitors.UsageMonitor.Drain` | bridge/agent/cardbridge/session_usage.py:252-287 | the loop: cursor and last two notifications of the pieces read, none after an error |
| `SessionMonitors.UsageMonitor.ReadPath` | bridge/agent/cardbridge/session_usage.py:239-291 | one poll of a path leaves the tail and notifications of `AfterPoll`, and no other path's cursor changes |
| `UsageLedgers.LedgerTelescopes` | bridge/agent/cardbridge/usage.py:140-230 | while a thread stays stored, its deltas since the last baseline sum in all five fields to current total less baseline, its windows to the time between; both tables agree and hold at most eight threads |
| `UsageLedgers.ChangesIffNews` | bridge/agent/cardbridge/usage.py:161-199 | a notification changes the store exactly if it is usable, not stale and not a duplicate |
| `UsageLedgers.EntersIff` | bridge/agent/cardbridge/usage.py:145-199 | a session enters the store exactly for a notification that names a thread and carries counters, unless it is older than the one before it in the same count, or repeats its turn and total |
| `UsageLedgers.DeltaLaw` | bridge/agent/cardbridge/usage.py:169-213 | its delta, added to the total before it, is its total in all five fields, and its window reaches back to the time before, exactly if the count goes on and none of the fields fell; otherwise both are zero |
| `UsageLedgers.StatusLaw` | bridge/agent/cardbridge/usage.py:214-219 | a store that changes is available, names its source, cut to 64 characters, or "unknown", and is dated by the later of its own time and the notification's |
| `UsageLedgers.RepetitionChangesNothing` | bridge/agent/cardbridge/usage.py:188-199 | the same notification again changes nothing while its thread is stored |
| `UsageLedgers.TrimKeepsRecent` | bridge/agent/cardbridge/usage.py:220-230 | trimming drops no session that is more recent than one it keeps |
| `UsageLedgers.EnteredKeepsInv` | bridge/agent/cardbridge/usage.py:214-230 | entering a record keeps both tables in agreement, within eight threads |
| `UsageStores.TokenUsageStore.UpdateNotification` | bridge/agent/cardbridge/usage.py:140-218 | the whole new state is that of `AfterNotice`, so the deltas telescope, and the answer tells whether it changed |
| `UsageStores.TokenUsageStore.MakeRecord` | bridge/agent/cardbridge/usage.py:161-213 | the record of a usable notification, or none if it is stale or a duplicate |
| `UsageStores.TokenUsageStore.Trim` | bridge/agent/cardbridge/usage.py:220-230 | keeps the eight most recent, in both tables |
| `UsageStores.TokenUsageStore.SetUnavailable` | bridge/agent/cardbridge/usage.py:123-138 | clears both tables and tells whether anything changed |
| `RingBuffers.ReadsReturnWhatWasWritten` | bridge/driver/upstream/CardBridgeMicrophone.c:4523-4593 | over any run with contiguous writes, an unmuted read that ends no later than the last write and reaches back at most 65536 frames before that returns exactly the samples written, times the volume |
| `RingBuffers.ReadsReturnTheNewest` | bridge/driver/upstream/CardBridgeMicrophone.c:4523-4593 | further back it returns the newest sample that shares the slot; either way it changes nothing |
| `RingBuffers.OtherReadsAreSilent` | bridge/driver/upstream/CardBridgeMicrophone.c:4546-4557 | any other read, muted or past the end of the last write, is silent in every sample and clears the ring, whose every slot is then silent; nothing else changes |
| `RingBuffers.LastOutputIsLastWritten` | bridge/driver/upstream/CardBridgeMicrophone.c:4576-4592 | the end a read is measured by is, in every run, that of the last write whose cycle was in time: its current time not past the end of its output |
| `RingBuffers.WriteInTime` | bridge/driver/upstream/CardBridgeMicrophone.c:4584-4592 | a write in time is what its frames hold from then on, and every other slot keeps what it held |
| `RingBuffers.WriteThenRead` | bridge/driver/upstream/CardBridgeMicrophone.c:4543-4592 | so an unmuted read of the frames just written gives them back, times the volume |
| `RingBuffers.WriteTooLate` | bridge/driver/upstream/CardBridgeMicrophone.c:4576-4581 | a write changes nothing exactly if it comes too late |
| `RingBuffers.ClientsAreCounted` | bridge/driver/upstream/CardBridgeMicrophone.c:4298-4379 | in every run the IO count of each device is the number of its starts not undone by a stop, within its bounds |
| `RingBuffers.ClientsAreAnswered` | bridge/driver/upstream/CardBridgeMicrophone.c:4306-4367 | a start or stop fails exactly for an unknown object, a device with all its clients, or one with none to stop |
| `RingBuffers.ClientsKeepWrites` | bridge/driver/upstream/CardBridgeMicrophone.c:4326-4373 | what was written stays as long as any client does, and is gone with the last one |
| `RingBuffers.SlotIsTimeline` | bridge/driver/upstream/CardBridgeMicrophone.c:4584-4588 | after contiguous writes the slot of a time within the last 65536 frames holds what the unbounded timeline holds then |
| `RingBuffers.SlotHoldsNewest` | bridge/driver/upstream/CardBridgeMicrophone.c:4584-4588 | after contiguous writes any slot holds what the unbounded timeline holds at the newest time congruent to it |
| `RingBuffers.RunKeepsInv` | bridge/driver/upstream/CardBridgeMicrophone.c:4298-4379 | in every run counts stay within bounds, a clear flag means silence, and the last output time is the end of the last write |
| `RingBuffers.RingIffRunning` | bridge/driver/upstream/CardBridgeMicrophone.c:4326-4373 | the ring is there exactly while the IO count of some device is positive |
| `RingDrivers.OverlayRefines` | bridge/driver/upstream/CardBridgeMicrophone.c:4584-4588 | laying a write over a ring that refines a history gives a ring that refines the longer history |
| `RingDrivers.Microphone.StartIO` | bridge/driver/upstream/CardBridgeMicrophone.c:4298-4342 | counts a client or reports the error; the first one allocates a silent ring |
| `RingDrivers.Microphone.StopIO` | bridge/driver/upstream/CardBridgeMicrophone.c:4344-4379 | counts a client off or reports the error; the last one frees the ring |
| `RingDrivers.Microphone.CopyIn` | bridge/driver/upstream/CardBridgeMicrophone.c:4584-4588 | the two-part copy into the ring lays the samples over it, around its end, and changes no other slot |
| `RingDrivers.Microphone.CopyOut` | bridge/driver/upstream/CardBridgeMicrophone.c:4559-4562 | the two-part copy out of the ring gives the slots of the frames read, around its end |
| `RingDrivers.Microphone.ReadFrames` | bridge/driver/upstream/CardBridgeMicrophone.c:4543-4571 | when muted, or past the end of the last write, silence and a ring of silence; otherwise the slots of its frames times the volume, and an unchanged ring |
| `RingDrivers.Microphone.WriteFrames` | bridge/driver/upstream/CardBridgeMicrophone.c:4574-4593 | an overload error that changes nothing, or the write |
| `RingDrivers.Microphone.DoIOOperation` | bridge/driver/upstream/CardBridgeMicrophone.c:4509-4597 | argument errors change nothing; otherwise the operation asked for |
| `PairingRuns.RunsAreSafe` | firmware/m5stack-cardputer-adv/src/pairing.cpp:53-344 | in every run, whatever the world answers: a search and an attempt never coexist, at most one worker is in flight and it is the latest, each attempt goes to an address discovery listed for its Mac, each hello goes out on a socket opened for the target it greets, the backoff stays within 1000..20000 ms |
| `PairingRuns.CancelledIsNeverAdopted` | firmware/m5stack-cardputer-adv/src/pairing.cpp:282-314 | after a disconnect, a new choice, the deletion of the current pairing or an observed loss of WiFi, no hello goes out before a new attempt is started |
| `PairingRuns.StaysAway` | firmware/m5stack-cardputer-adv/src/pairing.cpp:90-125 | once told to stay away, or without a target, the device starts no attempt by itself |
| `PairingRuns.RacesIffSubmitted` | firmware/m5stack-cardputer-adv/src/pairing.cpp:94-97 | the main loop touches the socket beside a worker exactly if a pair code is submitted then, against the comment in the source |
| `PairingRuns.RaceHappens` | firmware/m5stack-cardputer-adv/src/pairing.cpp:346-356 | a run from the start in which that happens: a search finds the Mac, a worker connects, a pair code is submitted |
| `PairingRuns.GenerationCheckIsDead` | firmware/m5stack-cardputer-adv/src/pairing.cpp:287-288 | the comparison of generations never decides anything: a result in the queue is always the latest attempt's |
| `PairingRuns.WaitsOutTheDelay` | firmware/m5stack-cardputer-adv/src/pairing.cpp:666-670 | a scheduled reconnect is due exactly once its delay has passed, across the wrap of the 32-bit clock, for 2^31 ms |
| `PairingLaws.HelloIff` | firmware/m5stack-cardputer-adv/src/pairing.cpp:282-344 | a result in the queue leads to a hello exactly if its attempt was not cancelled, WiFi is up, the worker connected and the socket still answers; it names the target, carries the token stored for it, and goes out on the socket opened for it |
| `PairingLaws.GreetsAwaits` | firmware/m5stack-cardputer-adv/src/pairing.cpp:282-344 | once it is written the device awaits a pair code if no token is stored, and authentication if one is; no ping is missed, and the heartbeat starts then |
| `PairingLaws.UnsaidIsLost` | firmware/m5stack-cardputer-adv/src/pairing.cpp:282-344 | one that cannot be said leaves the device offline with no socket open |
| `PairingLaws.RefusedWaits` | firmware/m5stack-cardputer-adv/src/pairing.cpp:282-299 | a result that did not connect says nothing and leaves the device offline; the next attempt is due exactly once the delay has passed, which then doubles, up to 20 s |
| `PairingLaws.CancelledIsDropped` | firmware/m5stack-cardputer-adv/src/pairing.cpp:282-294 | one that was cancelled, or finds WiFi gone, says nothing, leaves nothing open and schedules nothing |
| `PairingLaws.HelloHappens` | firmware/m5stack-cardputer-adv/src/pairing.cpp:53-344 | a run from the start that ends in the hello |
| `PairingLaws.ConnectedHappens` | firmware/m5stack-cardputer-adv/src/pairing.cpp:53-511 | and one that goes on to be connected |
| `PairingLaws.AttemptDials` | firmware/m5stack-cardputer-adv/src/pairing.cpp:237-268 | an attempt on a listed Mac stops the socket and starts a worker to its address, in a new generation, or waits if memory or the task is refused |
| `PairingLaws.AttemptWaits` | firmware/m5stack-cardputer-adv/src/pairing.cpp:237-251 | without a queue for the result, or without an address, it waits for the delay and wants a new search |
| `PairingLaws.ReconnectDials` | firmware/m5stack-cardputer-adv/src/pairing.cpp:115-125 | a reconnect dials the target as last listed once it is due and no new search is wanted; otherwise it starts no attempt |
| `PairingLaws.ServeDials` | firmware/m5stack-cardputer-adv/src/pairing.cpp:94-125 | so a tick of a device without a connection dials exactly if it reconnects by itself, no search runs, and the target is listed and due |
| `PairingLaws.FinishedSearchDials` | firmware/m5stack-cardputer-adv/src/pairing.cpp:154-189 | a search made to reconnect dials the target where it was just found; any other, and one that does not find it, starts no attempt |
| `PairingLaws.FinishedSearchShows` | firmware/m5stack-cardputer-adv/src/pairing.cpp:174-181 | a search not made to reconnect leaves the list it found, wants another exactly if there is a target not in it, and shows the device offline unless its socket is alive |
| `PairingLaws.LostSearchShows` | firmware/m5stack-cardputer-adv/src/pairing.cpp:168-173 | a search that ends after WiFi was lost leaves no list and wants another |
| `PairingLaws.MdnsAsksForSearch` | firmware/m5stack-cardputer-adv/src/pairing.cpp:77-84 | mDNS, once started, wants a search |
| `PairingLaws.CollectedListsFirst` | firmware/m5stack-cardputer-adv/src/pairing.cpp:191-210 | a search lists its first eight answers with an address, in order, with their id or else host name and their port or else 7788 |
| `PairingLaws.SearchesIff` | firmware/m5stack-cardputer-adv/src/pairing.cpp:132-152 | a search is under way after a request exactly if one was, or WiFi and mDNS are up and the query is taken |
| `PairingLaws.ChoiceIsDueIff` | firmware/m5stack-cardputer-adv/src/pairing.cpp:212-228 | a Mac just chosen is the target, with the token stored for it and the shortest delay; it is due at once exactly while the clock is below 2^31 ms |
| `PairingLaws.MessageShows` | firmware/m5stack-cardputer-adv/src/pairing.cpp:413-527 | each message leads to the state it stands for, forged ones aside |
| `PairingLaws.ConnectedIff` | firmware/m5stack-cardputer-adv/src/pairing.cpp:468-511 | a device becomes connected exactly by a hello that is accepted, or a pairing with a whole token from a Mac that is known or has room |
| `PairingLaws.TokensAfter` | firmware/m5stack-cardputer-adv/src/pairing.cpp:468-521 | such a pairing stores its token for the target, a refusal forgets the target's, and no other Mac's token changes |
| `PairingLaws.RefusalGreets` | firmware/m5stack-cardputer-adv/src/pairing.cpp:512-521 | a refusal is followed by a hello without a token, while the socket answers |
| `PairingLaws.ForgedIsIgnored` | firmware/m5stack-cardputer-adv/src/pairing.cpp:417-422 | while connected, a ping, pong or snapshot with another token changes nothing |
| `PairingLaws.OutlivesBeatIff` | firmware/m5stack-cardputer-adv/src/pairing.cpp:96-107 | a connection outlives a tick's heartbeat exactly if 5 s have not passed, or the ping goes out and fewer than three stand unanswered |
| `PairingLaws.KeySendsIff` | firmware/m5stack-cardputer-adv/src/pairing.cpp:358-372 | a key goes out exactly while connected, on a socket that answers twice and takes the line |
| `PairingLaws.SubmitSendsIff` | firmware/m5stack-cardputer-adv/src/pairing.cpp:346-356 | a pair code goes out exactly if it has six digits, in any state, on a socket that answers twice and takes the line |
| `PairingLaws.SubmitShows` | firmware/m5stack-cardputer-adv/src/pairing.cpp:346-356 | one that is tried shows as authenticating |
| `PairingLaws.WifiLossLaw` | firmware/m5stack-cardputer-adv/src/pairing.cpp:58-76 | a tick that finds WiFi gone leaves the device offline, with no Macs listed and a search wanted; a worker is cancelled, otherwise no socket is open; mDNS goes on exactly while a search does |
| `PairingLaws.DeadSocketShows` | firmware/m5stack-cardputer-adv/src/pairing.cpp:94-125 | a tick that finds the socket dead never leaves the device connected, authenticating or awaiting a code |
| `PairingLaws.RequestIsNotedIff` | firmware/m5stack-cardputer-adv/src/pairing.cpp:128-130 | a request for a search is noted exactly while WiFi is up |
| `PairingLaws.RequestIsServedIff` | firmware/m5stack-cardputer-adv/src/pairing.cpp:86-89 | and leads to one in the next tick in which one can start |
| `PairingLaws.SearchIsForReconnectIff` | firmware/m5stack-cardputer-adv/src/pairing.cpp:132-152 | a search under way is made to reconnect exactly if it was started or asked for to that end |
| `PairingLaws.UpgradeStops` | firmware/m5stack-cardputer-adv/src/pairing.cpp:443-458 | a Mac that asks for an upgrade is left, and the device tries none by itself any more |
| `PairingLaws.DeletionLaw` | firmware/m5stack-cardputer-adv/src/pairing.cpp:672-678 | deleting a pairing removes that one and keeps the order of the others; its own connection ends, and its target is forgotten |
| `PairingLaws.ReadsInTurn` | firmware/m5stack-cardputer-adv/src/pairing.cpp:397-411 | reading some lines and then others is reading all of them |
| `PairingLaws.ReadsOne` | firmware/m5stack-cardputer-adv/src/pairing.cpp:397-411 | a line is handled unless the socket was stopped |
| `PairingLaws.PongLaw` | firmware/m5stack-cardputer-adv/src/pairing.cpp:423-442 | a pong clears the count of missed ones; a ping is answered, on the socket if it still is one |
| `PairingLaws.BeatCounts` | firmware/m5stack-cardputer-adv/src/pairing.cpp:96-107 | a heartbeat survived counts one more missing pong, and the next is due 5 s after it |
| `PairingRuns.RunFollows` | firmware/m5stack-cardputer-adv/src/pairing.cpp:53-126 | over any run, nothing is said while quiet unless a new attempt is started |
| `PairingRuns.TickKeeps` | firmware/m5stack-cardputer-adv/src/pairing.cpp:53-126 | one tick keeps the invariant, and leaves the device quiet if it saw WiFi lost |
| `PairingRuns.DisconnectKeeps` | firmware/m5stack-cardputer-adv/src/pairing.cpp:636-655 | a disconnect leaves the device quiet |
| `PairingManagers.PairingManager.Tick` | firmware/m5stack-cardputer-adv/src/pairing.cpp:53-126 | one tick; the whole new state is that of the function of this name in `Pairings` |
| `PairingManagers.PairingManager.RequestDiscovery` | firmware/m5stack-cardputer-adv/src/pairing.cpp:128-130 | a request for discovery; the whole new state is that of the function of this name in `Pairings` |
| `PairingManagers.PairingManager.StartDiscovery` | firmware/m5stack-cardputer-adv/src/pairing.cpp:132-152 | starts a search, unless one runs or an attempt is in flight; answers whether one may run and does; the whole new state is that of the function of this name in `Pairings` |
| `PairingManagers.PairingManager.PollDiscovery` | firmware/m5stack-cardputer-adv/src/pairing.cpp:154-189 | takes the results of a finished search; the whole new state is that of the function of this name in `Pairings` |
| `PairingManagers.PairingManager.CollectDiscoveryResults` | firmware/m5stack-cardputer-adv/src/pairing.cpp:191-210 | the first eight usable answers, in order; the whole new state is that of the function of this name in `Pairings` |
| `PairingManagers.PairingManager.ConnectToDiscovered` | firmware/m5stack-cardputer-adv/src/pairing.cpp:212-228 | a new choice of Mac; the whole new state is that of the function of this name in `Pairings` |
| `PairingManagers.PairingManager.ConnectToPaired` | firmware/m5stack-cardputer-adv/src/pairing.cpp:230-235 | the choice of a paired Mac; answers whether it was discovered; the whole new state is that of the function of this name in `Pairings` |
| `PairingManagers.PairingManager.AttemptConnection` | firmware/m5stack-cardputer-adv/src/pairing.cpp:237-268 | starts the worker, or schedules another try; the whole new state is that of the function of this name in `Pairings` |
| `PairingManagers.PairingManager.ConnectTaskEntry` | firmware/m5stack-cardputer-adv/src/pairing.cpp:270-280 | the worker's result; the whole new state is that of the function of this name in `Pairings` |
| `PairingManagers.PairingManager.PollConnectionAttempt` | firmware/m5stack-cardputer-adv/src/pairing.cpp:282-306 | adopts, abandons or reschedules; the whole new state is that of the function of this name in `Pairings` |
| `PairingManagers.PairingManager.CancelConnectionAttempt` | firmware/m5stack-cardputer-adv/src/pairing.cpp:308-314 | cancels the attempt in flight, or stops the socket; the whole new state is that of the function of this name in `Pairings` |
| `PairingManagers.PairingManager.SendHello` | firmware/m5stack-cardputer-adv/src/pairing.cpp:316-344 | greets with the token of the current target; the whole new state is that of the function of this name in `Pairings` |
| `PairingManagers.PairingManager.SubmitPairCode` | firmware/m5stack-cardputer-adv/src/pairing.cpp:346-356 | sends the code; answers whether it was sent; the whole new state is that of the function of this name in `Pairings` |
| `PairingManagers.PairingManager.SendKey` | firmware/m5stack-cardputer-adv/src/pairing.cpp:358-371 | only while connected; answers whether it was sent; the whole new state is that of the function of this name in `Pairings` |
| `PairingManagers.PairingManager.SendAgentAck` | firmware/m5stack-cardputer-adv/src/pairing.cpp:373-379 | only while connected, and for a session; answers whether it was sent; the whole new state is that of the function of this name in `Pairings` |
| `PairingManagers.PairingManager.ReadIncoming` | firmware/m5stack-cardputer-adv/src/pairing.cpp:397-411 | handles lines for as long as the socket is not stopped; the whole new state is that of the function of this name in `Pairings` |
| `PairingManagers.PairingManager.HandleLine` | firmware/m5stack-cardputer-adv/src/pairing.cpp:413-528 | one message; the whole new state is that of the function of this name in `Pairings` |
| `PairingManagers.PairingManager.Disconnect` | firmware/m5stack-cardputer-adv/src/pairing.cpp:636-655 | ends the connection or attempt; the whole new state is that of the function of this name in `Pairings` |
| `PairingManagers.PairingManager.ConnectionLost` | firmware/m5stack-cardputer-adv/src/pairing.cpp:657-664 | ends it, and schedules the next; the whole new state is that of the function of this name in `Pairings` |
| `PairingManagers.PairingManager.ScheduleReconnect` | firmware/m5stack-cardputer-adv/src/pairing.cpp:666-670 | the next time, and the doubled delay; the whole new state is that of the function of this name in `Pairings` |
| `PairingManagers.PairingManager.DeletePairing` | firmware/m5stack-cardputer-adv/src/pairing.cpp:672-678 | removes one pairing, and disconnects from it; answers whether the rest was saved; the whole new state is that of the function of this name in `Pairings` |
| `PairingManagers.PairingManager.PairedIndexById` | firmware/m5stack-cardputer-adv/src/pairing.cpp:705-710 | the first pairing of an id, or none |
| `PairingManagers.PairingManager.DiscoveredIndexById` | firmware/m5stack-cardputer-adv/src/pairing.cpp:712-717 | the first discovered Mac of an id, or none |
| `ActivityWraps.WrapIsSound` | firmware/m5stack-cardputer-adv/src/ui.cpp:935-1030 | for any bytes and any width function under which an ellipsis fits, at most four lines result and each fits; of well-formed UTF-8 each is well formed |
| `ActivityWraps.NothingIsLost` | firmware/m5stack-cardputer-adv/src/ui.cpp:935-1030 | if nothing overflowed or was cut, the lines hold all the bytes of the text but its white space, in order |
| `ActivityLines.WrapFillsLines` | firmware/m5stack-cardputer-adv/src/ui.cpp:935-1030 | if every word fits on a line, the lines are the words with one space between, each line with as many as fit; the page overflows exactly if that takes more than four, and then shows the first four, the last one marked |
| `ActivityLines.FilledIsGreedy` | firmware/m5stack-cardputer-adv/src/ui.cpp:1003-1019 | those lines hold all words in order, none is empty, and none had room for the first word of the next |
| `ActivityLines.ShrunkIsLongest` | firmware/m5stack-cardputer-adv/src/ui.cpp:925-933 | of a text cut to fit beside an ellipsis no longer beginning, up to the start of a character, would have fitted |
| `ActivityLines.SegmentIsPlaced` | firmware/m5stack-cardputer-adv/src/ui.cpp:989-1018 | of a word spread over lines, a segment that fits joins the line begun if there is room for it, without a space, and else begins the next |
| `ActivityLines.WideWordIsCut` | firmware/m5stack-cardputer-adv/src/ui.cpp:976-988 | an ASCII word too wide for any line has one of its own, cut to fit |
| `ActivityWraps.CutAtBoundary` | firmware/m5stack-cardputer-adv/src/ui.cpp:113-139 | well-formed UTF-8 falls apart into well-formed parts at every byte that starts a character |
| `ActivityWraps.LengthIsCharacter` | firmware/m5stack-cardputer-adv/src/ui.cpp:113-122 | on well-formed text the length read off the first byte is that of the character |
| `ActivityWraps.WithoutLastIsUtf8` | firmware/m5stack-cardputer-adv/src/ui.cpp:131-139 | removing the last character leaves well-formed text |
| `ActivityWraps.FittedIsUtf8` | firmware/m5stack-cardputer-adv/src/ui.cpp:925-933 | cutting to fit, with an ellipsis, leaves well-formed text |
| `ActivityWraps.SegmentIsUtf8` | firmware/m5stack-cardputer-adv/src/ui.cpp:989-999 | of well-formed text each segment and what follows it are well formed |
| `ActivityScreens.RemoveLastUtf8Character` | firmware/m5stack-cardputer-adv/src/ui.cpp:131-139 | the loop finds where the last character starts |
| `ActivityScreens.IsAsciiOnly` | firmware/m5stack-cardputer-adv/src/ui.cpp:124-129 | tells whether every byte is ASCII |
| `ActivityScreens.Fit` | firmware/m5stack-cardputer-adv/src/ui.cpp:925-933 | the text if it fits and need not be cut, else shortened character by character until it fits with an ellipsis |
| `ActivityScreens.DeviceUi.PrepareCodexActivity` | firmware/m5stack-cardputer-adv/src/ui.cpp:935-1030 | the lines kept are always those of the text last wrapped |
| `ActivityScreens.DeviceUi.PushLine` | firmware/m5stack-cardputer-adv/src/ui.cpp:944-953 | adds a line unless it is empty or the page is full |
| `ActivityScreens.DeviceUi.SpreadToken` | firmware/m5stack-cardputer-adv/src/ui.cpp:989-1018 | spreads a wide token segment by segment |
| `ActivityScreens.DeviceUi.AddToken` | firmware/m5stack-cardputer-adv/src/ui.cpp:966-1019 | places one token |
| `ActivityScreens.DeviceUi.FinishPage` | firmware/m5stack-cardputer-adv/src/ui.cpp:1021-1027 | pushes the line begun, and marks an overflow on the last line |
| `PetRles.PackingRoundTrips` | tools/pack_pet.py:198-211 | decoding the runs of any 72x72 image gives it back; no run crosses a row; the bytes fit a 16-bit length |
| `PetRles.RunsAreMaximal` | tools/pack_pet.py:203-210 | neighbouring runs of a row differ in colour |
| `PetRles.RowRle` | tools/pack_pet.py:198-211 | the method packs exactly those runs |
| `PetRles.PackRow` | tools/pack_pet.py:202-210 | one row |
| `PetRles.FindRunEnd` | tools/pack_pet.py:206-208 | where a run ends |
| `PetDrawings.DrawingShowsImage` | firmware/m5stack-cardputer-adv/src/pet_renderer.cpp:40-67 | packing and drawing at any size from 72 up shows at each target point the colour of the one source pixel there; transparent pixels and points outside stay |
| `PetDrawings.CellsTile` | firmware/m5stack-cardputer-adv/src/pet_renderer.cpp:57-60 | each target coordinate lies in the interval of exactly one source coordinate |
| `PetDrawings.RunPaints` | firmware/m5stack-cardputer-adv/src/pet_renderer.cpp:46-65 | one run paints exactly the target points of its pixels |
| `PetDrawings.RunLeavesRest` | firmware/m5stack-cardputer-adv/src/pet_renderer.cpp:46-65 | and nothing outside the target |
| `PetDrawings.EncodedRunsOf` | firmware/m5stack-cardputer-adv/src/pet_renderer.cpp:42-47 | reading the bytes in pairs gives the packed runs back |
| `PetDrawings.PetRenderer.DrawFrame` | firmware/m5stack-cardputer-adv/src/pet_renderer.cpp:40-67 | for any data, the canvas ends as drawing its runs one after the other leaves it |
| `PetDrawings.PetRenderer.Draw` | firmware/m5stack-cardputer-adv/src/pet_renderer.cpp:18-30 | keeps the frame index valid, restarts on a new state, and moves on when a frame is due |
| `KeyTransmissions.EventsTellWhatIsHeld` | firmware/m5stack-cardputer-adv/src/key_tx.cpp:17-33 | replaying all events sent, from nothing, gives exactly the names held now |
| `KeyTransmissions.EventsAlternateIff` | firmware/m5stack-cardputer-adv/src/key_tx.cpp:17-33 | for any readings, the downs and ups of every name alternate if and only if no two keys that come or go in a tick share a name |
| `KeyNames.EventsAlternate` | firmware/m5stack-cardputer-adv/src/key_tx.cpp:17-103 | on a keyboard with a value of its own on each switch, and with tables in which no name belongs to two values, the downs and ups of every name alternate over every run |
| `KeyNames.TablesAreUnambiguous` | firmware/m5stack-cardputer-adv/src/keymap.cpp:7-49 | the tables of the firmware are such, whatever numbers the keyboard library has |
| `KeyNames.FirmwareAlternates` | firmware/m5stack-cardputer-adv/src/keymap.cpp:7-49 | so with the firmware's tables the downs and ups of every name alternate |
| `KeyTransmissions.SharedNamesRepeat` | firmware/m5stack-cardputer-adv/src/key_tx.cpp:26-30 | values of their own are needed: on a layout that printed one value on two switches, both would send a down |
| `KeyNames.NameStays` | firmware/m5stack-cardputer-adv/src/key_tx.cpp:66-100 | a switch that stays down and makes no chord with Fn keeps the name it was pressed with, if fewer than six keys come before its own; with six switches down that is always so |
| `KeyNames.NameStaysIff` | firmware/m5stack-cardputer-adv/src/key_tx.cpp:48-100 | on such a keyboard, it keeps it exactly if fewer than six keys come before its own |
| `KeyNames.SeventhKeyGoesUp` | firmware/m5stack-cardputer-adv/src/key_tx.cpp:48-69 | with six letters down, adding Ctrl sends one of them up though its switch stays down |
| `KeyNames.CurrentFits` | firmware/m5stack-cardputer-adv/src/key_tx.cpp:35-103 | the list built is the first six of all modifiers, then all other keys, each in the order of the reading |
| `KeyNames.CurrentIsFrom` | firmware/m5stack-cardputer-adv/src/key_tx.cpp:35-103 | every key held comes from a switch that is down |
| `KeyPresses.PressIsSent` | firmware/m5stack-cardputer-adv/src/key_tx.cpp:65-133 | a switch newly pressed, with fewer than six keys before its own, sends a press of its name (the chord while Fn is down, else the special name, else the character) with the modifiers of the reading, unless a key of that name is held |
| `KeyPresses.ModifierPressIsSent` | firmware/m5stack-cardputer-adv/src/key_tx.cpp:48-63 | so does Ctrl, Cmd or Option, counted among the modifiers only |
| `KeyPresses.ReleaseIsSent` | firmware/m5stack-cardputer-adv/src/key_tx.cpp:17-33 | a key whose name is held no more sends its release, with the modifiers it was last seen with but never its own |
| `KeyPresses.GivesKeyIff` | firmware/m5stack-cardputer-adv/src/key_tx.cpp:48-95 | a switch gives a key exactly if it has a name: not Shift, not Fn, and while Fn is down only a chord |
| `KeyPresses.HeldKeepsName` | firmware/m5stack-cardputer-adv/src/key_tx.cpp:71-80 | one that stays down keeps the name it was pressed with, unless it makes a chord with Fn |
| `KeyTransmitters.KeyTransmitter.Tick` | firmware/m5stack-cardputer-adv/src/key_tx.cpp:17-33 | holds the keys of the reading, or none, and sends the ups of names gone and the downs of names new, in this order |
| `KeyTransmitters.KeyTransmitter.BuildCurrent` | firmware/m5stack-cardputer-adv/src/key_tx.cpp:35-103 | modifiers first, then the other keys, six at most |
| `KeyTransmitters.KeyTransmitter.FindKey` | firmware/m5stack-cardputer-adv/src/key_tx.cpp:65-95 | the name a switch gives |
| `KeyTransmitters.KeyTransmitter.PreviousPhysical` | firmware/m5stack-cardputer-adv/src/key_tx.cpp:105-111 | the first key held from a switch |
| `KeyTransmitters.KeyTransmitter.HasName` | firmware/m5stack-cardputer-adv/src/key_tx.cpp:113-119 | whether a name is held |
| `KeyTransmitters.KeyTransmitter.Send` | firmware/m5stack-cardputer-adv/src/key_tx.cpp:121-133 | a modifier's own release does not carry its flag; only downs are counted |
| `KeyTransmitters.KeyTransmitter.ReleaseAll` | firmware/m5stack-cardputer-adv/src/key_tx.cpp:135-138 | an up for every key held, and nothing held after |
| `CodexHooks.InstallIsIdempotentAndUndone` | bridge/agent/cardbridge/codex_hooks.py:46-86 | installing twice is installing once, and removing after installing is removing |
| `CodexHooks.LastOneCounts` | bridge/agent/cardbridge/codex_hooks.py:46-86 | whatever was done before, the second transformation leaves what it would have left alone |
| `CodexHooks.InstallingIsUndone` | bridge/agent/cardbridge/codex_hooks.py:46-86 | installing into a document without hooks and removing again gives back the document itself |
| `CodexHooks.EmptyHooksGo` | bridge/agent/cardbridge/codex_hooks.py:82-86 | a transformed document has a hooks object only if something is left in it |
| `CodexHooks.ForeignHooksStay` | bridge/agent/cardbridge/codex_hooks.py:55-82 | in every event the foreign hooks keep their order, and exactly one owned hook is there after installing, none after removing |
| `CodexHooks.CheckTellsWhich` | bridge/agent/cardbridge/codex_hooks.py:89-107 | the installed check answers yes after installing and no after removing |
| `CodexHooks.FailsIffMalformed` | bridge/agent/cardbridge/codex_hooks.py:47-53 | an error is raised exactly if the document does not have the form of a hooks file |
| `CodexHooks.RestStays` | bridge/agent/cardbridge/codex_hooks.py:46-86 | no other key of the document, and no other event, changes |
| `CodexHooks.StaysWellFormed` | bridge/agent/cardbridge/codex_hooks.py:46-86 | a transformed document is well formed |
| `CodexHooks.OwnIsOurs` | bridge/agent/cardbridge/codex_hooks.py:30-43 | the installed hook is recognised exactly if its command carries a marker |
| `CodexHooks.EventsAreDistinct` | bridge/agent/cardbridge/codex_hooks.py:13-20 | the six events are distinct |
| `HooksFiles.HooksFile.Transform` | bridge/agent/cardbridge/codex_hooks.py:46-86 | the document ends as `Transformed` has it, after an error as well |
| `HooksFiles.HooksFile.TransformEvents` | bridge/agent/cardbridge/codex_hooks.py:50-83 | the events in turn, up to one that is not a list |
| `HooksFiles.HooksFile.CleanGroups` | bridge/agent/cardbridge/codex_hooks.py:54-67 | every group without its owned hooks, and without the groups that had no others |
| `HooksFiles.HooksFile.HooksInstalled` | bridge/agent/cardbridge/codex_hooks.py:89-107 | tells whether every event has a group with a current hook |
| `AgentSessions.RunKeeps` | bridge/agent/cardbridge/agents.py:264-517 | over any mix of events ids stay distinct, a phase goes with running, what is unread needs input, is ready or blocked; counters and latest prompt never decrease; a focus moves only with a larger number |
| `AgentSessions.SnapshotIsView` | bridge/agent/cardbridge/agents.py:600-640 | in every state of every run a snapshot is ordered by recency, of the right length, holds the focused session if stored, and otherwise the most recent ones |
| `AgentLaws.SnapshotIsByPrompt` | bridge/agent/cardbridge/agents.py:600-612 | it shows the sessions by their last prompts, and by their updates those without one |
| `AgentBounds.StepIsBoundedIff` | bridge/agent/cardbridge/agents.py:264-517 | after any event the store holds at most 32 sessions exactly if the event is one that trims it, or those it held and the one it makes, if its id is new, are no more than 32 |
| `AgentBounds.RunIsBoundedIff` | bridge/agent/cardbridge/agents.py:264-517 | the store is within its bound all along a run exactly if no event finds it full and makes one more session without trimming |
| `AgentBounds.GrowsByNewIds` | bridge/agent/cardbridge/agents.py:264-517 | while no event trims it, the store grows by the number of new ids in the events, so one just trimmed is within its bound again exactly if they fit |
| `AgentBounds.SessionsPileUp` | bridge/agent/cardbridge/agents.py:306-363 | and they need not: any number of events that only make a session pile up, until one trims |
| `AgentSessions.PresentedIsWellFormed` | bridge/agent/cardbridge/agents.py:197-219 | a session acknowledged at its last update shows neither unread nor finished; at any other it shows as it is; either way phase and running agree |
| `AgentLaws.HookLaw` | bridge/agent/cardbridge/agents.py:443-517 | a hook leaves its session with the status it announces (ready after a stop, blocked after a failure, waiting for the user after a question, running otherwise), unread exactly if it waits for the user, and every other session as it was |
| `AgentLaws.TurnEndLaw` | bridge/agent/cardbridge/agents.py:343-360 | the end of a turn leaves its session unread, blocked if it failed and ready if not, and every other as it was |
| `AgentLaws.TurnStartLaw` | bridge/agent/cardbridge/agents.py:308-341 | a turn that is new sets its session running, prompted when it started; any other changes nothing |
| `AgentLaws.ActivityLaw` | bridge/agent/cardbridge/agents.py:264-292 | a public activity is shown as that of a running session, and reported exactly if it shows something new |
| `AgentLaws.ItemLaw` | bridge/agent/cardbridge/agents.py:362-385 | an item is shown as the activity of a tool while it runs, and of thinking otherwise |
| `AgentLaws.ProgressLaw` | bridge/agent/cardbridge/agents.py:306-385 | the progress of a command is shown as the activity of a tool |
| `AgentLaws.TitleLaw` | bridge/agent/cardbridge/agents.py:298-304 | a title is stored, and reported exactly if it is new |
| `AgentLaws.AcknowledgeLaw` | bridge/agent/cardbridge/agents.py:586-598 | an acknowledged session is read, idle if it had finished, and reported exactly if either is new |
| `AgentLaws.FocusLaw` | bridge/agent/cardbridge/agents.py:264-517 | the focus goes, with a new number, to the session of each prompt; without one to the first session started; and nowhere else |
| `AgentLaws.ThreadsFocusLaw` | bridge/agent/cardbridge/agents.py:387-441 | a list of threads moves the focus to the first with the latest prompt if that is later than any before, else, without a focus, to the first listed |
| `AgentLaws.ThreadsLaw` | bridge/agent/cardbridge/agents.py:387-425 | each session listed takes over title, project and the later of the times; the others stay as they were |
| `AgentLaws.ThreadsReportIff` | bridge/agent/cardbridge/agents.py:387-441 | a list of threads is reported exactly if one of them is new or tells something new, or the focus moves |
| `AgentLaws.AnnouncedOnce` | bridge/agent/cardbridge/agents.py:308-341 | a turn announced again while its session is stored changes nothing |
| `AgentLaws.TrimKeepsLatest` | bridge/agent/cardbridge/agents.py:642-651 | past 32 sessions exactly 32 stay, and none that goes was updated later than one that stays |
| `AgentSessions.HookKeeps` | bridge/agent/cardbridge/agents.py:443-517 | a hook event keeps the invariant and only advances |
| `AgentSessions.UpdateKeeps` | bridge/agent/cardbridge/agents.py:387-441 | so does an update of the threads |
| `AgentSessions.TurnStartedKeeps` | bridge/agent/cardbridge/agents.py:308-341 | so does the start of a turn |
| `AgentSessions.ItemKeeps` | bridge/agent/cardbridge/agents.py:362-385 | so does an item |
| `AgentSessions.AcknowledgeKeeps` | bridge/agent/cardbridge/agents.py:586-598 | so does an acknowledgement |
| `AgentSessions.TrimmedKeeps` | bridge/agent/cardbridge/agents.py:642-651 | so does trimming |
| `AgentStores.AgentStore.ApplyPublicActivity` | bridge/agent/cardbridge/agents.py:264-292 | a public activity sets its session running; the counter moves only on a visible change, which the answer tells; the whole new state is that of the function in `AgentSessions` |
| `AgentStores.AgentStore.ApplyNameUpdated` | bridge/agent/cardbridge/agents.py:298-304 | a new title; the whole new state is that of the function in `AgentSessions` |
| `AgentStores.AgentStore.ApplyTurnStarted` | bridge/agent/cardbridge/agents.py:308-341 | a turn takes the focus once, however often it is announced; the whole new state is that of the function in `AgentSessions` |
| `AgentStores.AgentStore.ApplyTurnCompleted` | bridge/agent/cardbridge/agents.py:343-360 | the end of a turn leaves its session unread, ready or blocked; the whole new state is that of the function in `AgentSessions` |
| `AgentStores.AgentStore.ApplyItem` | bridge/agent/cardbridge/agents.py:365-385 | an item of a turn; the whole new state is that of the function in `AgentSessions` |
| `AgentStores.AgentStore.EnterThreads` | bridge/agent/cardbridge/agents.py:388-424 | every listed thread, whether any changed, and the first with the latest prompt; the whole new state is that of the function in `AgentSessions` |
| `AgentStores.AgentStore.UpdateThreads` | bridge/agent/cardbridge/agents.py:387-441 | the list of threads; a later prompt takes the focus; the whole new state is that of the function in `AgentSessions` |
| `AgentStores.AgentStore.ApplyHookEvent` | bridge/agent/cardbridge/agents.py:443-517 | a hook event; the whole new state is that of the function in `AgentSessions` |
| `AgentStores.AgentStore.Acknowledge` | bridge/agent/cardbridge/agents.py:586-598 | what was ready or blocked goes idle; the answer tells whether the counter moved; the whole new state is that of the function in `AgentSessions` |
| `AgentStores.AgentStore.Trim` | bridge/agent/cardbridge/agents.py:642-651 | past 32 sessions, the 32 last updated stay; the whole new state is that of the function in `AgentSessions` |
| `AgentStores.AgentStore.Snapshot` | bridge/agent/cardbridge/agents.py:600-620 | selects the sessions shown, a good view of the store |

## Left out

- Sockets, timeouts, mDNS, the keychain, subprocesses, JSON and regular expressions: their outcomes are parameters.
- HMAC, tokens and pairing codes: which session a message belongs to is given with the event.
- Floating-point rounding, the gain curve and decibels: arithmetic is exact, and the gain with its soft clip is an arbitrary function.
- In the bridge: notifications and broadcasts, active tokens, agent clients, recording, and the statistics of sessions.
- Subscriptions: the payload of a topic, the replies to requests and the errors about unknown topics; one session is modelled, the loop over sessions is not.
- Session logs: discovery of files, dropping the cursors of files no longer tracked, and what the counters in a record are. A file shorter than before is read afresh, as in the source, but the theorems are about files that only grow.
- Usage: the rate, which is a quotient of two modelled numbers, and the snapshot.
- Agent store: quotas, the texts of activities, and titles cut to length.
- Hooks file: the order of the keys of an object, and writing the file.
- RingDrivers.Microphone.DoIOOperation: frame times are whole numbers, and the buffer is at most 65536 frames and the ring allocated, as the host must see to; beyond that the copies leave their arrays. Locks, the clock of the device and the property tables are left out.
- PairingManagers.PairingManager.HandleLine: names, metadata, the audio endpoint and agent snapshots are left out; how bytes become lines is left out, and a send is one answer of the world.
- PairingManagers.PairingManager.AttemptConnection: the generation is not advanced when the context cannot be allocated.
- PairingManagers.PairingManager.ReadIncoming: starts from whole lines; how bytes become lines, and the limit on their length, are left out.
- Devices.DeviceRegistry.Clear: returns the sessions as a set, not by the time they connected; the end of the service is proved for every order.
- TopicSessions.TopicSession.HandleRequest: one topic of a request; the loop over the topics, the replies and the errors are left out.
- AgentStores.AgentStore.Snapshot: the sessions selected; the numbers sent beside them and the quota are left out, and how a device that acknowledged a session sees it is `AgentSessions.Presented`.
- PetDrawings.PetRenderer.Draw: the diagonal line over an offline pet is left out, and the canvas is not clipped. Below size 72 intervals overlap and nothing is claimed.
- KeyTransmitters.KeyTransmitter.Send: whether the connection delivers an event is left out.
- Keyboard: the library's key numbers and layout are not part of this model; the theorems are for any numbers, and for any layout with a value of its own on each switch.
- All other drawing, the audio transmitter, WiFi, the serial console, the Mac app and the release tools: plumbing, or foreign calls only.
