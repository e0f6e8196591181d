# WebRTC session bookkeeping, modelled in Dafny

This project models the signalling-thread bookkeeping of libjingle's
`WebRtcSession` (`talk/app/webrtc/webrtcsession.cc`). The model covers five parts:

- **Local candidate accumulator.** Local transport candidates go into
  `local_candidates_`. Only the first candidate per channel name is kept.
  A batch that arrives when the list holds exactly `kAllowedCandidates` (4)
  candidates is ignored. The observer's `OnCandidatesReady` is called when a
  batch arrives with the list not at four, leaves it at exactly four, and an
  observer is set.
- **Remote candidate partition.** Remote candidates are split by channel name.
  `video_rtp` and `video_rtcp` go to the video transport proxy; every other
  name goes to the audio proxy. A proxy first completes negotiation if it has
  not, then receives its group. An empty group, or a missing proxy, is dropped.
- **Writability watchdog.** The session has one pending `MSG_CANDIDATE_TIMEOUT`
  message. Each connecting or writable notification clears it. It is re-queued
  with a 30000 ms delay iff the transport has channels and is not writable.
  When the message is delivered, `SignalError` is raised.
- **Offer/answer installation.** `ProvideOffer` refuses an offer without video.
  `ProvideOffer` and `ProvideAnswer` install the description factory's result
  as the local description. `SetRemoteSessionDescription` installs the remote
  description whatever the state.
- **Negotiation completion.** From `STATE_INIT`, `NegotiationDone` moves to
  `STATE_SENTINITIATE`, then `STATE_RECEIVEDACCEPT`, and enables both channels.
  In every state it then mutes each channel whose first content of its kind
  has no stream.

Files:

- `candidates.dfy` (module `Candidates`): the candidate type and the
  specification functions for accumulating and partitioning, with their lemmas.
- `watchdog.dfy` (module `Watchdog`): the timeout slot as a small state
  machine, and lemmas over runs of events.
- `negotiation.dfy` (module `Negotiation`): descriptions as ordered lists of
  contents, the session states, the channels, and what completing negotiation
  does.
- `webrtc_session.dfy` (module `WebRtc`): the class `WebRtcSession`. Its
  fields are updated in place. The candidate, partition, watchdog and
  negotiation methods are proved against the specification functions above.
  `ProvideOffer`, `ProvideAnswer`, `SetRemoteSessionDescription` and
  `SetObserver` state their outcome directly in their postconditions. `InsertTransportCandidates`,
  `CheckCandidate` and the partition loop are `while` loops with invariants,
  as in the source.

Collaborators are reduced to what the session reads and writes:

- A transport proxy becomes its `negotiated` flag plus the remote candidate
  batches its transport received.
- A channel becomes its `enabled` flag plus `muted: Option<bool>`.
- The observer becomes a log of the candidate lists handed to it.
- `SignalError` becomes a counter.
- A transport becomes its `HasChannels()` and `writable()` answers.
- The description factory becomes a function parameter that takes exactly the
  inputs the session passes to `CreateOffer` / `CreateAnswer`.

The comment at `webrtcsession.cc:50-53` expects one candidate per transport
channel, four in all. The code only tests `==` on entry (line 196), and the
model follows the code. `kAllowedCandidates` is guaranteed to bound the list,
whatever the batching, only while every name comes from the four channels of
one voice and one video channel (`rtp`, `rtcp`, `video_rtp`, `video_rtcp`);
`Candidates.AccumulateWithinKnownChannels` proves this. With other names, one
batch can take the list from below four to above four without a notification
(`Candidates.CapCanBeOvershot`). After that the early return never fires again,
the list only grows, and no later run of batches calls the observer
(`Candidates.OvershotNeverNotifies`).

The timeout is cleared by message id (line 184), so there is one slot for the
whole session, whichever transport armed it, and the model has one slot.

## Model

| member | source | states |
|---|---|---|
| `Candidates.AccumulateExtends` | talk/app/webrtc/webrtcsession.cc:220-230 | The old local list is a prefix of the new one; a batch adds at most its own length |
| `Candidates.AccumulateKeepsDistinct` | talk/app/webrtc/webrtcsession.cc:220-244 | Names that are pairwise distinct before a batch stay pairwise distinct, including duplicates inside the batch |
| `Candidates.AccumulateNames` | talk/app/webrtc/webrtcsession.cc:220-230 | No channel name is lost: names after = names before plus the batch's names |
| `Candidates.AccumulateAppendsFirstOccurrences` | talk/app/webrtc/webrtcsession.cc:220-244 | First writer wins: each appended candidate has a name the old list lacked, is the batch's first candidate with that name, and appended candidates keep batch order |
| `Candidates.AccumulateFresh` | talk/app/webrtc/webrtcsession.cc:220-230 | A batch of new, pairwise distinct names is appended whole |
| `Candidates.AccumulateWithinKnownChannels` | talk/app/webrtc/webrtcsession.cc:50-58 | With names only from the four known channel names, the list never exceeds `kAllowedCandidates` |
| `Candidates.CandidatesReadyKeepsInvariant` | talk/app/webrtc/webrtcsession.cc:191-202 | One ready event keeps distinct names and at most one notification, and a notified list is the full list |
| `Candidates.FullListIsFrozen` | talk/app/webrtc/webrtcsession.cc:196-197 | Once the list holds exactly four, no later batch changes the list or notifies |
| `Candidates.NotifiedAtMostOnce` | talk/app/webrtc/webrtcsession.cc:196-201 | From any state, any sequence of batches adds at most one notification and removes none |
| `Candidates.RunKeepsInvariant` | talk/app/webrtc/webrtcsession.cc:191-202 | The dedup and notify-once invariant holds after any sequence of batches |
| `Candidates.CapCanBeOvershot` | talk/app/webrtc/webrtcsession.cc:196-201 | The gate is an equality test: a list below four can jump past four without a notification, and later batches are still accepted |
| `Candidates.OvershotNeverNotifies` | talk/app/webrtc/webrtcsession.cc:191-202 | Once the list holds more than four, every later run of batches keeps it above four, only extends it, and adds no notification |
| `Candidates.OneAtATimeNotifiesOnce` | talk/app/webrtc/webrtcsession.cc:191-202 | Distinct candidates fed one per batch leave the first four in the list, notify exactly once, and exclude the fifth name |
| `Candidates.PartitionInterleaves` | talk/app/webrtc/webrtcsession.cc:123-136 | The input is a merge of the audio and video groups: each candidate lands in one group, in input order |
| `Candidates.PartitionRoutes` | talk/app/webrtc/webrtcsession.cc:125-136 | A candidate is in the video group iff its name is `video_rtp` or `video_rtcp`; otherwise it is in the audio group |
| `Candidates.PartitionCounts` | talk/app/webrtc/webrtcsession.cc:123-136 | The multisets of the two groups add up to the multiset of the input |
| `Watchdog.RearmReplaces` | talk/app/webrtc/webrtcsession.cc:184-188 | Two checks in a row leave exactly the second check's outcome: one pending timeout at most, last writer wins |
| `Watchdog.ErrorsBoundedByElapsedDelays` | talk/app/webrtc/webrtcsession.cc:209-218 | Error signals never decrease, and each delivered delay adds at most one |
| `Watchdog.ErrorsBoundedByArms` | talk/app/webrtc/webrtcsession.cc:179-218 | Over any run, error signals are bounded by the timeout already pending plus the number of events that arm the slot: at most one error per arm |
| `Watchdog.SettledTransportsRaiseNoError` | talk/app/webrtc/webrtcsession.cc:179-189 | With nothing pending, events about writable or channel-less transports never arm the slot or raise an error |
| `Watchdog.OneErrorPerArm` | talk/app/webrtc/webrtcsession.cc:173-218 | A connecting, non-writable transport with channels yields exactly one error signal however often the delay is delivered afterwards |
| `Watchdog.WritableBeforeDeadline` | talk/app/webrtc/webrtcsession.cc:179-189 | Becoming writable before the delay elapses cancels the timeout, so no error is raised |
| `Negotiation.FirstContentIndex` | talk/app/webrtc/webrtcsession.cc:328-329 | The index found has the requested kind and no earlier content has it; None means no content has it |
| `Negotiation.FirstContent` | talk/app/webrtc/webrtcsession.cc:328-343 | The content found is the first content of the requested kind in the local description; None iff there is no description or no content of that kind |
| `Negotiation.NegotiationDoneFromInit` | talk/app/webrtc/webrtcsession.cc:319-326 | From Init, the announced states are SentInitiate then ReceivedAccept, and both channels are enabled |
| `Negotiation.NegotiationDoneElsewhere` | talk/app/webrtc/webrtcsession.cc:319 | From any other state, the state, the announcements and enablement are unchanged |
| `Negotiation.NegotiationDoneMutes` | talk/app/webrtc/webrtcsession.cc:328-352 | Each channel's mute flag is "the first content of its kind has zero streams", and is untouched when there is no such content |
| `Negotiation.NegotiationDoneWithoutDescription` | talk/app/webrtc/webrtcsession.cc:328-352 | Without a local description, no channel is muted or unmuted |
| `Negotiation.NegotiationDoneIdempotent` | talk/app/webrtc/webrtcsession.cc:315-353 | A second call to NegotiationDone changes nothing |
| `Negotiation.MuteExample` | talk/app/webrtc/webrtcsession.cc:338-351 | Audio with zero streams gives Mute(true); video with one stream gives Mute(false) |
| `WebRtc.DeliveredOnce` | talk/app/webrtc/webrtcsession.cc:138-164 | A non-empty group offered to a present proxy leaves it negotiated, having received the group exactly once |
| `WebRtc.PartitionCandidates` | talk/app/webrtc/webrtcsession.cc:123-136 | The partition loop returns exactly the audio and video groups of the specification |
| `WebRtc.WebRtcSession.constructor` | talk/app/webrtc/webrtcsession.cc:60-70 | A new session has no observer, no candidates, no descriptions, nothing pending, and is in Init |
| `WebRtc.WebRtcSession.SetObserver` | talk/app/webrtc/webrtcsession.cc:68 | Sets whether an observer is registered; the new flag is the one given, and only that flag changes. Whether one is set decides the notification at line 199 |
| `WebRtc.WebRtcSession.SetRemoteCandidates` | talk/app/webrtc/webrtcsession.cc:119-165 | Each proxy receives its group via `Delivered`: an empty group or a missing proxy changes nothing; nothing else changes |
| `WebRtc.WebRtcSession.OnTransportConnecting` | talk/app/webrtc/webrtcsession.cc:173-177 | Same effect as OnTransportWritable |
| `WebRtc.WebRtcSession.OnTransportWritable` | talk/app/webrtc/webrtcsession.cc:179-189 | The earlier timeout is cancelled; a timeout of 30000 ms is pending iff the transport has channels and is not writable |
| `WebRtc.WebRtcSession.OnMessage` | talk/app/webrtc/webrtcsession.cc:209-218 | The new slot and counter are `HandleMessage` of the old ones: MSG_CANDIDATE_TIMEOUT raises exactly one error signal; other ids change nothing |
| `WebRtc.WebRtcSession.DeliverCandidateTimeout` | talk/app/webrtc/webrtcsession.cc:184-188 | Delivering the queued timeout empties the slot and raises one error; with nothing queued, nothing happens |
| `WebRtc.WebRtcSession.CheckCandidate` | talk/app/webrtc/webrtcsession.cc:232-244 | Returns true iff some local candidate has the given channel name |
| `WebRtc.WebRtcSession.InsertTransportCandidates` | talk/app/webrtc/webrtcsession.cc:220-230 | Called past the not-full gate, the local list becomes `Accumulate(old list, batch)`, the dedup/notify-once invariant is kept, and nothing else changes |
| `WebRtc.WebRtcSession.OnTransportCandidatesReady` | talk/app/webrtc/webrtcsession.cc:191-202 | At exactly four on entry, nothing changes. Otherwise the batch is accumulated, and the observer is notified iff the list ends at exactly four and an observer is set. The dedup/notify-once invariant is kept |
| `WebRtc.WebRtcSession.ProvideOffer` | talk/app/webrtc/webrtcsession.cc:284-295 | Without video: returns None and leaves the local description unchanged. Otherwise: installs and returns the factory's offer built from the old local description |
| `WebRtc.WebRtcSession.SetRemoteSessionDescription` | talk/app/webrtc/webrtcsession.cc:297-304 | Installs and returns the given remote description unconditionally and routes the candidates as SetRemoteCandidates does |
| `WebRtc.WebRtcSession.ProvideAnswer` | talk/app/webrtc/webrtcsession.cc:306-313 | Installs and returns the factory's answer built from the remote description, the options and the old local description |
| `WebRtc.WebRtcSession.NegotiationDone` | talk/app/webrtc/webrtcsession.cc:315-353 | The new state, announcements and channels are `AfterNegotiationDone` of the old ones and the local description |

## Left out

- Thread-affinity assertions (`ASSERT(signaling_thread()->IsCurrent())`) are not modelled. The model is sequential.
- Logging is not modelled. `SpeculativelyConnectAllTransportChannels` is a foreign call with no outcome the session reads.
- Channel lifecycle and devices are foreign calls into the channel manager and video capture: `Initialize`, `Terminate`, `CreateChannels`, `set_secure_policy`, `SetCaptureDevice`, `SetLocalRenderer`, `SetRemoteRenderer`. The constructor takes the proxies that channel creation would have produced. The model assumes both channels exist, because `NegotiationDone` dereferences them unconditionally.
- `OnTransportRequestSignaling` only forwards to the transport, and `OnTransportChannelGone` has an empty body. Neither has a session-side effect.
- The internals of the description factory (`CreateOffer`, `CreateAnswer`) are not part of this model. Their results are function parameters.
- `SetState` and the state enumeration belong to the base session class, which is not part of this model. The model appends each state set by `NegotiationDone` to `stateLog`. All such states differ from the state before them, so each one is announced.
- Message-queue timing is abstracted. `PostDelayed` and `Clear` become the one-slot `pendingTimeout`, which holds the delay. Delivery of the queued message is `DeliverCandidateTimeout`. Clock time is not modelled.
- The observer setter is declared in `webrtcsession.h`, which is not among the sources modelled here; the setter is modelled as `SetObserver`. The observer receives the list by value.
- `talk/app/webrtc/jsepsessiondescription.h` shows declarations and field getters only, so no invariant of session-description documents is modelled. `talk/app/webrtc/peerconnectionfactory_unittest.cc` is an integration test with no logic of its own.
- The transport argument of `OnTransportCandidatesReady` is unused by the source and is dropped.
