/**
 * The writability watchdog. The session keeps one delayed message,
 * MSG_CANDIDATE_TIMEOUT, on the signalling thread's queue; clearing it is keyed
 * by the message id, so there is a single session-wide slot whatever transport
 * asked for it. The slot holds the delay of the pending message.
 */
module Watchdog {
  import opened Wrappers

  /** Milliseconds allowed for a transport to become writable. */
  const CallSetupTimeout: int := 30 * 1000

  /** Message id of the delayed writability timeout. */
  const MsgCandidateTimeout: int := 101

  /** What the session asks of a transport. */
  datatype Transport = Transport(hasChannels: bool, writable: bool)

  /** The pending-timeout slot and the number of error signals raised so far. */
  datatype Timer = Timer(pending: Option<int>, errorSignals: nat)

  /** Clear the slot, then re-arm it iff the transport has channels and is not writable. */
  function WritableCheck(w: Timer, t: Transport): Timer
  {
    Timer(if t.hasChannels && !t.writable then Some(CallSetupTimeout) else None, w.errorSignals)
  }

  /** The session's message handler: the timeout message raises the error signal, others do nothing. */
  function HandleMessage(w: Timer, messageId: int): Timer
  {
    if messageId == MsgCandidateTimeout then w.(errorSignals := w.errorSignals + 1) else w
  }

  /** The queue delivers the pending message, if any, removing it from the slot. */
  function Elapse(w: Timer): Timer
  {
    if w.pending.Some? then HandleMessage(w.(pending := None), MsgCandidateTimeout) else w
  }

  /** Events reaching the watchdog: a transport connecting, a writability change, the delay elapsing. */
  datatype Event = Connecting(t: Transport) | WritableChanged(t: Transport) | DelayElapsed

  function Step(w: Timer, e: Event): Timer
  {
    match e
    case Connecting(t) => WritableCheck(w, t)
    case WritableChanged(t) => WritableCheck(w, t)
    case DelayElapsed => Elapse(w)
  }

  function Run(w: Timer, events: seq<Event>): Timer
    decreases |events|
  {
    if events == [] then w else Run(Step(w, events[0]), events[1..])
  }

  /** Transports that never arm the slot: writable or without channels. */
  predicate Settled(t: Transport)
  {
    !t.hasChannels || t.writable
  }

  function CountElapsed(events: seq<Event>): nat
    decreases |events|
  {
    if events == [] then 0 else (if events[0].DelayElapsed? then 1 else 0) + CountElapsed(events[1..])
  }

  /** The number of events that arm the slot: a transport with channels that is not writable. */
  function CountArms(events: seq<Event>): nat
    decreases |events|
  {
    if events == [] then 0
    else (if !events[0].DelayElapsed? && !Settled(events[0].t) then 1 else 0) + CountArms(events[1..])
  }

  /** Re-arming replaces: two checks in a row leave exactly what the second one decides. */
  lemma RearmReplaces(w: Timer, t1: Transport, t2: Transport)
    ensures WritableCheck(WritableCheck(w, t1), t2) == WritableCheck(w, t2)
  {
  }

  /** Error signals are never withdrawn, and each delivered delay raises at most one. */
  lemma {:induction false} ErrorsBoundedByElapsedDelays(w: Timer, events: seq<Event>)
    ensures w.errorSignals <= Run(w, events).errorSignals <= w.errorSignals + CountElapsed(events)
    decreases |events|
  {
    if events != [] {
      ErrorsBoundedByElapsedDelays(Step(w, events[0]), events[1..]);
    }
  }

  /**
   * At most one error per arm: over any run, the error signals raised are
   * bounded by the timeout already pending plus the number of events that arm
   * the slot, however often the delay is delivered.
   */
  lemma {:induction false} ErrorsBoundedByArms(w: Timer, events: seq<Event>)
    ensures Run(w, events).errorSignals <=
            w.errorSignals + (if w.pending.Some? then 1 else 0) + CountArms(events)
    decreases |events|
  {
    if events != [] {
      ErrorsBoundedByArms(Step(w, events[0]), events[1..]);
    }
  }

  /**
   * No spurious error: with nothing pending, as long as every transport the
   * watchdog hears about is writable or has no channels, no error is raised
   * and nothing is left pending.
   */
  lemma {:induction false} SettledTransportsRaiseNoError(w: Timer, events: seq<Event>)
    requires w.pending.None?
    requires forall i :: 0 <= i < |events| && !events[i].DelayElapsed? ==> Settled(events[i].t)
    ensures Run(w, events) == w
    decreases |events|
  {
    if events != [] {
      assert Step(w, events[0]) == w;
      forall i | 0 <= i < |events[1..]| && !events[1..][i].DelayElapsed?
        ensures Settled(events[1..][i].t)
      {
        assert events[1..][i] == events[i + 1];
      }
      SettledTransportsRaiseNoError(w, events[1..]);
    }
  }

  /** One arm, one error: a stuck transport yields one signal however often the delay is delivered. */
  lemma OneErrorPerArm(w: Timer, t: Transport, n: nat)
    requires t.hasChannels && !t.writable
    ensures Run(w, [Connecting(t)] + Repeat(DelayElapsed, n + 1)) == Timer(None, w.errorSignals + 1)
  {
    var armed := WritableCheck(w, t);
    assert armed.pending == Some(CallSetupTimeout);
    var fired := Elapse(armed);
    assert fired == Timer(None, w.errorSignals + 1);
    var events := [Connecting(t)] + Repeat(DelayElapsed, n + 1);
    assert events[1..] == [DelayElapsed] + Repeat(DelayElapsed, n);
    assert Run(w, events) == Run(armed, events[1..]);
    assert Run(armed, events[1..]) == Run(fired, Repeat(DelayElapsed, n));
    SettledTransportsRaiseNoError(fired, Repeat(DelayElapsed, n));
  }

  /** Becoming writable before the deadline cancels the pending timeout: no error. */
  lemma WritableBeforeDeadline(w: Timer, stuck: Transport, ready: Transport)
    requires stuck.hasChannels && !stuck.writable
    requires ready.writable
    ensures Run(w, [Connecting(stuck), WritableChanged(ready), DelayElapsed]) == Timer(None, w.errorSignals)
  {
    var events := [Connecting(stuck), WritableChanged(ready), DelayElapsed];
    assert events[1..] == [WritableChanged(ready), DelayElapsed];
    assert events[1..][1..] == [DelayElapsed];
    var cancelled := WritableCheck(WritableCheck(w, stuck), ready);
    assert cancelled == Timer(None, w.errorSignals);
    assert Run(w, events) == Run(cancelled, [DelayElapsed]);
    assert Run(cancelled, [DelayElapsed]) == Run(Elapse(cancelled), []);
  }

  function Repeat(e: Event, n: nat): (r: seq<Event>)
    ensures |r| == n && forall i :: 0 <= i < n ==> r[i] == e
  {
    if n == 0 then [] else [e] + Repeat(e, n - 1)
  }
}
