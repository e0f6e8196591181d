/**
 * Session descriptions as far as the session reads them (an ordered list of
 * contents, each of a media kind with a number of send streams), the session
 * state, the voice and video channels' enable and mute flags, and the
 * specification of what completing negotiation does to them.
 */
module Negotiation {
  import opened Wrappers

  /** The session states of the base session class. */
  datatype SessionState =
    | Init | SentInitiate | ReceivedInitiate | SentAccept | ReceivedAccept
    | SentModify | ReceivedModify | SentReject | ReceivedReject | SentRedirect
    | SentTerminate | ReceivedTerminate | InProgress | Deinit

  datatype MediaKind = Audio | Video | Data

  /** One content of a description: its name, media kind and number of send streams. */
  datatype Content = Content(name: string, kind: MediaKind, streamCount: nat)

  type Description = seq<Content>

  /**
   * A media channel as the session drives it. `muted` is None until the
   * session first mutes or unmutes the channel.
   */
  datatype Channel = Channel(enabled: bool, muted: Option<bool>)

  /** Index of the first content of kind `kind`, if there is one. */
  function FirstContentIndex(d: Description, kind: MediaKind): (r: Option<nat>)
    ensures r.Some? ==>
      r.value < |d| && d[r.value].kind == kind && forall j :: 0 <= j < r.value ==> d[j].kind != kind
    ensures r.None? ==> forall j :: 0 <= j < |d| ==> d[j].kind != kind
    decreases |d|
  {
    if d == [] then None
    else if d[0].kind == kind then Some(0)
    else
      match FirstContentIndex(d[1..], kind)
      case None => None
      case Some(k) => Some(k + 1)
  }

  /** The first content of kind `kind` of a description that may be absent. */
  function FirstContent(local: Option<Description>, kind: MediaKind): (r: Option<Content>)
    ensures r.Some? ==> local.Some? && r.value in local.value && r.value.kind == kind
    ensures r.None? <==> local.None? || forall c :: c in local.value ==> c.kind != kind
    ensures local.Some? && FirstContentIndex(local.value, kind).Some? ==>
              r == Some(local.value[FirstContentIndex(local.value, kind).value])
  {
    match local
    case None => None
    case Some(d) =>
      match FirstContentIndex(d, kind)
      case None => None
      case Some(k) => Some(d[k])
  }

  /** A channel is muted iff its content carries no stream; without a content it is left alone. */
  function MuteFromContent(ch: Channel, content: Option<Content>): Channel
  {
    match content
    case None => ch
    case Some(c) => ch.(muted := Some(c.streamCount == 0))
  }

  /** The part of the session that completing negotiation touches. */
  datatype Negotiated = Negotiated(state: SessionState, signalled: seq<SessionState>, voice: Channel, video: Channel)

  /**
   * Completing negotiation: from Init the session moves to SentInitiate and
   * then ReceivedAccept (both signalled) and enables both channels; in every
   * state each channel is then muted according to the first content of its
   * kind in the local description.
   */
  function AfterNegotiationDone(n: Negotiated, local: Option<Description>): Negotiated
  {
    var started :=
      if n.state == Init then
        Negotiated(ReceivedAccept, n.signalled + [SentInitiate, ReceivedAccept],
                   n.voice.(enabled := true), n.video.(enabled := true))
      else n;
    started.(voice := MuteFromContent(started.voice, FirstContent(local, Audio)),
             video := MuteFromContent(started.video, FirstContent(local, Video)))
  }

  /** From Init: the observed states are SentInitiate then ReceivedAccept, and both channels are enabled. */
  lemma NegotiationDoneFromInit(n: Negotiated, local: Option<Description>)
    requires n.state == Init
    ensures var r := AfterNegotiationDone(n, local);
      r.state == ReceivedAccept && r.signalled == n.signalled + [SentInitiate, ReceivedAccept] &&
      r.voice.enabled && r.video.enabled
  {
  }

  /** From any other state: no transition, no signal, enablement untouched. */
  lemma NegotiationDoneElsewhere(n: Negotiated, local: Option<Description>)
    requires n.state != Init
    ensures var r := AfterNegotiationDone(n, local);
      r.state == n.state && r.signalled == n.signalled &&
      r.voice.enabled == n.voice.enabled && r.video.enabled == n.video.enabled
  {
  }

  /**
   * Mute propagation: each channel's mute flag says whether the first content
   * of its kind has no stream, and is untouched when there is no such content.
   */
  lemma NegotiationDoneMutes(n: Negotiated, d: Description)
    ensures var r := AfterNegotiationDone(n, Some(d));
      (match FirstContentIndex(d, Audio)
       case Some(k) => r.voice.muted == Some(d[k].streamCount == 0)
       case None => r.voice.muted == n.voice.muted) &&
      (match FirstContentIndex(d, Video)
       case Some(k) => r.video.muted == Some(d[k].streamCount == 0)
       case None => r.video.muted == n.video.muted)
  {
  }

  /** Without a local description no channel is muted or unmuted. */
  lemma NegotiationDoneWithoutDescription(n: Negotiated)
    ensures var r := AfterNegotiationDone(n, None);
      r.voice.muted == n.voice.muted && r.video.muted == n.video.muted
  {
  }

  /** A second call changes nothing: the state has left Init and the mute flags are recomputed alike. */
  lemma NegotiationDoneIdempotent(n: Negotiated, local: Option<Description>)
    ensures AfterNegotiationDone(AfterNegotiationDone(n, local), local) == AfterNegotiationDone(n, local)
  {
  }

  /** An audio content without streams mutes the voice channel; a video content with one unmutes video. */
  lemma MuteExample(n: Negotiated)
    requires n.state == Init
    ensures var d := [Content("audio", Audio, 0), Content("video", Video, 1)];
      var r := AfterNegotiationDone(n, Some(d));
      r.voice == Channel(true, Some(true)) && r.video == Channel(true, Some(false))
  {
  }
}
