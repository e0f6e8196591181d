/**
 * The WebRTC session's bookkeeping on the signalling thread: the local
 * candidate list and its observer notification, the routing of remote
 * candidates to the audio and video transport proxies, the writability
 * timeout slot, the installation of local and remote descriptions, and what
 * completing negotiation does to the session state and the channels.
 *
 * Collaborators are reduced to the fields the session reads and writes: a
 * transport proxy to its negotiated flag and the remote candidate batches it
 * was handed, a channel to its enable and mute flags, the observer to a log of
 * the lists it was handed, the error signal to a counter, and the description
 * factory to a function of exactly the inputs the session passes it.
 */
module WebRtc {
  import opened Wrappers
  import opened Candidates
  import opened Watchdog
  import opened Negotiation

  datatype MediaSessionOptions = MediaSessionOptions(hasAudio: bool, hasVideo: bool)

  /** A transport proxy: whether negotiation completed, and the remote candidate batches its transport received. */
  datatype TransportProxy = TransportProxy(negotiated: bool, remoteBatches: seq<seq<Candidate>>)

  /**
   * A group of remote candidates offered to a proxy: nothing happens for an
   * empty group or a missing proxy; otherwise the proxy completes negotiation
   * if it had not, and its transport receives the group.
   */
  function Delivered(proxy: Option<TransportProxy>, group: seq<Candidate>): Option<TransportProxy>
  {
    if group == [] || proxy.None? then proxy
    else Some(TransportProxy(true, proxy.value.remoteBatches + [group]))
  }

  /** Offering a non-empty group to a present proxy leaves it negotiated, having received the group exactly once more. */
  lemma DeliveredOnce(proxy: TransportProxy, group: seq<Candidate>)
    requires group != []
    ensures var r := Delivered(Some(proxy), group);
      r.Some? && r.value.negotiated && r.value.remoteBatches == proxy.remoteBatches + [group]
  {
  }

  /** Splits remote candidates by channel name into the audio group and the video group. */
  method PartitionCandidates(candidates: seq<Candidate>) returns (audio: seq<Candidate>, video: seq<Candidate>)
    ensures audio == AudioCandidates(candidates) && video == VideoCandidates(candidates)
  {
    audio, video := [], [];
    var i := 0;
    while i < |candidates|
      invariant 0 <= i <= |candidates|
      invariant audio == AudioCandidates(candidates[..i])
      invariant video == VideoCandidates(candidates[..i])
    {
      var c := candidates[i];
      assert candidates[..i + 1][..i] == candidates[..i];
      if c.name == RtpVideoChannelStr || c.name == RtcpVideoChannelStr {
        video := video + [c];
      } else {
        audio := audio + [c];
      }
      i := i + 1;
    }
    assert candidates[..i] == candidates;
  }

  class WebRtcSession {
    var localCandidates: seq<Candidate>
    var hasObserver: bool
    /** The candidate lists handed to the observer's OnCandidatesReady. */
    var candidatesReadyLog: seq<seq<Candidate>>
    var audioProxy: Option<TransportProxy>
    var videoProxy: Option<TransportProxy>
    /** The delay of the pending MSG_CANDIDATE_TIMEOUT message, if one is queued. */
    var pendingTimeout: Option<int>
    /** How many times SignalError was raised. */
    var errorSignals: nat
    var localDescription: Option<Description>
    var remoteDescription: Option<Description>
    var state: SessionState
    /** The states announced by each state change, in order. */
    var stateLog: seq<SessionState>
    var voiceChannel: Channel
    var videoChannel: Channel

    /** Local candidates have distinct channel names; the observer was told at most once, of the frozen full list. */
    ghost predicate Valid()
      reads this
    {
      AggregateInvariant(Aggregate(localCandidates, candidatesReadyLog))
    }

    /** A session whose channels (and so their transport proxies) have been created. */
    constructor (audioProxy: Option<TransportProxy>, videoProxy: Option<TransportProxy>)
      ensures Valid()
      ensures localCandidates == [] && !hasObserver && candidatesReadyLog == []
      ensures this.audioProxy == audioProxy && this.videoProxy == videoProxy
      ensures pendingTimeout.None? && errorSignals == 0
      ensures localDescription.None? && remoteDescription.None?
      ensures state == Init && stateLog == []
      ensures voiceChannel == Channel(false, None) && videoChannel == Channel(false, None)
    {
      localCandidates := [];
      hasObserver := false;
      candidatesReadyLog := [];
      this.audioProxy := audioProxy;
      this.videoProxy := videoProxy;
      pendingTimeout := None;
      errorSignals := 0;
      localDescription := None;
      remoteDescription := None;
      state := Init;
      stateLog := [];
      voiceChannel := Channel(false, None);
      videoChannel := Channel(false, None);
    }

    /** Registers or removes the observer that `OnTransportCandidatesReady` notifies. */
    method SetObserver(present: bool)
      modifies this`hasObserver
      ensures hasObserver == present
    {
      hasObserver := present;
    }

    // -------------------------------------------------------------------------
    // Remote candidates

    /** Routes remote candidates: video channel names to the video proxy, all others to the audio proxy. */
    method SetRemoteCandidates(candidates: seq<Candidate>)
      modifies this`audioProxy, this`videoProxy
      ensures audioProxy == Delivered(old(audioProxy), AudioCandidates(candidates))
      ensures videoProxy == Delivered(old(videoProxy), VideoCandidates(candidates))
    {
      var audio, video := PartitionCandidates(candidates);

      if audio != [] {
        match audioProxy
        case Some(proxy) =>
          var p := proxy;
          if !p.negotiated {
            p := p.(negotiated := true);
          }
          audioProxy := Some(p.(remoteBatches := p.remoteBatches + [audio]));
        case None =>
      }

      if video != [] {
        match videoProxy
        case Some(proxy) =>
          var p := proxy;
          if !p.negotiated {
            p := p.(negotiated := true);
          }
          videoProxy := Some(p.(remoteBatches := p.remoteBatches + [video]));
        case None =>
      }
    }

    // -------------------------------------------------------------------------
    // Writability watchdog

    /** A connecting transport is checked like a writability change. */
    method OnTransportConnecting(t: Transport)
      modifies this`pendingTimeout
      ensures Timer(pendingTimeout, errorSignals) == WritableCheck(Timer(old(pendingTimeout), old(errorSignals)), t)
      ensures pendingTimeout == if t.hasChannels && !t.writable then Some(CallSetupTimeout) else None
    {
      OnTransportWritable(t);
    }

    /** Cancels the pending timeout, then queues a new one iff the transport has channels and is not writable. */
    method OnTransportWritable(t: Transport)
      modifies this`pendingTimeout
      ensures Timer(pendingTimeout, errorSignals) == WritableCheck(Timer(old(pendingTimeout), old(errorSignals)), t)
      ensures pendingTimeout == if t.hasChannels && !t.writable then Some(CallSetupTimeout) else None
    {
      pendingTimeout := None;
      if t.hasChannels && !t.writable {
        pendingTimeout := Some(CallSetupTimeout);
      }
    }

    /** The timeout message raises one error signal; any other message does nothing. */
    method OnMessage(messageId: int)
      modifies this`pendingTimeout, this`errorSignals
      ensures Timer(pendingTimeout, errorSignals) == HandleMessage(Timer(old(pendingTimeout), old(errorSignals)), messageId)
      ensures errorSignals == if messageId == MsgCandidateTimeout then old(errorSignals) + 1 else old(errorSignals)
    {
      if messageId == MsgCandidateTimeout {
        errorSignals := errorSignals + 1;
      }
    }

    /** The signalling thread delivers the pending timeout message, if one is queued. */
    method DeliverCandidateTimeout()
      modifies this`pendingTimeout, this`errorSignals
      ensures Timer(pendingTimeout, errorSignals) == Elapse(Timer(old(pendingTimeout), old(errorSignals)))
    {
      if pendingTimeout.Some? {
        pendingTimeout := None;
        OnMessage(MsgCandidateTimeout);
      }
    }

    // -------------------------------------------------------------------------
    // Local candidates

    /** Whether a local candidate already has this channel name. */
    method CheckCandidate(name: string) returns (found: bool)
      ensures found <==> HasName(localCandidates, name)
    {
      found := false;
      var i := 0;
      while i < |localCandidates|
        invariant 0 <= i <= |localCandidates|
        invariant forall j :: 0 <= j < i ==> localCandidates[j].name != name
      {
        if localCandidates[i].name == name {
          found := true;
          break;
        }
        i := i + 1;
      }
    }

    /**
     * Appends each batch candidate whose channel name is not yet in the list.
     * Called only past the gate of OnTransportCandidatesReady, with the list not full.
     */
    method InsertTransportCandidates(batch: seq<Candidate>)
      requires Valid() && |localCandidates| != AllowedCandidates
      modifies this`localCandidates
      ensures Valid()
      ensures localCandidates == Accumulate(old(localCandidates), batch)
    {
      var i := 0;
      while i < |batch|
        invariant 0 <= i <= |batch|
        invariant Accumulate(localCandidates, batch[i..]) == Accumulate(old(localCandidates), batch)
      {
        var c := batch[i];
        var known := CheckCandidate(c.name);
        assert batch[i..][1..] == batch[i + 1..];
        if !known {
          localCandidates := localCandidates + [c];
        }
        i := i + 1;
      }
      assert batch[i..] == [];
      AccumulateKeepsDistinct(old(localCandidates), batch);
    }

    /**
     * Ignores the batch when the list already holds exactly the allowed number;
     * otherwise inserts it and hands the list to the observer, if there is one,
     * when the list now holds exactly the allowed number.
     */
    method OnTransportCandidatesReady(batch: seq<Candidate>)
      requires Valid()
      modifies this`localCandidates, this`candidatesReadyLog
      ensures Valid()
      ensures Aggregate(localCandidates, candidatesReadyLog) ==
              CandidatesReady(Aggregate(old(localCandidates), old(candidatesReadyLog)), hasObserver, batch)
      ensures |old(localCandidates)| == AllowedCandidates ==>
                localCandidates == old(localCandidates) && candidatesReadyLog == old(candidatesReadyLog)
      ensures candidatesReadyLog == old(candidatesReadyLog) + [localCandidates] <==>
                |old(localCandidates)| != AllowedCandidates && |localCandidates| == AllowedCandidates && hasObserver
      ensures candidatesReadyLog == old(candidatesReadyLog) || candidatesReadyLog == old(candidatesReadyLog) + [localCandidates]
    {
      if |localCandidates| == AllowedCandidates {
        return;
      }
      InsertTransportCandidates(batch);
      if |localCandidates| == AllowedCandidates && hasObserver {
        candidatesReadyLog := candidatesReadyLog + [localCandidates];
      }
      CandidatesReadyKeepsInvariant(Aggregate(old(localCandidates), old(candidatesReadyLog)), hasObserver, batch);
    }

    // -------------------------------------------------------------------------
    // Offer and answer

    /** Refuses an offer without video; otherwise installs and returns the factory's offer. */
    method ProvideOffer(options: MediaSessionOptions,
                        createOffer: (MediaSessionOptions, Option<Description>) -> Option<Description>)
      returns (offer: Option<Description>)
      modifies this`localDescription
      ensures !options.hasVideo ==> offer.None? && localDescription == old(localDescription)
      ensures options.hasVideo ==> offer == createOffer(options, old(localDescription)) && localDescription == offer
    {
      if !options.hasVideo {
        return None;
      }
      offer := createOffer(options, localDescription);
      localDescription := offer;
    }

    /** Installs the remote description whatever the state, routes the remote candidates, returns the description. */
    method SetRemoteSessionDescription(remoteOffer: Option<Description>, remoteCandidates: seq<Candidate>)
      returns (installed: Option<Description>)
      modifies this`remoteDescription, this`audioProxy, this`videoProxy
      ensures installed == remoteOffer && remoteDescription == remoteOffer
      ensures audioProxy == Delivered(old(audioProxy), AudioCandidates(remoteCandidates))
      ensures videoProxy == Delivered(old(videoProxy), VideoCandidates(remoteCandidates))
    {
      remoteDescription := remoteOffer;
      SetRemoteCandidates(remoteCandidates);
      installed := remoteOffer;
    }

    /** Installs and returns the factory's answer to the remote description. */
    method ProvideAnswer(options: MediaSessionOptions,
                         createAnswer: (Option<Description>, MediaSessionOptions, Option<Description>) -> Option<Description>)
      returns (answer: Option<Description>)
      modifies this`localDescription
      ensures answer == createAnswer(remoteDescription, options, old(localDescription))
      ensures localDescription == answer
    {
      answer := createAnswer(remoteDescription, options, localDescription);
      localDescription := answer;
    }

    // -------------------------------------------------------------------------
    // Negotiation completion

    /**
     * From Init, announces SentInitiate then ReceivedAccept and enables both
     * channels; then mutes each channel whose first content of its kind in the
     * local description has no stream, and unmutes it otherwise.
     */
    method NegotiationDone()
      modifies this`state, this`stateLog, this`voiceChannel, this`videoChannel
      ensures Negotiated(state, stateLog, voiceChannel, videoChannel) ==
              AfterNegotiationDone(Negotiated(old(state), old(stateLog), old(voiceChannel), old(videoChannel)),
                                   localDescription)
    {
      if state == Init {
        state, stateLog := SentInitiate, stateLog + [SentInitiate];
        state, stateLog := ReceivedAccept, stateLog + [ReceivedAccept];
        voiceChannel := voiceChannel.(enabled := true);
        videoChannel := videoChannel.(enabled := true);
      }

      var audioInfo := FirstContent(localDescription, Audio);
      if audioInfo.Some? {
        voiceChannel := voiceChannel.(muted := Some(audioInfo.value.streamCount == 0));
      }

      var videoInfo := FirstContent(localDescription, Video);
      if videoInfo.Some? {
        videoChannel := videoChannel.(muted := Some(videoInfo.value.streamCount == 0));
      }
    }
  }
}
