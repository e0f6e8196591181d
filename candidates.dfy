/**
 * Transport candidates as the session sees them: only the channel name of a
 * candidate is ever inspected. This module holds the specification of the
 * local candidate accumulator (first candidate per channel name wins, the
 * observer is told once the list holds exactly four) and of the partition
 * of remote candidates into an audio and a video group.
 */
module Candidates {

  /** A transport candidate; `address` stands for everything but the channel name. */
  datatype Candidate = Candidate(name: string, address: string)

  /** One candidate per transport channel: audio and video, each with RTP and RTCP. */
  const AllowedCandidates: nat := 4

  /** Channel names used by the video channel. */
  const RtpVideoChannelStr: string := "video_rtp"
  const RtcpVideoChannelStr: string := "video_rtcp"

  /** Channel names used by the audio channel. */
  const RtpAudioChannelStr: string := "rtp"
  const RtcpAudioChannelStr: string := "rtcp"

  /** The four transport channel names a session with one voice and one video channel produces. */
  const KnownChannelNames: set<string> :=
    {RtpAudioChannelStr, RtcpAudioChannelStr, RtpVideoChannelStr, RtcpVideoChannelStr}

  // ---------------------------------------------------------------------------
  // Names

  predicate HasName(s: seq<Candidate>, name: string)
  {
    exists i :: 0 <= i < |s| && s[i].name == name
  }

  function Names(s: seq<Candidate>): set<string>
  {
    set c | c in s :: c.name
  }

  ghost predicate DistinctNames(s: seq<Candidate>)
  {
    forall i, j :: 0 <= i < j < |s| ==> s[i].name != s[j].name
  }

  /** Index of the first candidate of `s` named `name`. */
  function FirstIndex(s: seq<Candidate>, name: string): (k: nat)
    requires HasName(s, name)
    ensures k < |s| && s[k].name == name
    ensures forall j :: 0 <= j < k ==> s[j].name != name
  {
    if s[0].name == name then 0
    else
      assert HasName(s[1..], name) by {
        var i :| 0 <= i < |s| && s[i].name == name;
        assert s[1..][i - 1] == s[i];
      }
      1 + FirstIndex(s[1..], name)
  }

  lemma HasNameIsInNames(s: seq<Candidate>, name: string)
    ensures HasName(s, name) <==> name in Names(s)
  {
  }

  lemma HasNameSnoc(s: seq<Candidate>, c: Candidate, name: string)
    ensures HasName(s + [c], name) <==> HasName(s, name) || c.name == name
  {
    if HasName(s, name) {
      var i :| 0 <= i < |s| && s[i].name == name;
      assert (s + [c])[i] == s[i];
    }
    if HasName(s + [c], name) && c.name != name {
      var i :| 0 <= i < |s + [c]| && (s + [c])[i].name == name;
      assert i < |s| && s[i] == (s + [c])[i];
    }
    if c.name == name {
      assert (s + [c])[|s|] == c;
    }
  }

  // ---------------------------------------------------------------------------
  // Accumulating local candidates

  /**
   * The local candidate list after a batch: each batch candidate, in order, is
   * appended when no candidate already in the list (including those appended
   * earlier from the same batch) has its channel name.
   */
  function Accumulate(acc: seq<Candidate>, batch: seq<Candidate>): seq<Candidate>
    decreases |batch|
  {
    if batch == [] then acc
    else Accumulate(if HasName(acc, batch[0].name) then acc else acc + [batch[0]], batch[1..])
  }

  /** The old list is a prefix of the new one, and a batch adds at most its own length. */
  lemma {:induction false} AccumulateExtends(acc: seq<Candidate>, batch: seq<Candidate>)
    ensures acc <= Accumulate(acc, batch)
    ensures |Accumulate(acc, batch)| <= |acc| + |batch|
    decreases |batch|
  {
    if batch != [] {
      var next := if HasName(acc, batch[0].name) then acc else acc + [batch[0]];
      AccumulateExtends(next, batch[1..]);
      assert acc <= next;
    }
  }

  /** Dedup: pairwise distinct channel names stay pairwise distinct. */
  lemma {:induction false} AccumulateKeepsDistinct(acc: seq<Candidate>, batch: seq<Candidate>)
    requires DistinctNames(acc)
    ensures DistinctNames(Accumulate(acc, batch))
    decreases |batch|
  {
    if batch != [] {
      var c := batch[0];
      if !HasName(acc, c.name) {
        var next := acc + [c];
        forall i, j | 0 <= i < j < |next| ensures next[i].name != next[j].name {
          if j == |acc| {
            assert next[i] == acc[i];
          } else {
            assert next[i] == acc[i] && next[j] == acc[j];
          }
        }
        AccumulateKeepsDistinct(next, batch[1..]);
      } else {
        AccumulateKeepsDistinct(acc, batch[1..]);
      }
    }
  }

  /** No channel name is lost: the names after a batch are the old names plus the batch's. */
  lemma {:induction false} AccumulateNames(acc: seq<Candidate>, batch: seq<Candidate>)
    ensures Names(Accumulate(acc, batch)) == Names(acc) + Names(batch)
    decreases |batch|
  {
    if batch != [] {
      var c := batch[0];
      var next := if HasName(acc, c.name) then acc else acc + [c];
      AccumulateNames(next, batch[1..]);
      assert batch == [c] + batch[1..];
      assert Names(batch) == {c.name} + Names(batch[1..]);
      HasNameIsInNames(acc, c.name);
      assert Names(next) == Names(acc) + {c.name};
    }
  }

  /**
   * First writer wins, in batch order: every appended candidate has a name the
   * old list lacked, is the first candidate of the batch with that name, and
   * appended candidates keep the order of their first occurrences in the batch.
   */
  lemma {:induction false} AccumulateAppendsFirstOccurrences(acc: seq<Candidate>, batch: seq<Candidate>)
    ensures var r := Accumulate(acc, batch);
      forall k :: |acc| <= k < |r| ==>
        !HasName(acc, r[k].name) && HasName(batch, r[k].name) &&
        r[k] == batch[FirstIndex(batch, r[k].name)]
    ensures var r := Accumulate(acc, batch);
      forall k1, k2 :: |acc| <= k1 < k2 < |r| ==>
        FirstIndex(batch, r[k1].name) < FirstIndex(batch, r[k2].name)
    decreases |batch|
  {
    var r := Accumulate(acc, batch);
    if batch != [] {
      var c := batch[0];
      var rest := batch[1..];
      var known := HasName(acc, c.name);
      var next := if known then acc else acc + [c];
      assert r == Accumulate(next, rest);
      AccumulateAppendsFirstOccurrences(next, rest);
      AccumulateExtends(next, rest);
      forall k | |next| <= k < |r|
        ensures r[k].name != c.name && !HasName(acc, r[k].name)
        ensures HasName(batch, r[k].name)
        ensures FirstIndex(batch, r[k].name) == 1 + FirstIndex(rest, r[k].name)
        ensures r[k] == batch[FirstIndex(batch, r[k].name)]
      {
        var n := r[k].name;
        HasNameSnoc(acc, c, n);
        var j := FirstIndex(rest, n);
        assert batch[1 + j] == rest[j];
      }
      if !known {
        assert r[|acc|] == next[|acc|] == c;
        assert HasName(batch, c.name) by { assert batch[0].name == c.name; }
        assert FirstIndex(batch, c.name) == 0;
      }
    }
  }

  /** A batch of new, pairwise distinct names is appended whole. */
  lemma {:induction false} AccumulateFresh(acc: seq<Candidate>, batch: seq<Candidate>)
    requires DistinctNames(acc + batch)
    ensures Accumulate(acc, batch) == acc + batch
    decreases |batch|
  {
    if batch != [] {
      var c := batch[0];
      var both := acc + batch;
      assert both[|acc|] == c;
      assert !HasName(acc, c.name) by {
        forall i | 0 <= i < |acc| ensures acc[i].name != c.name {
          assert both[i] == acc[i];
        }
      }
      assert (acc + [c]) + batch[1..] == both;
      AccumulateFresh(acc + [c], batch[1..]);
    }
  }

  /** A list with pairwise distinct names has as many names as entries. */
  lemma {:induction false} DistinctNamesCount(s: seq<Candidate>)
    requires DistinctNames(s)
    ensures |Names(s)| == |s|
    decreases |s|
  {
    if s != [] {
      var init := s[..|s| - 1];
      var last := s[|s| - 1];
      assert s == init + [last];
      assert DistinctNames(init) by {
        forall i, j | 0 <= i < j < |init| ensures init[i].name != init[j].name {
          assert init[i] == s[i] && init[j] == s[j];
        }
      }
      DistinctNamesCount(init);
      assert Names(s) == Names(init) + {last.name};
      assert last.name !in Names(init) by {
        HasNameIsInNames(init, last.name);
        forall i | 0 <= i < |init| ensures init[i].name != last.name {
          assert s[i] == init[i];
        }
      }
    }
  }

  lemma KnownChannelNamesCount()
    ensures |KnownChannelNames| == AllowedCandidates
  {
  }

  /**
   * While every name comes from the four channels of one voice and one video
   * channel, the distinct-name list never holds more than four candidates.
   */
  lemma AccumulateWithinKnownChannels(acc: seq<Candidate>, batch: seq<Candidate>)
    requires DistinctNames(acc)
    requires Names(acc) <= KnownChannelNames && Names(batch) <= KnownChannelNames
    ensures |Accumulate(acc, batch)| <= AllowedCandidates
  {
    var r := Accumulate(acc, batch);
    AccumulateKeepsDistinct(acc, batch);
    AccumulateNames(acc, batch);
    DistinctNamesCount(r);
    KnownChannelNamesCount();
    assert Names(r) <= KnownChannelNames;
    SubsetCardinality(Names(r), KnownChannelNames);
  }

  lemma SubsetCardinality<T>(a: set<T>, b: set<T>)
    requires a <= b
    ensures |a| <= |b|
  {
    assert b == a + (b - a);
  }

  // ---------------------------------------------------------------------------
  // The notification gate

  /** The local candidate list and the lists handed to the observer so far. */
  datatype Aggregate = Aggregate(local: seq<Candidate>, notified: seq<seq<Candidate>>)

  /**
   * One batch of local candidates: ignored once the list holds exactly the
   * allowed number; otherwise accumulated, and the observer (if any) is handed
   * the list when it now holds exactly the allowed number.
   */
  function CandidatesReady(a: Aggregate, hasObserver: bool, batch: seq<Candidate>): Aggregate
  {
    if |a.local| == AllowedCandidates then a
    else
      var local := Accumulate(a.local, batch);
      Aggregate(local, a.notified + if |local| == AllowedCandidates && hasObserver then [local] else [])
  }

  function RunCandidatesReady(a: Aggregate, hasObserver: bool, batches: seq<seq<Candidate>>): Aggregate
    decreases |batches|
  {
    if batches == [] then a
    else RunCandidatesReady(CandidatesReady(a, hasObserver, batches[0]), hasObserver, batches[1..])
  }

  /** Distinct names, at most one notification, and a notified list is the frozen full list. */
  ghost predicate AggregateInvariant(a: Aggregate)
  {
    DistinctNames(a.local) &&
    |a.notified| <= 1 &&
    (|a.notified| == 1 ==> |a.local| == AllowedCandidates && a.notified[0] == a.local)
  }

  lemma CandidatesReadyKeepsInvariant(a: Aggregate, hasObserver: bool, batch: seq<Candidate>)
    requires AggregateInvariant(a)
    ensures AggregateInvariant(CandidatesReady(a, hasObserver, batch))
  {
    if |a.local| != AllowedCandidates {
      AccumulateKeepsDistinct(a.local, batch);
    }
  }

  /** Once the list holds exactly the allowed number, no later batch changes anything. */
  lemma {:induction false} FullListIsFrozen(a: Aggregate, hasObserver: bool, batches: seq<seq<Candidate>>)
    requires |a.local| == AllowedCandidates
    ensures RunCandidatesReady(a, hasObserver, batches) == a
    decreases |batches|
  {
    if batches != [] {
      FullListIsFrozen(a, hasObserver, batches[1..]);
    }
  }

  /** Whatever the starting list, a sequence of batches notifies the observer at most once. */
  lemma {:induction false} NotifiedAtMostOnce(a: Aggregate, hasObserver: bool, batches: seq<seq<Candidate>>)
    ensures var r := RunCandidatesReady(a, hasObserver, batches);
      a.notified <= r.notified && |r.notified| <= |a.notified| + 1
    decreases |batches|
  {
    if batches != [] {
      var b := CandidatesReady(a, hasObserver, batches[0]);
      if |b.notified| == |a.notified| {
        NotifiedAtMostOnce(b, hasObserver, batches[1..]);
      } else {
        FullListIsFrozen(b, hasObserver, batches[1..]);
      }
    }
  }

  /** A run from a consistent state keeps the list distinct and the notification log at one entry at most. */
  lemma {:induction false} RunKeepsInvariant(a: Aggregate, hasObserver: bool, batches: seq<seq<Candidate>>)
    requires AggregateInvariant(a)
    ensures AggregateInvariant(RunCandidatesReady(a, hasObserver, batches))
    decreases |batches|
  {
    if batches != [] {
      CandidatesReadyKeepsInvariant(a, hasObserver, batches[0]);
      RunKeepsInvariant(CandidatesReady(a, hasObserver, batches[0]), hasObserver, batches[1..]);
    }
  }

  /**
   * The gate is an equality test on entry, not a bound: a list below the
   * allowed number that receives enough new names grows past it, the observer
   * is not told, and every later batch of new names is still accepted.
   */
  lemma CapCanBeOvershot(a: Aggregate, hasObserver: bool, batch: seq<Candidate>, later: seq<Candidate>)
    requires |a.local| < AllowedCandidates < |a.local| + |batch|
    requires DistinctNames(a.local + batch + later)
    ensures var r := CandidatesReady(a, hasObserver, batch);
      r.local == a.local + batch && |r.local| > AllowedCandidates && r.notified == a.notified &&
      CandidatesReady(r, hasObserver, later).local == r.local + later
  {
    var all := a.local + batch + later;
    assert DistinctNames(a.local + batch) by {
      forall i, j | 0 <= i < j < |a.local + batch|
        ensures (a.local + batch)[i].name != (a.local + batch)[j].name
      {
        assert (a.local + batch)[i] == all[i] && (a.local + batch)[j] == all[j];
      }
    }
    AccumulateFresh(a.local, batch);
    AccumulateFresh(a.local + batch, later);
  }

  /**
   * Past the cap for good: once the list holds more than four candidates, the
   * equality gate never closes again, so no later run of batches notifies,
   * and the list only grows.
   */
  lemma {:induction false} OvershotNeverNotifies(a: Aggregate, hasObserver: bool, batches: seq<seq<Candidate>>)
    requires |a.local| > AllowedCandidates
    ensures var r := RunCandidatesReady(a, hasObserver, batches);
      a.local <= r.local && |r.local| > AllowedCandidates && r.notified == a.notified
    decreases |batches|
  {
    if batches != [] {
      AccumulateExtends(a.local, batches[0]);
      OvershotNeverNotifies(CandidatesReady(a, hasObserver, batches[0]), hasObserver, batches[1..]);
    }
  }

  lemma {:induction false} RunAppend(a: Aggregate, hasObserver: bool, b1: seq<seq<Candidate>>, b2: seq<seq<Candidate>>)
    ensures RunCandidatesReady(a, hasObserver, b1 + b2) ==
            RunCandidatesReady(RunCandidatesReady(a, hasObserver, b1), hasObserver, b2)
    decreases |b1|
  {
    if b1 != [] {
      assert (b1 + b2)[0] == b1[0] && (b1 + b2)[1..] == b1[1..] + b2;
      RunAppend(CandidatesReady(a, hasObserver, b1[0]), hasObserver, b1[1..], b2);
    } else {
      assert b1 + b2 == b2;
    }
  }

  /** The first `k <= 4` single-candidate batches of distinct names fill the list in order; the fourth notifies. */
  lemma {:induction false} SingletonPrefix(cs: seq<Candidate>, batches: seq<seq<Candidate>>, k: nat)
    requires DistinctNames(cs) && |batches| == |cs|
    requires forall i :: 0 <= i < |cs| ==> batches[i] == [cs[i]]
    requires k <= AllowedCandidates && k <= |cs|
    ensures RunCandidatesReady(Aggregate([], []), true, batches[..k]) ==
            Aggregate(cs[..k], if k == AllowedCandidates then [cs[..k]] else [])
    decreases k
  {
    if k > 0 {
      SingletonPrefix(cs, batches, k - 1);
      assert batches[..k] == batches[..k - 1] + [[cs[k - 1]]];
      RunAppend(Aggregate([], []), true, batches[..k - 1], [[cs[k - 1]]]);
      assert DistinctNames(cs[..k - 1] + [cs[k - 1]]) by {
        assert cs[..k - 1] + [cs[k - 1]] == cs[..k];
        forall i, j | 0 <= i < j < k ensures cs[..k][i].name != cs[..k][j].name {
          assert cs[..k][i] == cs[i] && cs[..k][j] == cs[j];
        }
      }
      AccumulateFresh(cs[..k - 1], [cs[k - 1]]);
      assert cs[..k - 1] + [cs[k - 1]] == cs[..k];
    }
  }

  /**
   * Candidates of distinct channels arriving one per batch: the list keeps the
   * first four, the observer is told exactly once, and a fifth name is absent.
   */
  lemma OneAtATimeNotifiesOnce(cs: seq<Candidate>, batches: seq<seq<Candidate>>)
    requires DistinctNames(cs) && |cs| >= AllowedCandidates && |batches| == |cs|
    requires forall i :: 0 <= i < |cs| ==> batches[i] == [cs[i]]
    ensures var r := RunCandidatesReady(Aggregate([], []), true, batches);
      r == Aggregate(cs[..AllowedCandidates], [cs[..AllowedCandidates]]) &&
      forall i :: AllowedCandidates <= i < |cs| ==> !HasName(r.local, cs[i].name)
  {
    SingletonPrefix(cs, batches, AllowedCandidates);
    assert batches == batches[..AllowedCandidates] + batches[AllowedCandidates..];
    RunAppend(Aggregate([], []), true, batches[..AllowedCandidates], batches[AllowedCandidates..]);
    FullListIsFrozen(Aggregate(cs[..AllowedCandidates], [cs[..AllowedCandidates]]), true, batches[AllowedCandidates..]);
    forall i | AllowedCandidates <= i < |cs| ensures !HasName(cs[..AllowedCandidates], cs[i].name) {
      forall j | 0 <= j < AllowedCandidates ensures cs[..AllowedCandidates][j].name != cs[i].name {
        assert cs[..AllowedCandidates][j] == cs[j];
      }
    }
  }

  // ---------------------------------------------------------------------------
  // Partitioning remote candidates

  predicate IsVideoChannelName(name: string)
  {
    name == RtpVideoChannelStr || name == RtcpVideoChannelStr
  }

  /** The candidates of `s` named after a video channel, in order. */
  function VideoCandidates(s: seq<Candidate>): seq<Candidate>
    decreases |s|
  {
    if s == [] then []
    else VideoCandidates(s[..|s| - 1]) + if IsVideoChannelName(s[|s| - 1].name) then [s[|s| - 1]] else []
  }

  /** All other candidates of `s`, in order. */
  function AudioCandidates(s: seq<Candidate>): seq<Candidate>
    decreases |s|
  {
    if s == [] then []
    else AudioCandidates(s[..|s| - 1]) + if IsVideoChannelName(s[|s| - 1].name) then [] else [s[|s| - 1]]
  }

  /** `s` is a merge of `a` and `v`: each element of `s` is taken, in order, from exactly one of them. */
  ghost predicate Interleaving(s: seq<Candidate>, a: seq<Candidate>, v: seq<Candidate>)
    decreases |s|
  {
    if s == [] then a == [] && v == []
    else
      (a != [] && a[|a| - 1] == s[|s| - 1] && Interleaving(s[..|s| - 1], a[..|a| - 1], v)) ||
      (v != [] && v[|v| - 1] == s[|s| - 1] && Interleaving(s[..|s| - 1], a, v[..|v| - 1]))
  }

  /** Partition is exact and order-preserving: the input is a merge of the two groups. */
  lemma {:induction false} PartitionInterleaves(s: seq<Candidate>)
    ensures Interleaving(s, AudioCandidates(s), VideoCandidates(s))
    decreases |s|
  {
    if s != [] {
      var init := s[..|s| - 1];
      PartitionInterleaves(init);
      var a, v := AudioCandidates(s), VideoCandidates(s);
      if IsVideoChannelName(s[|s| - 1].name) {
        assert v == VideoCandidates(init) + [s[|s| - 1]] && a == AudioCandidates(init);
        assert v[..|v| - 1] == VideoCandidates(init);
      } else {
        assert a == AudioCandidates(init) + [s[|s| - 1]] && v == VideoCandidates(init);
        assert a[..|a| - 1] == AudioCandidates(init);
      }
    }
  }

  /** A candidate goes to the video group iff its name is a video channel name; the rest go to audio. */
  lemma {:induction false} PartitionRoutes(s: seq<Candidate>)
    ensures forall c :: c in VideoCandidates(s) <==> c in s && IsVideoChannelName(c.name)
    ensures forall c :: c in AudioCandidates(s) <==> c in s && !IsVideoChannelName(c.name)
    decreases |s|
  {
    if s != [] {
      var init := s[..|s| - 1];
      PartitionRoutes(init);
      assert s == init + [s[|s| - 1]];
    }
  }

  /** Every input candidate lands in exactly one group, counting repeats. */
  lemma {:induction false} PartitionCounts(s: seq<Candidate>)
    ensures multiset(AudioCandidates(s)) + multiset(VideoCandidates(s)) == multiset(s)
    decreases |s|
  {
    if s != [] {
      var init := s[..|s| - 1];
      PartitionCounts(init);
      assert s == init + [s[|s| - 1]];
    }
  }
}
