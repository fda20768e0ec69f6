/** Properties of the video client's negotiation, proved about the
    transition functions of Negotiation. */
module NegotiationProofs {
  import opened Protocol
  import opened Negotiation

  // ---------------------------------------------------------------------
  // createPeerConnection and ensureLocalMediaAndAttach

  /** createPeerConnection is idempotent: a second call returns the same
      connection and changes nothing. */
  lemma EnsurePeerConnectionIdempotent(s: Client)
    ensures EnsurePeerConnection(EnsurePeerConnection(s)) == EnsurePeerConnection(s)
    ensures s.pc.Some? ==> EnsurePeerConnection(s).pc == s.pc
  {
  }

  /** Tracks that all have a sender already add nothing. */
  lemma {:induction false} AttachCovered(senders: seq<Track>, tracks: seq<Track>)
    requires forall t :: t in tracks ==> HasSenderFor(senders, t)
    ensures AttachTracks(senders, tracks) == senders
    decreases |tracks|
  {
    if tracks != [] {
      assert tracks[0] in tracks;
      AttachCovered(senders, tracks[1..]);
    }
  }

  /** Attaching the same tracks twice adds nothing the second time. */
  lemma AttachTracksIdempotent(senders: seq<Track>, tracks: seq<Track>)
    ensures AttachTracks(AttachTracks(senders, tracks), tracks) == AttachTracks(senders, tracks)
  {
    AttachCovered(AttachTracks(senders, tracks), tracks);
  }

  /** ensureLocalMediaAndAttach is idempotent, keeps the connection's
      senders free of duplicates, and leaves the flags, the candidate
      queue, the negotiation state and the sent messages alone. */
  lemma AttachLocalMediaEffect(s: Client, camera: seq<Track>)
    requires s.pc.Some? ==> NoDuplicateSenders(s.pc.value.senders)
    ensures var r := AttachLocalMedia(s, camera);
      && AttachLocalMedia(r, camera) == r
      && NoDuplicateSenders(r.pc.value.senders)
      && r.(pc := s.pc, nextPc := s.nextPc, localStream := s.localStream) == s
      && (s.pc.Some? ==> r.pc.value.(senders := s.pc.value.senders) == s.pc.value)
      && (s.pc.None? ==> r.nextPc == s.nextPc + 1 && r.pc.value.id == s.nextPc
                         && r.pc.value.signalingState == Stable && !r.pc.value.hasRemoteDescription
                         && r.pc.value.candidates == [])
  {
    var r := AttachLocalMedia(s, camera);
    AttachTracksIdempotent(EnsurePeerConnection(s).pc.value.senders, r.localStream.value);
  }

  // ---------------------------------------------------------------------
  // Roles and the offer

  /** "paired": the initiator is impolite and the only one to start an
      offer; the other side is polite and waits. Both end up with a
      connection carrying their local media. */
  lemma PairedAssignsRoles(s: Client, initiator: bool, camera: seq<Track>)
    ensures var r := OnPaired(s, initiator, camera);
      && r.polite == !initiator
      && r.pc.Some? && r.localStream.Some?
      && r.suspended == s.suspended + (if initiator then [CreatingOffer(r.pc.value.id)] else [])
      && r.makingOffer == (initiator || s.makingOffer)
      && r.sent == s.sent
  {
  }

  /** makeAndSendOffer raises makingOffer for as long as it is suspended. */
  lemma StartOfferRaisesFlag(s: Client, camera: seq<Track>)
    ensures var r := StartOffer(s, camera);
      && r.makingOffer
      && r.suspended == s.suspended + [CreatingOffer(r.pc.value.id)]
      && r.sent == s.sent
  {
  }

  /** Whatever createOffer and setLocalDescription do, makeAndSendOffer
      ends with makingOffer cleared; it sends its offer exactly when the
      offer was made on the still-current connection in a state that takes
      a local offer, and then that connection has a local offer. */
  lemma FinishOfferEffect(s: Client, i: nat, offer: Option<Sdp>)
    requires i < |s.suspended| && s.suspended[i].CreatingOffer?
    ensures var r := FinishOffer(s, i, offer);
      var sends := Current(s, s.suspended[i].pc) && offer.Some?
                   && s.pc.value.signalingState != HaveRemoteOffer;
      && !r.makingOffer
      && |r.suspended| == |s.suspended| - 1
      && (sends ==> r.sent == s.sent + [Offer(offer.value)] && r.pc.value.signalingState == HaveLocalOffer)
      && (!sends ==> r.sent == s.sent && r.pc == s.pc)
  {
  }

  /** Perfect negotiation's collision rule: an incoming offer is ignored
      exactly when the client is impolite and is itself making an offer or
      not in the stable state. An ignored offer changes nothing but
      ignoreOffer (and the connection createPeerConnection may make); an
      accepted one raises isSettingRemoteDesc and starts answering. */
  lemma OfferIgnoredExactlyOnCollision(s: Client, camera: seq<Track>)
    ensures var r := OnOffer(s, camera);
      var collision := s.makingOffer || (s.pc.Some? && s.pc.value.signalingState != Stable);
      && (r.ignoreOffer <==> !s.polite && collision)
      && (r.ignoreOffer ==> r == EnsurePeerConnection(s).(ignoreOffer := true))
      && (!r.ignoreOffer ==> r.isSettingRemoteDesc
                             && r.suspended == s.suspended + [Answering(r.pc.value.id)]
                             && r.pendingCandidates == s.pendingCandidates
                             && r.sent == s.sent)
  {
  }

  /** The polite side never ignores an offer. */
  lemma PoliteNeverIgnoresOffer(s: Client, camera: seq<Track>)
    requires s.polite
    ensures !OnOffer(s, camera).ignoreOffer
    ensures OnOffer(s, camera).isSettingRemoteDesc
  {
  }

  /** Glare: when both peers are in the middle of an offer and receive each
      other's, exactly one of them yields, and it is the polite one. */
  lemma GlareResolvedByPoliteness(a: Client, b: Client, camera: seq<Track>)
    requires a.makingOffer && b.makingOffer
    requires a.polite != b.polite
    ensures OnOffer(a, camera).ignoreOffer != OnOffer(b, camera).ignoreOffer
    ensures a.polite ==> |OnOffer(a, camera).suspended| == |a.suspended| + 1
    ensures b.polite ==> |OnOffer(b, camera).suspended| == |b.suspended| + 1
  {
    OfferIgnoredExactlyOnCollision(a, camera);
    OfferIgnoredExactlyOnCollision(b, camera);
  }

  // ---------------------------------------------------------------------
  // The answer and ICE candidates

  /** An answer that arrives while a remote description is being set is
      dropped; otherwise the client starts applying it. */
  lemma AnswerDroppedWhileSettingRemote(s: Client)
    ensures s.isSettingRemoteDesc ==> OnAnswer(s) == EnsurePeerConnection(s)
    ensures !s.isSettingRemoteDesc ==>
      OnAnswer(s).suspended == s.suspended + [ApplyingAnswer(OnAnswer(s).pc.value.id)]
    ensures OnAnswer(s).sent == s.sent && OnAnswer(s).pendingCandidates == s.pendingCandidates
  {
  }

  /** A candidate is added at once when the connection has a remote
      description (and addIceCandidate takes it), and queued at the back
      otherwise. */
  lemma IceAppliedOrQueued(s: Client, cand: Candidate, accepted: bool)
    ensures var p := EnsurePeerConnection(s).pc.value;
      var r := OnIce(s, cand, accepted);
      && (p.hasRemoteDescription ==>
            r.pendingCandidates == s.pendingCandidates
            && r.pc.value.candidates == p.candidates + (if accepted then [cand] else []))
      && (!p.hasRemoteDescription ==>
            r.pendingCandidates == s.pendingCandidates + [cand] && r.pc == Some(p))
  {
  }

  /** The flush adds exactly the queued candidates that are not rejected. */
  lemma {:induction false} AdmittedExactly(cands: seq<Candidate>, rejected: set<Candidate>)
    ensures forall c :: c in Admitted(cands, rejected) <==> c in cands && c !in rejected
    decreases |cands|
  {
    if cands != [] {
      var init := cands[..|cands| - 1];
      AdmittedExactly(init, rejected);
      assert cands == init + [cands[|cands| - 1]];
    }
  }

  /** Admitting candidates distributes over concatenation: each candidate
      is tried on its own, in order. */
  lemma {:induction false} AdmittedAppend(a: seq<Candidate>, b: seq<Candidate>, rejected: set<Candidate>)
    ensures Admitted(a + b, rejected) == Admitted(a, rejected) + Admitted(b, rejected)
    decreases |b|
  {
    if b == [] {
      assert a + b == a;
    } else {
      var b' := b[..|b| - 1];
      assert (a + b)[..|a + b| - 1] == a + b';
      assert (a + b)[|a + b| - 1] == b[|b| - 1];
      AdmittedAppend(a, b', rejected);
    }
  }

  /** When nothing is rejected, every candidate is added, in order. */
  lemma {:induction false} AdmittedAll(cands: seq<Candidate>, rejected: set<Candidate>)
    requires forall c :: c in cands ==> c !in rejected
    ensures Admitted(cands, rejected) == cands
    decreases |cands|
  {
    if cands != [] {
      var init := cands[..|cands| - 1];
      assert cands[|cands| - 1] in cands;
      assert forall c :: c in init ==> c in cands;
      AdmittedAll(init, rejected);
      assert init + [cands[|cands| - 1]] == cands;
    }
  }

  /** A candidate that fails does not stop the drain: the ones queued after
      it are still tried. */
  lemma {:induction false} FailedCandidateDoesNotStopDrain(before: seq<Candidate>, bad: Candidate, after: seq<Candidate>,
                                        rejected: set<Candidate>)
    requires bad in rejected
    ensures Admitted(before + [bad] + after, rejected) == Admitted(before, rejected) + Admitted(after, rejected)
  {
    var pre := before + [bad];
    var a := Admitted(before, rejected);
    var b := Admitted(after, rejected);
    AdmittedAppend(before, [bad], rejected);
    AdmittedRejectedOne(bad, rejected);
    assert Admitted(pre, rejected) == a + [];
    assert a + [] == a;
    AdmittedAppend(pre, after, rejected);
    assert Admitted(pre + after, rejected) == a + b;
  }

  lemma AdmittedRejectedOne(bad: Candidate, rejected: set<Candidate>)
    requires bad in rejected
    ensures Admitted([bad], rejected) == []
  {
  }

  /** The offer handler, however far answering got, ends with
      isSettingRemoteDesc cleared and the candidate queue empty; if the
      remote offer was applied on the current connection, the queued
      candidates addIceCandidate takes are added in arrival order, and the
      answer is sent only when it was produced. */
  lemma FinishAnsweringEffect(s: Client, i: nat, result: AnswerResult, rejected: set<Candidate>)
    requires i < |s.suspended| && s.suspended[i].Answering?
    ensures var r := FinishAnswering(s, i, result, rejected);
      var applied := Current(s, s.suspended[i].pc) && !result.RemoteRejected?;
      && !r.isSettingRemoteDesc && r.pendingCandidates == []
      && (applied ==> r.pc.value.hasRemoteDescription
                      && r.pc.value.candidates
                         == s.pc.value.candidates + Admitted(s.pendingCandidates, rejected))
      && (applied && result.Answered? ==>
            r.sent == s.sent + [Answer(result.answer)] && r.pc.value.signalingState == Stable)
      && (!(applied && result.Answered?) ==> r.sent == s.sent)
  {
  }

  /** The answer handler as written leaves the queue alone, whether or not
      the answer takes. */
  lemma SettleAnswerAsWrittenKeepsQueue(s: Client, i: nat, accepted: bool)
    requires i < |s.suspended| && s.suspended[i].ApplyingAnswer?
    ensures var r := SettleAnswerAsWritten(s, i, accepted);
      && r.pendingCandidates == s.pendingCandidates
      && (AnswerTakes(s, i, accepted) <==> r.pc != s.pc)
      && (AnswerTakes(s, i, accepted) ==>
            r.pc.value.hasRemoteDescription && r.pc.value.signalingState == Stable)
  {
  }

  /** The corrected answer handler: once the answer takes, the queued
      candidates are added in order and the queue is empty. */
  lemma SettleAnswerDrains(s: Client, i: nat, accepted: bool, rejected: set<Candidate>)
    requires i < |s.suspended| && s.suspended[i].ApplyingAnswer?
    ensures var r := SettleAnswer(s, i, accepted, rejected);
      && (AnswerTakes(s, i, accepted) ==>
            r.pendingCandidates == []
            && r.pc.value.candidates == s.pc.value.candidates + Admitted(s.pendingCandidates, rejected))
      && (!AnswerTakes(s, i, accepted) ==> r.pendingCandidates == s.pendingCandidates && r.pc == s.pc)
  {
  }

  // ---------------------------------------------------------------------
  // cleanup

  /** cleanup drops the connection and the local stream and resets the
      flags and the queue; politeness, the suspended handlers and the sent
      messages are untouched, and a second cleanup changes nothing. */
  lemma CleanupResets(s: Client)
    ensures var r := Cleanup(s);
      && r.pc.None? && r.localStream.None?
      && !r.makingOffer && !r.ignoreOffer && !r.isSettingRemoteDesc && r.pendingCandidates == []
      && r.polite == s.polite && r.suspended == s.suspended && r.sent == s.sent
      && r.nextPc == s.nextPc
      && Cleanup(r) == r
  {
  }

  /** After "partner-left", the connection the next pairing creates has
      a newer id than every suspended handler's, so none of them is on the
      current connection any more. */
  lemma StaleTaskCannotTouchNewConnection(s: Client, camera: seq<Track>, t: Task)
    requires WellFormed(s) && t in s.suspended
    ensures !Current(EnsurePeerConnection(Cleanup(s)), t.pc)
    ensures !Current(OnPaired(Cleanup(s), false, camera), t.pc)
    ensures !Current(OnPaired(Cleanup(s), true, camera), t.pc)
  {
  }

  /** A handler resumed after its connection was replaced leaves the
      current connection alone and sends nothing, in the program as
      written and with the corrected answer handler alike. */
  lemma StaleResumptionLeavesConnection(s: Client, e: Event)
    requires Enabled(s, e) && !e.Received?
    requires !Current(s, s.suspended[e.task].pc)
    ensures NextAsWritten(s, e).pc == s.pc && NextAsWritten(s, e).sent == s.sent
    ensures NextCorrected(s, e).pc == s.pc && NextCorrected(s, e).sent == s.sent
  {
  }

  /** What a stale offer handler still does to the module's variables:
      its `finally`, resumed after "partner-left" and a new pairing,
      clears isSettingRemoteDesc and empties the candidate queue of the
      new session, losing the candidate "x" queued for it. */
  lemma StaleAnswerHandlerClearsNewSession()
    ensures var s1 := NextAsWritten(Initial, Received(Paired(false), [], true));
      var s2 := NextAsWritten(s1, Received(Offer("o1"), [], true));
      var s3 := NextAsWritten(s2, Received(PartnerLeft, [], true));
      var s4 := NextAsWritten(s3, Received(Paired(false), [], true));
      var s5 := NextAsWritten(s4, Received(Offer("o2"), [], true));
      var s6 := NextAsWritten(s5, Received(Ice("x"), [], true));
      && s6.suspended == [Answering(0), Answering(1)]
      && s6.isSettingRemoteDesc && s6.pendingCandidates == ["x"]
      && var r := NextAsWritten(s6, OfferAnswered(0, RemoteRejected, {}));
         && r.suspended == [Answering(1)]
         && !r.isSettingRemoteDesc && r.pendingCandidates == []
         && r.pc == s6.pc
  {
    PoliteSessionOpens();
    PoliteSessionLeft();
    SecondPoliteSession();
  }

  /** A connection just created: nothing negotiated, no tracks. */
  function Fresh(id: nat): (p: PeerConnection)
    ensures p.id == id && p.signalingState == Stable && !p.hasRemoteDescription
  {
    PeerConnection(id, Stable, false, [], [])
  }

  // The steps of that trace, each from a state written out in full.

  lemma PoliteSessionOpens()
    ensures NextAsWritten(Initial, Received(Paired(false), [], true))
         == Client(Some(Fresh(0)), 1, Some([]), false, true, false, false, [], [], [])
    ensures NextAsWritten(Client(Some(Fresh(0)), 1, Some([]), false, true, false, false, [], [], []),
                          Received(Offer("o1"), [], true))
         == Client(Some(Fresh(0)), 1, Some([]), false, true, false, true, [], [Answering(0)], [])
  {
  }

  lemma PoliteSessionLeft()
    ensures NextAsWritten(Client(Some(Fresh(0)), 1, Some([]), false, true, false, true, [], [Answering(0)], []),
                          Received(PartnerLeft, [], true))
         == Client(None, 1, None, false, true, false, false, [], [Answering(0)], [])
    ensures NextAsWritten(Client(None, 1, None, false, true, false, false, [], [Answering(0)], []),
                          Received(Paired(false), [], true))
         == Client(Some(Fresh(1)), 2, Some([]), false, true, false, false, [], [Answering(0)], [])
  {
  }

  lemma SecondPoliteSession()
    ensures NextAsWritten(Client(Some(Fresh(1)), 2, Some([]), false, true, false, false, [], [Answering(0)], []),
                          Received(Offer("o2"), [], true))
         == Client(Some(Fresh(1)), 2, Some([]), false, true, false, true, [], [Answering(0), Answering(1)], [])
    ensures NextAsWritten(Client(Some(Fresh(1)), 2, Some([]), false, true, false, true, [], [Answering(0), Answering(1)], []),
                          Received(Ice("x"), [], true))
         == Client(Some(Fresh(1)), 2, Some([]), false, true, false, true, ["x"], [Answering(0), Answering(1)], [])
    ensures NextAsWritten(Client(Some(Fresh(1)), 2, Some([]), false, true, false, true, ["x"], [Answering(0), Answering(1)], []),
                          OfferAnswered(0, RemoteRejected, {}))
         == Client(Some(Fresh(1)), 2, Some([]), false, true, false, false, [], [Answering(1)], [])
  {
  }

  /** The `finally` of a stale makeAndSendOffer clears makingOffer while
      the new session's offer is still being made. */
  lemma StaleOfferHandlerClearsNewSession()
    ensures var t1 := NextAsWritten(Initial, Received(Paired(true), [], true));
      var t2 := NextAsWritten(t1, Received(PartnerLeft, [], true));
      var t3 := NextAsWritten(t2, Received(Paired(true), [], true));
      && t3.suspended == [CreatingOffer(0), CreatingOffer(1)] && t3.makingOffer
      && var r := NextAsWritten(t3, OfferCreated(0, None));
         && r.suspended == [CreatingOffer(1)] && !r.makingOffer
  {
    InitiatorSessionOpens();
    InitiatorSessionLeft();
    SecondInitiatorSession();
  }

  // The steps of the initiator's traces.

  lemma InitiatorSessionOpens()
    ensures NextAsWritten(Initial, Received(Paired(true), [], true))
         == Client(Some(Fresh(0)), 1, Some([]), true, false, false, false, [], [CreatingOffer(0)], [])
  {
  }

  lemma InitiatorSessionLeft()
    ensures NextAsWritten(Client(Some(Fresh(0)), 1, Some([]), true, false, false, false, [], [CreatingOffer(0)], []),
                          Received(PartnerLeft, [], true))
         == Client(None, 1, None, false, false, false, false, [], [CreatingOffer(0)], [])
  {
  }

  lemma SecondInitiatorSession()
    ensures NextAsWritten(Client(None, 1, None, false, false, false, false, [], [CreatingOffer(0)], []),
                          Received(Paired(true), [], true))
         == Client(Some(Fresh(1)), 2, Some([]), true, false, false, false, [], [CreatingOffer(0), CreatingOffer(1)], [])
    ensures NextAsWritten(Client(Some(Fresh(1)), 2, Some([]), true, false, false, false, [], [CreatingOffer(0), CreatingOffer(1)], []),
                          OfferCreated(0, None))
         == Client(Some(Fresh(1)), 2, Some([]), false, false, false, false, [], [CreatingOffer(1)], [])
  {
  }

  lemma InitiatorOfferAnswered()
    ensures NextAsWritten(Client(Some(Fresh(0)), 1, Some([]), true, false, false, false, [], [CreatingOffer(0)], []),
                          OfferCreated(0, Some("o")))
         == Client(Some(Fresh(0).(signalingState := HaveLocalOffer)), 1, Some([]), false, false, false, false, [], [], [Offer("o")])
    ensures NextAsWritten(Client(Some(Fresh(0).(signalingState := HaveLocalOffer)), 1, Some([]), false, false, false, false, [], [], [Offer("o")]),
                          Received(Answer("a"), [], true))
         == Client(Some(Fresh(0).(signalingState := HaveLocalOffer)), 1, Some([]), false, false, false, false, [], [ApplyingAnswer(0)], [Offer("o")])
    ensures NextAsWritten(Client(Some(Fresh(0).(signalingState := HaveLocalOffer)), 1, Some([]), false, false, false, false, [], [ApplyingAnswer(0)], [Offer("o")]),
                          Received(Ice("c"), [], true))
         == Client(Some(Fresh(0).(signalingState := HaveLocalOffer)), 1, Some([]), false, false, false, false, ["c"], [ApplyingAnswer(0)], [Offer("o")])
  {
  }

  // ---------------------------------------------------------------------
  // The invariant

  lemma ValidInitial()
    ensures Valid(Initial)
  {
  }

  /** ensureLocalMediaAndAttach keeps both parts of the invariant. */
  lemma ValidAttach(s: Client, camera: seq<Track>)
    requires WellFormed(s)
    ensures WellFormed(AttachLocalMedia(s, camera))
    ensures NoStrandedCandidates(s) ==> NoStrandedCandidates(AttachLocalMedia(s, camera))
    ensures AttachLocalMedia(s, camera).suspended == s.suspended
  {
    AttachLocalMediaEffect(s, camera);
  }

  lemma ValidPaired(s: Client, initiator: bool, camera: seq<Track>)
    requires WellFormed(s)
    ensures WellFormed(OnPaired(s, initiator, camera))
    ensures NoStrandedCandidates(s) ==> NoStrandedCandidates(OnPaired(s, initiator, camera))
  {
    var s0 := s.(polite := !initiator);
    ValidAttach(s0, camera);
    var s1 := AttachLocalMedia(s0, camera);
    if initiator {
      ValidAttach(EnsurePeerConnection(s1.(makingOffer := true)), camera);
    }
  }

  lemma ValidOffer(s: Client, camera: seq<Track>)
    requires WellFormed(s)
    ensures WellFormed(OnOffer(s, camera))
    ensures NoStrandedCandidates(s) ==> NoStrandedCandidates(OnOffer(s, camera))
  {
    var s1 := EnsurePeerConnection(s);
    if !(!s1.polite && (s1.makingOffer || s1.pc.value.signalingState != Stable)) {
      ValidAttach(s1.(ignoreOffer := false, isSettingRemoteDesc := true), camera);
    }
  }

  lemma ValidIce(s: Client, cand: Candidate, ok: bool)
    requires WellFormed(s)
    ensures WellFormed(OnIce(s, cand, ok))
    ensures NoStrandedCandidates(s) ==> NoStrandedCandidates(OnIce(s, cand, ok))
  {
  }

  /** Every message keeps both parts of the invariant. */
  lemma ValidReceive(s: Client, m: Message, camera: seq<Track>, ok: bool)
    requires WellFormed(s)
    ensures WellFormed(Receive(s, m, camera, ok))
    ensures NoStrandedCandidates(s) ==> NoStrandedCandidates(Receive(s, m, camera, ok))
  {
    match m
    case Paired(initiator) => ValidPaired(s, initiator, camera);
    case Offer(_) => ValidOffer(s, camera);
    case Ice(cand) => ValidIce(s, cand, ok);
    case _ =>
  }

  lemma ValidFinishOffer(s: Client, i: nat, offer: Option<Sdp>)
    requires WellFormed(s) && i < |s.suspended| && s.suspended[i].CreatingOffer?
    ensures WellFormed(FinishOffer(s, i, offer))
    ensures NoStrandedCandidates(s) ==> NoStrandedCandidates(FinishOffer(s, i, offer))
  {
  }

  lemma ValidFinishAnswering(s: Client, i: nat, result: AnswerResult, rejected: set<Candidate>)
    requires WellFormed(s) && i < |s.suspended| && s.suspended[i].Answering?
    ensures Valid(FinishAnswering(s, i, result, rejected))
  {
  }

  /** The answer handler as written keeps the well-formedness part. */
  lemma WellFormedSettleAnswerAsWritten(s: Client, i: nat, accepted: bool)
    requires WellFormed(s) && i < |s.suspended| && s.suspended[i].ApplyingAnswer?
    ensures WellFormed(SettleAnswerAsWritten(s, i, accepted))
  {
  }

  /** The corrected answer handler keeps the whole invariant. */
  lemma ValidSettleAnswer(s: Client, i: nat, accepted: bool, rejected: set<Candidate>)
    requires Valid(s) && i < |s.suspended| && s.suspended[i].ApplyingAnswer?
    ensures Valid(SettleAnswer(s, i, accepted, rejected))
  {
  }

  /** The client as written keeps its connection free of duplicate
      senders, and its suspended handlers on connections older than the
      next one, whatever happens. */
  lemma WellFormedNextAsWritten(s: Client, e: Event)
    requires WellFormed(s) && Enabled(s, e)
    ensures WellFormed(NextAsWritten(s, e))
  {
    match e
    case Received(m, camera, ok) => ValidReceive(s, m, camera, ok);
    case OfferCreated(i, offer) => ValidFinishOffer(s, i, offer);
    case OfferAnswered(i, result, rejected) => ValidFinishAnswering(s, i, result, rejected);
    case AnswerSettled(i, accepted, _) => WellFormedSettleAnswerAsWritten(s, i, accepted);
  }

  /** With the corrected answer handler every step also keeps the queue
      empty once the connection has a remote description, so no candidate
      is ever stranded. The program as written does not keep this (see
      AnswerRaceStrandsCandidate). */
  lemma ValidNextCorrected(s: Client, e: Event)
    requires Valid(s) && Enabled(s, e)
    ensures Valid(NextCorrected(s, e))
  {
    match e
    case Received(m, camera, ok) => ValidReceive(s, m, camera, ok);
    case OfferCreated(i, offer) => ValidFinishOffer(s, i, offer);
    case OfferAnswered(i, result, rejected) => ValidFinishAnswering(s, i, result, rejected);
    case AnswerSettled(i, accepted, rejected) => ValidSettleAnswer(s, i, accepted, rejected);
  }

  // ---------------------------------------------------------------------
  // The stranded-candidate race

  /** The initiator's state just before its answer settles, reached from
      page load: paired as initiator, offer made and sent, answer received,
      and then an ICE candidate "c" that arrived before the answer took. */
  function BeforeAnswerSettles(): (s: Client)
    ensures s.suspended == [ApplyingAnswer(0)]
    ensures s.pendingCandidates == ["c"]
    ensures s.pc.Some? && s.pc.value.signalingState == HaveLocalOffer && !s.pc.value.hasRemoteDescription
    ensures Valid(s)
  {
    InitiatorSessionOpens();
    InitiatorOfferAnswered();
    var s1 := NextAsWritten(Initial, Received(Paired(true), [], true));
    var s2 := NextAsWritten(s1, OfferCreated(0, Some("o")));
    var s3 := NextAsWritten(s2, Received(Answer("a"), [], true));
    NextAsWritten(s3, Received(Ice("c"), [], true))
  }

  /** With the answer handler as written, the candidate is stranded: the
      connection now has a remote description while "c" is still queued
      and has not been added. The corrected handler adds it. */
  lemma AnswerRaceStrandsCandidate()
    ensures var w := NextAsWritten(BeforeAnswerSettles(), AnswerSettled(0, true, {}));
      && w.pc.value.hasRemoteDescription
      && w.pendingCandidates == ["c"]
      && "c" !in w.pc.value.candidates
      && !NoStrandedCandidates(w)
    ensures var c := NextCorrected(BeforeAnswerSettles(), AnswerSettled(0, true, {}));
      && c.pendingCandidates == []
      && c.pc.value.candidates == ["c"]
      && NoStrandedCandidates(c)
  {
    var s := BeforeAnswerSettles();
    assert s.pc.value.candidates == [];
    assert Admitted(["c"], {}) == ["c"] by {
      assert ["c"][..0] == [];
    }
  }

  /** Once stranded, the queue stays as it is through every later step of
      the program as written except the resumption of an offer handler and
      cleanup: ice messages go straight to the connection, which keeps its
      remote description, and nothing else reads the queue. */
  lemma StrandedQueueSurvivesAsWritten(s: Client, e: Event)
    requires Enabled(s, e) && s.pc.Some? && s.pc.value.hasRemoteDescription
    requires !e.OfferAnswered? && !(e.Received? && e.msg.PartnerLeft?)
    ensures NextAsWritten(s, e).pendingCandidates == s.pendingCandidates
    ensures NextAsWritten(s, e).pc.Some? && NextAsWritten(s, e).pc.value.hasRemoteDescription
  {
    if e.Received? && e.msg.Paired? {
      var s0 := s.(polite := !e.msg.initiator);
      AttachKeepsConnection(s0, e.camera);
      var s1 := AttachLocalMedia(s0, e.camera);
      if e.msg.initiator {
        AttachKeepsConnection(s1.(makingOffer := true), e.camera);
      }
    } else if e.Received? && e.msg.Offer? {
      var s1 := EnsurePeerConnection(s);
      AttachKeepsConnection(s1.(ignoreOffer := false, isSettingRemoteDesc := true), e.camera);
    }
  }

  /** Attaching media to an existing connection changes only its senders. */
  lemma AttachKeepsConnection(s: Client, camera: seq<Track>)
    requires s.pc.Some?
    ensures AttachLocalMedia(s, camera).pc.value.(senders := s.pc.value.senders) == s.pc.value
    ensures AttachLocalMedia(s, camera).pendingCandidates == s.pendingCandidates
  {
  }
}
