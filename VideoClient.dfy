/** The video client of public/video.js as it runs: module-level variables
    updated in place by its handlers. Each handler, split at its awaits as
    in Negotiation, is proved to have exactly the effect of its transition
    function there, so every property proved in NegotiationProofs holds of
    it. `Step` runs the handlers as written; `StepCorrected` runs the
    corrected answer handler instead. */
module VideoClient {
  import opened Protocol
  import opened Negotiation

  /** The forEach of ensureLocalMediaAndAttach: for each track, look for a
      sender carrying it and add one if there is none. */
  method AddMissingTracks(senders: seq<Track>, tracks: seq<Track>) returns (r: seq<Track>)
    ensures r == AttachTracks(senders, tracks)
  {
    r := senders;
    for k := 0 to |tracks|
      invariant AttachTracks(r, tracks[k..]) == AttachTracks(senders, tracks)
    {
      var t := tracks[k];
      assert tracks[k..][1..] == tracks[k + 1..];
      var found := HasSenderFor(r, t);
      if !found {
        r := r + [t];
      }
    }
  }

  class Client {
    var pc: Option<PeerConnection>
    var nextPc: nat
    var localStream: Option<seq<Track>>
    var makingOffer: bool
    var polite: bool
    var ignoreOffer: bool
    var isSettingRemoteDesc: bool
    var pendingCandidates: seq<Candidate>
    var suspended: seq<Task>
    var sent: seq<Message>

    /** The client's whole state as a value. */
    function Snapshot(): Negotiation.Client
      reads this
    {
      Negotiation.Client(pc, nextPc, localStream, makingOffer, polite, ignoreOffer,
                         isSettingRemoteDesc, pendingCandidates, suspended, sent)
    }

    /** The module's top-level declarations. */
    constructor ()
      ensures Snapshot() == Initial
    {
      pc, nextPc, localStream := None, 0, None;
      makingOffer, polite, ignoreOffer, isSettingRemoteDesc := false, false, false, false;
      pendingCandidates, suspended, sent := [], [], [];
    }

    /** createPeerConnection. */
    method CreatePeerConnection() returns (p: PeerConnection)
      modifies this
      ensures pc == Some(p)
      ensures Snapshot() == EnsurePeerConnection(old(Snapshot()))
    {
      if pc.Some? {
        return pc.value;
      }
      p := PeerConnection(nextPc, Stable, false, [], []);
      nextPc := nextPc + 1;
      pc := Some(p);
    }

    /** ensureLocalMediaAndAttach; `camera` is what getUserMedia yields. */
    method EnsureLocalMediaAndAttach(camera: seq<Track>)
      modifies this
      ensures Snapshot() == AttachLocalMedia(old(Snapshot()), camera)
    {
      if localStream.None? {
        localStream := Some(camera);
      }
      var p := CreatePeerConnection();
      var senders := AddMissingTracks(p.senders, localStream.value);
      pc := Some(p.(senders := senders));
    }

    /** makeAndSendOffer up to `await p.createOffer()`. */
    method MakeAndSendOffer(camera: seq<Track>)
      modifies this
      ensures Snapshot() == StartOffer(old(Snapshot()), camera)
    {
      makingOffer := true;
      var p := CreatePeerConnection();
      EnsureLocalMediaAndAttach(camera);
      suspended := suspended + [CreatingOffer(p.id)];
    }

    /** makeAndSendOffer from createOffer on: `offer` is None when
        createOffer or setLocalDescription rejects. */
    method ResumeOffer(i: nat, offer: Option<Sdp>)
      requires i < |suspended| && suspended[i].CreatingOffer?
      modifies this
      ensures Snapshot() == FinishOffer(old(Snapshot()), i, offer)
    {
      var id := suspended[i].pc;
      var live := pc.Some? && pc.value.id == id;
      suspended := suspended[..i] + suspended[i + 1..];
      if live && offer.Some? && pc.value.signalingState != HaveRemoteOffer {
        pc := Some(pc.value.(signalingState := HaveLocalOffer));
        sent := sent + [Offer(offer.value)];
      }
      makingOffer := false;
    }

    /** handleMsg up to its first await. */
    method HandleMsg(msg: Message, camera: seq<Track>, iceAccepted: bool)
      modifies this
      ensures Snapshot() == Receive(old(Snapshot()), msg, camera, iceAccepted)
    {
      match msg
      case Paired(initiator) => HandlePaired(initiator, camera);
      case Offer(_) => HandleOffer(camera);
      case Answer(_) =>
        var p := CreatePeerConnection();
        if !isSettingRemoteDesc {
          suspended := suspended + [ApplyingAnswer(p.id)];
        }
      case Ice(candidate) =>
        var p := CreatePeerConnection();
        if p.hasRemoteDescription {
          if iceAccepted {
            pc := Some(p.(candidates := p.candidates + [candidate]));
          }
        } else {
          pendingCandidates := pendingCandidates + [candidate];
        }
      case PartnerLeft =>
        Cleanup();
      case _ =>
    }

    /** The "paired" case. */
    method HandlePaired(initiator: bool, camera: seq<Track>)
      modifies this
      ensures Snapshot() == OnPaired(old(Snapshot()), initiator, camera)
    {
      polite := !initiator;
      EnsureLocalMediaAndAttach(camera);
      var _ := CreatePeerConnection();
      if initiator {
        MakeAndSendOffer(camera);
      }
    }

    /** The "offer" case up to its first await. */
    method HandleOffer(camera: seq<Track>)
      modifies this
      ensures Snapshot() == OnOffer(old(Snapshot()), camera)
    {
      var p := CreatePeerConnection();
      var offerCollision := makingOffer || p.signalingState != Stable;
      ignoreOffer := !polite && offerCollision;
      if ignoreOffer {
        return;
      }
      isSettingRemoteDesc := true;
      EnsureLocalMediaAndAttach(camera);
      suspended := suspended + [Answering(p.id)];
    }

    /** The "offer" case from setRemoteDescription on, its `finally` and
        the flush of queued candidates. */
    method ResumeAnswering(i: nat, result: AnswerResult, rejected: set<Candidate>)
      requires i < |suspended| && suspended[i].Answering?
      modifies this
      ensures Snapshot() == FinishAnswering(old(Snapshot()), i, result, rejected)
    {
      var id := suspended[i].pc;
      suspended := suspended[..i] + suspended[i + 1..];
      if pc.Some? && pc.value.id == id {
        match result
        case RemoteRejected =>
        case AnswerFailed =>
          pc := Some(pc.value.(signalingState := HaveRemoteOffer, hasRemoteDescription := true));
        case Answered(a) =>
          pc := Some(pc.value.(signalingState := Stable, hasRemoteDescription := true));
          sent := sent + [Answer(a)];
      }
      isSettingRemoteDesc := false;
      FlushPendingCandidates(id, rejected);
    }

    /** `while (pendingCandidates.length) { ... pendingCandidates.shift() ... }`
        on the connection with id `id`. */
    method FlushPendingCandidates(id: nat, rejected: set<Candidate>)
      modifies this
      ensures Snapshot() == DrainPending(old(Snapshot()), id, rejected)
    {
      var usable := pc.Some? && pc.value.id == id && pc.value.hasRemoteDescription;
      ghost var queued := pendingCandidates;
      ghost var p0 := if pc.Some? then pc.value else PeerConnection(id, Stable, false, [], []);
      ghost var k := 0;
      ghost var admitted: seq<Candidate> := [];
      assert queued[..0] == [];
      assert usable ==> p0.candidates + [] == p0.candidates;
      while |pendingCandidates| > 0
        invariant 0 <= k <= |queued|
        invariant pendingCandidates == queued[k..]
        invariant admitted == Admitted(queued[..k], rejected)
        invariant usable ==> pc == Some(p0.(candidates := p0.candidates + admitted))
        invariant !usable ==> pc == old(pc)
        invariant nextPc == old(nextPc) && localStream == old(localStream) && suspended == old(suspended)
        invariant makingOffer == old(makingOffer) && polite == old(polite) && ignoreOffer == old(ignoreOffer)
        invariant isSettingRemoteDesc == old(isSettingRemoteDesc) && sent == old(sent)
        decreases |pendingCandidates|
      {
        var cand := pendingCandidates[0];
        assert cand == queued[k];
        AdmittedStep(queued, k, rejected);
        pendingCandidates := pendingCandidates[1..];
        if cand !in rejected {
          if usable {
            pc := Some(pc.value.(candidates := pc.value.candidates + [cand]));
            assert p0.candidates + admitted + [cand] == p0.candidates + (admitted + [cand]);
          }
          admitted := admitted + [cand];
        } else {
          assert admitted + [] == admitted;
        }
        assert queued[k..][1..] == queued[k + 1..];
        k := k + 1;
      }
      assert queued[..k] == queued;
      assert admitted == Admitted(old(pendingCandidates), rejected);
      assert usable <==> Current(old(Snapshot()), id) && old(pc).value.hasRemoteDescription;
    }

    /** The "answer" case after its await, as public/video.js has it: the
        queued candidates are left where they are. */
    method ResumeAnswerAsWritten(i: nat, accepted: bool)
      requires i < |suspended| && suspended[i].ApplyingAnswer?
      modifies this
      ensures Snapshot() == SettleAnswerAsWritten(old(Snapshot()), i, accepted)
    {
      var id := suspended[i].pc;
      var takes := accepted && pc.Some? && pc.value.id == id && pc.value.signalingState == HaveLocalOffer;
      suspended := suspended[..i] + suspended[i + 1..];
      if takes {
        pc := Some(pc.value.(signalingState := Stable, hasRemoteDescription := true));
      }
    }

    /** The "answer" case after its await, flushing the queued candidates
        once the answer is applied, as the "offer" case does. */
    method ResumeAnswer(i: nat, accepted: bool, rejected: set<Candidate>)
      requires i < |suspended| && suspended[i].ApplyingAnswer?
      modifies this
      ensures Snapshot() == SettleAnswer(old(Snapshot()), i, accepted, rejected)
    {
      var id := suspended[i].pc;
      var takes := accepted && pc.Some? && pc.value.id == id && pc.value.signalingState == HaveLocalOffer;
      ResumeAnswerAsWritten(i, accepted);
      if takes {
        FlushPendingCandidates(id, rejected);
      }
    }

    /** cleanup. */
    method Cleanup()
      modifies this
      ensures Snapshot() == Negotiation.Cleanup(old(Snapshot()))
    {
      pc := None;
      localStream := None;
      makingOffer := false;
      ignoreOffer := false;
      isSettingRemoteDesc := false;
      pendingCandidates := [];
    }

    /** One event, handled by the code it reaches as public/video.js has it. */
    method Step(e: Event)
      requires Enabled(Snapshot(), e)
      modifies this
      ensures Snapshot() == NextAsWritten(old(Snapshot()), e)
    {
      match e
      case Received(m, camera, ok) => HandleMsg(m, camera, ok);
      case OfferCreated(i, offer) => ResumeOffer(i, offer);
      case OfferAnswered(i, result, rejected) => ResumeAnswering(i, result, rejected);
      case AnswerSettled(i, accepted, _) => ResumeAnswerAsWritten(i, accepted);
    }

    /** One event, with the corrected answer handler. */
    method StepCorrected(e: Event)
      requires Enabled(Snapshot(), e)
      modifies this
      ensures Snapshot() == NextCorrected(old(Snapshot()), e)
    {
      if e.AnswerSettled? {
        ResumeAnswer(e.task, e.accepted, e.rejected);
      } else {
        Step(e);
      }
    }
  }
}
