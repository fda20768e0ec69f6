/** The video client's negotiation logic of public/video.js as a state
    machine on values: the module-level flags, the queue of early ICE
    candidates, the peer connection reduced to the parts the logic reads,
    and the messages the client sends to the server.

    Each async handler is split where it awaits. The part before the
    first await is one transition; the handler then waits as a suspended
    task that remembers the peer connection it captured, and a later
    event finishes it. A task whose peer connection has since been closed
    by cleanup finds every call on it rejected. */
module Negotiation {
  import opened Protocol

  datatype SignalingState = Stable | HaveLocalOffer | HaveRemoteOffer

  /** A local media track, with the two fields the duplicate check compares. */
  datatype Track = Track(kind: string, id: string)

  /** An RTCPeerConnection, reduced to what the client's logic reads or
      changes. `id` tells one connection object from the next. */
  datatype PeerConnection = PeerConnection(
    id: nat,
    signalingState: SignalingState,
    hasRemoteDescription: bool,
    candidates: seq<Candidate>,   // remote candidates added successfully
    senders: seq<Track>)          // the track of each RTCRtpSender

  /** A handler suspended at an await, with the connection it captured. */
  datatype Task =
    | CreatingOffer(pc: nat)    // makeAndSendOffer: createOffer, setLocalDescription
    | Answering(pc: nat)        // "offer": setRemoteDescription, createAnswer, setLocalDescription
    | ApplyingAnswer(pc: nat)   // "answer": setRemoteDescription

  /** How far answering an offer gets before it stops. */
  datatype AnswerResult = RemoteRejected | AnswerFailed | Answered(answer: Sdp)

  datatype Client = Client(
    pc: Option<PeerConnection>,
    nextPc: nat,                     // the id the next peer connection gets
    localStream: Option<seq<Track>>,
    makingOffer: bool,
    polite: bool,
    ignoreOffer: bool,
    isSettingRemoteDesc: bool,
    pendingCandidates: seq<Candidate>,
    suspended: seq<Task>,
    sent: seq<Message>)              // what ws.send sent, in order

  /** The module's state when the page loads. */
  const Initial := Client(None, 0, None, false, false, false, false, [], [], [])

  /** `s.pc` is the connection object with this id. */
  predicate Current(s: Client, id: nat) {
    s.pc.Some? && s.pc.value.id == id
  }

  function RemoveAt<T>(xs: seq<T>, i: nat): (r: seq<T>)
    requires i < |xs|
    ensures |r| == |xs| - 1
    ensures forall x :: x in r ==> x in xs
  {
    xs[..i] + xs[i + 1..]
  }

  /** createPeerConnection: the existing connection if there is one,
      otherwise a new one with nothing negotiated. */
  function EnsurePeerConnection(s: Client): (r: Client)
    ensures r.pc.Some?
    ensures s.pc.Some? ==> r == s
    ensures s.pc.None? ==> r.pc.value == PeerConnection(s.nextPc, Stable, false, [], [])
    ensures r.(pc := s.pc, nextPc := s.nextPc) == s
  {
    if s.pc.Some? then s
    else s.(pc := Some(PeerConnection(s.nextPc, Stable, false, [], [])), nextPc := s.nextPc + 1)
  }

  /** `p.getSenders().some(s => s.track.kind === t.kind && s.track.id === t.id)`. */
  predicate HasSenderFor(senders: seq<Track>, t: Track) {
    exists i :: 0 <= i < |senders| && senders[i].kind == t.kind && senders[i].id == t.id
  }

  /** No two senders carry the same track. */
  predicate NoDuplicateSenders(senders: seq<Track>) {
    forall i, j :: 0 <= i < j < |senders| ==>
      !(senders[i].kind == senders[j].kind && senders[i].id == senders[j].id)
  }

  /** The forEach of ensureLocalMediaAndAttach: add each track that has no
      sender yet. Existing senders stay first and in order, every track
      ends up with a sender, nothing else is added, and no duplicate
      sender is ever created. */
  function AttachTracks(senders: seq<Track>, tracks: seq<Track>): (r: seq<Track>)
    ensures senders <= r
    ensures forall t :: t in tracks ==> HasSenderFor(r, t)
    ensures forall t :: t in r ==> t in senders || t in tracks
    ensures NoDuplicateSenders(senders) ==> NoDuplicateSenders(r)
    decreases |tracks|
  {
    if tracks == [] then senders
    else
      var t := tracks[0];
      var next := if HasSenderFor(senders, t) then senders else senders + [t];
      var r := AttachTracks(next, tracks[1..]);
      assert HasSenderFor(next, t) by {
        if !HasSenderFor(senders, t) {
          assert next[|senders|] == t;
        }
      }
      assert HasSenderFor(r, t) by {
        var i :| 0 <= i < |next| && next[i].kind == t.kind && next[i].id == t.id;
        assert r[i] == next[i];
      }
      r
  }

  /** ensureLocalMediaAndAttach: take the camera's tracks if there is no
      local stream yet, make sure a peer connection exists, and attach
      the stream's tracks to it without duplicates. */
  function AttachLocalMedia(s: Client, camera: seq<Track>): (r: Client)
    ensures r.pc.Some? && r.localStream.Some?
    ensures s.localStream.Some? ==> r.localStream == s.localStream
    ensures forall t :: t in r.localStream.value ==> HasSenderFor(r.pc.value.senders, t)
  {
    var s1 := if s.localStream.None? then s.(localStream := Some(camera)) else s;
    var s2 := EnsurePeerConnection(s1);
    var p := s2.pc.value;
    s2.(pc := Some(p.(senders := AttachTracks(p.senders, s2.localStream.value))))
  }

  /** makeAndSendOffer up to its first await: flag the offer in progress,
      make sure there is a connection, attach media, and wait. */
  function StartOffer(s: Client, camera: seq<Track>): (r: Client)
    ensures r.makingOffer && r.pc.Some?
    ensures r.sent == s.sent && r.pendingCandidates == s.pendingCandidates
    ensures |r.suspended| == |s.suspended| + 1
  {
    var s1 := EnsurePeerConnection(s.(makingOffer := true));
    var s2 := AttachLocalMedia(s1, camera);
    s2.(suspended := s2.suspended + [CreatingOffer(s1.pc.value.id)])
  }

  /** makeAndSendOffer resumed: `offer` is the description createOffer
      produced, None if createOffer or setLocalDescription rejected. The
      offer is sent only if its connection is still the current one and
      in a state that accepts a local offer. Either way the `finally`
      clears makingOffer. */
  function FinishOffer(s: Client, i: nat, offer: Option<Sdp>): (r: Client)
    requires i < |s.suspended| && s.suspended[i].CreatingOffer?
    ensures r.nextPc == s.nextPc
    ensures !r.makingOffer
    ensures |r.suspended| == |s.suspended| - 1
    ensures s.sent <= r.sent && r.pendingCandidates == s.pendingCandidates
    ensures !Current(s, s.suspended[i].pc) ==> r.pc == s.pc && r.sent == s.sent
  {
    var id := s.suspended[i].pc;
    var s1 := s.(suspended := RemoveAt(s.suspended, i));
    var s2 :=
      if Current(s, id) && offer.Some? && s.pc.value.signalingState != HaveRemoteOffer
      then s1.(pc := Some(s.pc.value.(signalingState := HaveLocalOffer)),
               sent := s.sent + [Offer(offer.value)])
      else s1;
    s2.(makingOffer := false)
  }

  /** "paired": politeness from the role, local media, a connection, and
      an offer only from the initiator. */
  function OnPaired(s: Client, initiator: bool, camera: seq<Track>): (r: Client)
    ensures r.polite == !initiator && r.pc.Some?
    ensures r.sent == s.sent && r.pendingCandidates == s.pendingCandidates
  {
    var s1 := AttachLocalMedia(s.(polite := !initiator), camera);
    var s2 := EnsurePeerConnection(s1);
    if initiator then StartOffer(s2, camera) else s2
  }

  /** "offer" up to its first await: detect a collision; the impolite side
      ignores a colliding offer, everyone else starts answering. */
  function OnOffer(s: Client, camera: seq<Track>): (r: Client)
    ensures r.pc.Some? && r.sent == s.sent && r.pendingCandidates == s.pendingCandidates
    ensures r.polite == s.polite && r.makingOffer == s.makingOffer
    ensures s.polite ==> !r.ignoreOffer && r.isSettingRemoteDesc
  {
    var s1 := EnsurePeerConnection(s);
    var p := s1.pc.value;
    var offerCollision := s1.makingOffer || p.signalingState != Stable;
    var ignore := !s1.polite && offerCollision;
    if ignore then s1.(ignoreOffer := true)
    else
      var s2 := AttachLocalMedia(s1.(ignoreOffer := false, isSettingRemoteDesc := true), camera);
      s2.(suspended := s2.suspended + [Answering(p.id)])
  }

  /** The while/shift loop: every pending candidate is taken off the queue
      in arrival order and handed to addIceCandidate on the captured
      connection. It is accepted unless it is in `rejected`, or the
      connection is no longer current, or it has no remote description. */
  function DrainPending(s: Client, id: nat, rejected: set<Candidate>): (r: Client)
    ensures r.pendingCandidates == []
    ensures r.nextPc == s.nextPc && r.suspended == s.suspended && r.sent == s.sent
    ensures r.isSettingRemoteDesc == s.isSettingRemoteDesc && r.makingOffer == s.makingOffer
    ensures !Current(s, id) ==> r.pc == s.pc
  {
    if Current(s, id) && s.pc.value.hasRemoteDescription then
      var p := s.pc.value;
      s.(pendingCandidates := [],
         pc := Some(p.(candidates := p.candidates + Admitted(s.pendingCandidates, rejected))))
    else s.(pendingCandidates := [])
  }

  /** The candidates addIceCandidate accepts, in arrival order. */
  function Admitted(cands: seq<Candidate>, rejected: set<Candidate>): (r: seq<Candidate>)
    ensures |r| <= |cands|
    decreases |cands|
  {
    if cands == [] then []
    else
      var last := cands[|cands| - 1];
      Admitted(cands[..|cands| - 1], rejected) + (if last in rejected then [] else [last])
  }

  /** One more candidate tried: the admitted prefix grows by it unless it
      is rejected. */
  lemma AdmittedStep(q: seq<Candidate>, k: nat, rejected: set<Candidate>)
    requires k < |q|
    ensures Admitted(q[..k + 1], rejected)
         == Admitted(q[..k], rejected) + (if q[k] in rejected then [] else [q[k]])
  {
    assert q[..k + 1][..k] == q[..k];
  }

  /** "offer" resumed: apply the remote offer and answer it on the
      captured connection (a closed one rejects everything), clear
      isSettingRemoteDesc whatever happened, then drain the pending
      candidates. */
  function FinishAnswering(s: Client, i: nat, result: AnswerResult, rejected: set<Candidate>): (r: Client)
    requires i < |s.suspended| && s.suspended[i].Answering?
    ensures r.nextPc == s.nextPc
    ensures !r.isSettingRemoteDesc && r.pendingCandidates == []
    ensures |r.suspended| == |s.suspended| - 1 && s.sent <= r.sent
    ensures !Current(s, s.suspended[i].pc) ==> r.pc == s.pc && r.sent == s.sent
  {
    var id := s.suspended[i].pc;
    var s1 := s.(suspended := RemoveAt(s.suspended, i));
    var s2 :=
      if !Current(s, id) then s1
      else
        var p := s.pc.value;
        match result
        case RemoteRejected => s1
        case AnswerFailed =>
          s1.(pc := Some(p.(signalingState := HaveRemoteOffer, hasRemoteDescription := true)))
        case Answered(a) =>
          s1.(pc := Some(p.(signalingState := Stable, hasRemoteDescription := true)),
              sent := s.sent + [Answer(a)]);
    DrainPending(s2.(isSettingRemoteDesc := false), id, rejected)
  }

  /** "answer" up to its await: start applying it unless a remote
      description is being set, in which case it is dropped. */
  function OnAnswer(s: Client): (r: Client)
    ensures r.sent == s.sent && r.pendingCandidates == s.pendingCandidates
    ensures r.pc.Some? && (s.pc.Some? ==> r.pc == s.pc)
  {
    var s1 := EnsurePeerConnection(s);
    if s1.isSettingRemoteDesc then s1
    else s1.(suspended := s1.suspended + [ApplyingAnswer(s1.pc.value.id)])
  }

  /** setRemoteDescription(answer) succeeds: the environment accepts it,
      its connection is current, and that connection awaits an answer. */
  predicate AnswerTakes(s: Client, i: nat, accepted: bool)
    requires i < |s.suspended|
  {
    accepted && Current(s, s.suspended[i].pc) && s.pc.value.signalingState == HaveLocalOffer
  }

  /** "answer" resumed, as public/video.js:183-198 has it: the answer is
      applied, and nothing looks at the candidates queued meanwhile. */
  function SettleAnswerAsWritten(s: Client, i: nat, accepted: bool): (r: Client)
    requires i < |s.suspended| && s.suspended[i].ApplyingAnswer?
    ensures r.nextPc == s.nextPc
    ensures r.pendingCandidates == s.pendingCandidates && r.sent == s.sent
    ensures |r.suspended| == |s.suspended| - 1
    ensures !AnswerTakes(s, i, accepted) ==> r.pc == s.pc
  {
    var s1 := s.(suspended := RemoveAt(s.suspended, i));
    if AnswerTakes(s, i, accepted)
    then s1.(pc := Some(s.pc.value.(signalingState := Stable, hasRemoteDescription := true)))
    else s1
  }

  /** "answer" resumed, with the drain the offer path has: once the answer
      is applied, the candidates queued while it was pending are added. */
  function SettleAnswer(s: Client, i: nat, accepted: bool, rejected: set<Candidate>): (r: Client)
    requires i < |s.suspended| && s.suspended[i].ApplyingAnswer?
    ensures AnswerTakes(s, i, accepted) ==> r.pendingCandidates == [] && r.pc.Some? && r.pc.value.hasRemoteDescription
    ensures !AnswerTakes(s, i, accepted) ==> r.pendingCandidates == s.pendingCandidates && r.pc == s.pc
    ensures r.sent == s.sent
  {
    var s1 := SettleAnswerAsWritten(s, i, accepted);
    if AnswerTakes(s, i, accepted) then DrainPending(s1, s.suspended[i].pc, rejected) else s1
  }

  /** "ice": add the candidate now if the connection has a remote
      description (`accepted` says whether addIceCandidate resolves),
      otherwise queue it. */
  function OnIce(s: Client, cand: Candidate, accepted: bool): (r: Client)
    ensures r.sent == s.sent && r.suspended == s.suspended && r.pc.Some?
    ensures r.pendingCandidates == s.pendingCandidates || r.pendingCandidates == s.pendingCandidates + [cand]
  {
    var s1 := EnsurePeerConnection(s);
    var p := s1.pc.value;
    if p.hasRemoteDescription then
      if accepted then s1.(pc := Some(p.(candidates := p.candidates + [cand]))) else s1
    else s1.(pendingCandidates := s1.pendingCandidates + [cand])
  }

  /** cleanup: drop the connection and the local stream, reset the flags
      and the candidate queue. Politeness is left as it was. */
  function Cleanup(s: Client): (r: Client)
    ensures r.pc.None? && r.localStream.None? && r.pendingCandidates == []
    ensures !r.makingOffer && !r.ignoreOffer && !r.isSettingRemoteDesc
    ensures r.polite == s.polite && r.suspended == s.suspended && r.sent == s.sent
  {
    s.(pc := None, localStream := None, makingOffer := false, ignoreOffer := false,
       isSettingRemoteDesc := false, pendingCandidates := [])
  }

  /** handleMsg up to its first await. `camera` is what getUserMedia would
      give, `iceAccepted` whether addIceCandidate would resolve. */
  function Receive(s: Client, m: Message, camera: seq<Track>, iceAccepted: bool): (r: Client)
    ensures r.sent == s.sent
    ensures r.nextPc >= s.nextPc
    ensures m.PartnerLeft? ==> r.pc.None?
    ensures !(m.Paired? || m.Offer? || m.Answer? || m.Ice? || m.PartnerLeft?) ==> r == s
  {
    match m
    case Paired(initiator) => OnPaired(s, initiator, camera)
    case Offer(_) => OnOffer(s, camera)
    case Answer(_) => OnAnswer(s)
    case Ice(cand) => OnIce(s, cand, iceAccepted)
    case PartnerLeft => Cleanup(s)
    case _ => s   // "waiting" and "chat" only write to the page; the rest is logged
  }

  /** Everything that can happen to the client. */
  datatype Event =
    | Received(msg: Message, camera: seq<Track>, iceAccepted: bool)
    | OfferCreated(task: nat, offer: Option<Sdp>)
    | OfferAnswered(task: nat, result: AnswerResult, rejected: set<Candidate>)
    | AnswerSettled(task: nat, accepted: bool, rejected: set<Candidate>)

  /** A resumption names a suspended task of its own kind. */
  predicate Enabled(s: Client, e: Event) {
    match e
    case Received(_, _, _) => true
    case OfferCreated(i, _) => i < |s.suspended| && s.suspended[i].CreatingOffer?
    case OfferAnswered(i, _, _) => i < |s.suspended| && s.suspended[i].Answering?
    case AnswerSettled(i, _, _) => i < |s.suspended| && s.suspended[i].ApplyingAnswer?
  }

  /** One step of the client as public/video.js runs it. */
  function NextAsWritten(s: Client, e: Event): (r: Client)
    requires Enabled(s, e)
    ensures s.sent <= r.sent && r.nextPc >= s.nextPc
  {
    match e
    case Received(m, camera, ok) => Receive(s, m, camera, ok)
    case OfferCreated(i, offer) => FinishOffer(s, i, offer)
    case OfferAnswered(i, result, rejected) => FinishAnswering(s, i, result, rejected)
    case AnswerSettled(i, accepted, _) => SettleAnswerAsWritten(s, i, accepted)
  }

  /** One step of the client with the corrected answer handler, which
      flushes the candidates queued while the answer was being applied. */
  function NextCorrected(s: Client, e: Event): (r: Client)
    requires Enabled(s, e)
    ensures s.sent <= r.sent && r.nextPc >= s.nextPc
    ensures !e.AnswerSettled? ==> r == NextAsWritten(s, e)
  {
    match e
    case AnswerSettled(i, accepted, rejected) => SettleAnswer(s, i, accepted, rejected)
    case _ => NextAsWritten(s, e)
  }

  /** No candidate waits in the queue while the connection already has a
      remote description: such a candidate would never be added. */
  predicate NoStrandedCandidates(s: Client) {
    s.pc.Some? && s.pc.value.hasRemoteDescription ==> s.pendingCandidates == []
  }

  /** The part of the invariant the client as written keeps: the
      connection has no duplicate senders, and every connection id in use
      is older than the next one to be created. */
  predicate WellFormed(s: Client) {
    && (s.pc.Some? ==> s.pc.value.id < s.nextPc && NoDuplicateSenders(s.pc.value.senders))
    && (forall t :: t in s.suspended ==> t.pc < s.nextPc)
  }

  /** The full invariant, kept with the corrected answer handler: in
      addition, no candidate is stranded. */
  predicate Valid(s: Client) {
    WellFormed(s) && NoStrandedCandidates(s)
  }
}
