/** What index.js promises about matchmaking, relaying, teardown and the
    heartbeat, proved about the transition functions of Matchmaking. */
module MatchmakingProofs {
  import opened Protocol
  import opened Sequences
  import opened Matchmaking

  // ---------------------------------------------------------------------
  // Join
  // ---------------------------------------------------------------------

  /** Joining a mode whose queue is empty puts the joiner at the tail of
      that queue and sends it exactly one "waiting"; the other queue and
      the pairs are untouched. */
  lemma JoinEmptyQueueWaits(s: State, c: ConnId, mode: string)
    requires QueueOf(mode).Some? && s.Queued(QueueOf(mode).value) == []
    ensures var q := QueueOf(mode).value;
            var r := Receive(s, c, Parsed(Join(mode)));
            && r.Queued(q) == s.Queued(q) + [c]
            && r.Queued(OtherQueue(q)) == s.Queued(OtherQueue(q))
            && r.pairs == s.pairs
            && r.log == s.log + [Send(c, Waiting)]
  {
  }

  /** Joining a mode whose queue is not empty takes exactly the head, the
      longest-waiting connection, keeps the rest of the queue in order,
      pairs the two both ways, and sends one "paired" to each: the joiner
      initiates, the dequeued connection does not. */
  lemma JoinPairsWithLongestWaiting(s: State, c: ConnId, mode: string)
    requires QueueOf(mode).Some? && |s.Queued(QueueOf(mode).value)| > 0
    ensures var q := QueueOf(mode).value;
            var h := s.Queued(q)[0];
            var r := Receive(s, c, Parsed(Join(mode)));
            && r.Queued(q) == s.Queued(q)[1..]
            && r.Queued(OtherQueue(q)) == s.Queued(OtherQueue(q))
            && r.pairs == s.pairs[c := h][h := c]
            && r.log == s.log + [Send(c, Paired(true)), Send(h, Paired(false))]
  {
  }

  /** A join whose mode is neither "chat" nor "video" only records the
      mode: no queue, no pair and no message changes. */
  lemma JoinOtherModeChangesNothing(s: State, c: ConnId, mode: string)
    requires mode != "chat" && mode != "video"
    ensures Receive(s, c, Parsed(Join(mode))) == s.(mode := s.mode[c := mode])
  {
  }

  // ---------------------------------------------------------------------
  // Relay and malformed input
  // ---------------------------------------------------------------------

  /** Chat, offer, answer and ice go to the partner, unchanged, exactly
      when a partner exists and its socket is open; otherwise they are
      dropped. Either way queues and pairs stay as they were. */
  lemma RelayOnlyToOpenPartner(s: State, c: ConnId, m: Message)
    requires m.Chat? || m.Offer? || m.Answer? || m.Ice?
    ensures var r := Receive(s, c, Parsed(m));
            && r.chatQueue == s.chatQueue && r.videoQueue == s.videoQueue && r.pairs == s.pairs
            && (c in s.pairs && s.pairs[c] in s.open ==> r.log == s.log + [Send(s.pairs[c], m)])
            && (!(c in s.pairs && s.pairs[c] in s.open) ==> r == s)
  {
  }

  /** Frames that do not parse to a message object, and messages of any
      type the server does not know, have no effect at all. */
  lemma UnknownInputDropped(s: State, c: ConnId, tag: string)
    ensures Receive(s, c, Unparseable) == s
    ensures Receive(s, c, Parsed(Other(tag))) == s
    ensures Receive(s, c, Parsed(Waiting)) == s
  {
  }

  /** The crash that index.js:35-40 lets through: "null" is valid JSON. */
  lemma NullFrameCrashesServer(s: State, c: ConnId)
    ensures ReceiveAsWritten(s, c, JsonNull) == Crashed
    ensures Receive(s, c, JsonNull) == s
  {
  }

  // ---------------------------------------------------------------------
  // Leave and close
  // ---------------------------------------------------------------------

  /** "leave" while paired removes both entries and notifies the partner
      once, if its socket is open; the queues are not touched. */
  lemma LeaveWhilePaired(s: State, c: ConnId)
    requires c in s.pairs
    ensures var p := s.pairs[c];
            var r := Receive(s, c, Parsed(Leave));
            && c !in r.pairs && p !in r.pairs
            && r.pairs == s.pairs - {c, p}
            && r.log == s.log + (if p in s.open then [Send(p, PartnerLeft)] else [])
            && r.chatQueue == s.chatQueue && r.videoQueue == s.videoQueue
  {
  }

  /** "leave" while unpaired changes nothing, queue membership included. */
  lemma LeaveWhileUnpaired(s: State, c: ConnId)
    requires c !in s.pairs
    ensures Receive(s, c, Parsed(Leave)) == s
  {
  }

  /** A second "leave" sends no second "partner-left": it changes nothing. */
  lemma RepeatedLeaveNotifiesOnce(s: State, c: ConnId)
    ensures var once := Receive(s, c, Parsed(Leave));
            Receive(once, c, Parsed(Leave)) == once
  {
  }

  /** With a symmetric map, tearing down c's pair leaves nobody mapped to
      c or to its former partner. */
  lemma LeaveLeavesNoDanglingPartner(s: State, c: ConnId)
    requires Symmetric(s.pairs) && c in s.pairs
    ensures var p := s.pairs[c];
            var r := HandleLeave(s, c);
            Symmetric(r.pairs) && forall a :: a in r.pairs ==> r.pairs[a] != c && r.pairs[a] != p
  {
    var p := s.pairs[c];
    var r := HandleLeave(s, c);
    forall a | a in r.pairs ensures r.pairs[a] != c && r.pairs[a] != p {
      assert a in s.pairs && a != c && a != p;
    }
  }

  /** "close" removes the pair both ways, notifies the partner once if its
      socket is open, removes every occurrence of the connection from
      both queues keeping the others in order, and unregisters it. */
  lemma CloseTearsDown(s: State, c: ConnId)
    ensures var r := HandleClose(s, c);
            && r.pairs == (if c in s.pairs then s.pairs - {c, s.pairs[c]} else s.pairs)
            && r.clients == Without(s.clients, c) && r.open == s.open - {c}
            && r.isAlive == s.isAlive && r.mode == s.mode && r.nextId == s.nextId
            && c !in r.pairs && c !in r.clients && c !in r.open
            && r.chatQueue == Without(s.chatQueue, c) && r.videoQueue == Without(s.videoQueue, c)
            && (c in s.pairs ==> s.pairs[c] !in r.pairs)
            && r.log == s.log + (if c in s.pairs && s.pairs[c] != c && s.pairs[c] in s.open
                                 then [Send(s.pairs[c], PartnerLeft)] else [])
  {
  }

  /** Teardown is idempotent: a second close changes nothing and so sends
      no second notification. */
  lemma {:induction false} CloseIdempotent(s: State, c: ConnId)
    ensures HandleClose(HandleClose(s, c), c) == HandleClose(s, c)
  {
    var r := HandleClose(s, c);
    WithoutAbsent(r.clients, c);
    WithoutAbsent(r.chatQueue, c);
    WithoutAbsent(r.videoQueue, c);
  }

  // ---------------------------------------------------------------------
  // Heartbeat
  // ---------------------------------------------------------------------

  /** The outputs of one heartbeat over `cs`, given the flags it starts with. */
  function TickOutputs(alive: map<ConnId, bool>, cs: seq<ConnId>): seq<Output>
    decreases |cs|
  {
    if cs == [] then []
    else
      var c := cs[|cs| - 1];
      TickOutputs(alive, cs[..|cs| - 1]) + [if Stale(alive, c) then Terminate(c) else Ping(c)]
  }

  /** A flag map agrees with another at `c`. */
  predicate SameFlag(a: map<ConnId, bool>, b: map<ConnId, bool>, c: ConnId) {
    (c in a <==> c in b) && (c in a ==> a[c] == b[c])
  }

  /** A heartbeat terminates exactly the connections whose flag is false
      and pings every other one. */
  lemma {:induction false} TickOutputsExactly(alive: map<ConnId, bool>, cs: seq<ConnId>, c: ConnId)
    ensures Terminate(c) in TickOutputs(alive, cs) <==> c in cs && Stale(alive, c)
    ensures Ping(c) in TickOutputs(alive, cs) <==> c in cs && !Stale(alive, c)
    decreases |cs|
  {
    if cs != [] {
      var init := cs[..|cs| - 1];
      assert cs == init + [cs[|cs| - 1]];
      TickOutputsExactly(alive, init, c);
    }
  }

  /** The heartbeat over distinct connections, in closed form: its outputs,
      the sockets it takes out of OPEN (exactly the stale ones), and the
      flags it leaves (false for every connection it visits, untouched
      for the rest). */
  lemma {:induction false} BeatAllEffect(s: State, cs: seq<ConnId>)
    requires NoDup(cs)
    ensures BeatAll(s, cs).log == s.log + TickOutputs(s.isAlive, cs)
    ensures BeatAll(s, cs).open == s.open - (set c | c in cs && Stale(s.isAlive, c))
    ensures forall c :: c in cs ==> c in BeatAll(s, cs).isAlive && !BeatAll(s, cs).isAlive[c]
    ensures forall c :: c !in cs ==> SameFlag(BeatAll(s, cs).isAlive, s.isAlive, c)
    decreases |cs|
  {
    if cs != [] {
      var init := cs[..|cs| - 1];
      var x := cs[|cs| - 1];
      assert cs == init + [x];
      assert NoDup(init) by {
        forall i, j | 0 <= i < j < |init| ensures init[i] != init[j] {
          assert init[i] == cs[i] && init[j] == cs[j];
        }
      }
      assert x !in init by {
        forall k | 0 <= k < |init| ensures init[k] != x {
          assert init[k] == cs[k];
        }
      }
      BeatAllEffect(s, init);
      var r := BeatAll(s, init);
      assert SameFlag(r.isAlive, s.isAlive, x);
      assert Stale(r.isAlive, x) == Stale(s.isAlive, x);
      assert BeatAll(s, cs) == Beat(r, x);
    }
  }

  /** A connection that never answers a ping is terminated by the second
      heartbeat at the latest, whatever its flag was. */
  lemma SilentConnectionTerminatedBySecondTick(s: State, c: ConnId)
    requires NoDup(s.clients) && c in s.clients
    ensures Stale(Heartbeat(s).isAlive, c)
    ensures c !in Heartbeat(Heartbeat(s)).open
    ensures Terminate(c) in Heartbeat(Heartbeat(s)).log[|Heartbeat(s).log|..]
  {
    var t := Heartbeat(s);
    BeatAllEffect(s, s.clients);
    BeatAllEffect(t, t.clients);
    TickOutputsExactly(t.isAlive, t.clients, c);
    assert Heartbeat(t).log[|t.log|..] == TickOutputs(t.isAlive, t.clients);
  }

  /** A connection that answered the last ping survives the next
      heartbeat, which pings it again. */
  lemma PongedConnectionSurvivesTick(s: State, c: ConnId)
    requires NoDup(s.clients) && c in s.clients
    ensures var r := Heartbeat(HandlePong(s, c));
            (c in r.open <==> c in s.open) && Ping(c) in r.log[|s.log|..]
  {
    var p := HandlePong(s, c);
    BeatAllEffect(p, p.clients);
    TickOutputsExactly(p.isAlive, p.clients, c);
    assert Heartbeat(p).log[|s.log|..] == TickOutputs(p.isAlive, p.clients);
  }

  /** A new connection starts alive: it outlives the first heartbeat and,
      if it never answers, is terminated by the second. */
  lemma NewConnectionLifetime(s: State)
    requires NoDup(s.clients) && forall c :: c in s.clients ==> c < s.nextId
    ensures var c := s.nextId;
            var t := Heartbeat(Accept(s));
            c in t.open && c !in Heartbeat(t).open
  {
    var a := Accept(s);
    var c := s.nextId;
    assert c !in s.clients;
    assert NoDup(a.clients) by {
      forall i, j | 0 <= i < j < |a.clients| ensures a.clients[i] != a.clients[j] {
        if j < |s.clients| {
          assert a.clients[i] == s.clients[i] && a.clients[j] == s.clients[j];
        } else {
          assert a.clients[j] == c && a.clients[i] == s.clients[i];
        }
      }
    }
    BeatAllEffect(a, a.clients);
    SilentConnectionTerminatedBySecondTick(a, c);
  }

  // ---------------------------------------------------------------------
  // Invariants
  // ---------------------------------------------------------------------

  /** A join only ever pushes onto an empty queue, so no queue ever holds
      more than one connection, whatever the clients send. */
  lemma QueuesHoldAtMostOne(s: State, e: Event)
    requires |s.chatQueue| <= 1 && |s.videoQueue| <= 1
    ensures |Next(s, e).chatQueue| <= 1 && |Next(s, e).videoQueue| <= 1
  {
    match e
    case Inbound(c, f) =>
      if f.Parsed? && f.msg.Join? {
        JoinKeepsQueuesShort(s, c, f.msg.mode);
      }
    case _ =>
  }

  /** The join branch on its own: pairing pops the one waiting connection,
      queuing pushes onto an empty queue. */
  lemma JoinKeepsQueuesShort(s: State, c: ConnId, mode: string)
    requires |s.chatQueue| <= 1 && |s.videoQueue| <= 1
    ensures |HandleJoin(s, c, mode).chatQueue| <= 1 && |HandleJoin(s, c, mode).videoQueue| <= 1
  {
    match QueueOf(mode)
    case None =>
    case Some(q) =>
      match q
      case ChatQueue =>
      case VideoQueue =>
  }

  lemma ValidInitial()
    ensures Valid(Initial)
  {
  }

  lemma ValidAccept(s: State)
    requires Valid(s)
    ensures Valid(Accept(s))
  {
    var c := s.nextId;
    assert c !in s.clients;
    var r := Accept(s);
    assert NoDup(r.clients) by {
      forall i, j | 0 <= i < j < |r.clients| ensures r.clients[i] != r.clients[j] {
        if j == |s.clients| {
          assert r.clients[i] == s.clients[i];
        } else {
          assert r.clients[i] == s.clients[i] && r.clients[j] == s.clients[j];
        }
      }
    }
  }

  /** Joining an empty queue keeps the invariant. */
  lemma ValidEnqueue(s: State, c: ConnId, mode: string, q: Queue)
    requires Valid(s) && c in s.clients && !IsQueued(s, c) && c !in s.pairs
    requires QueueOf(mode) == Some(q) && s.Queued(q) == []
    ensures Valid(HandleJoin(s, c, mode))
  {
    var r := HandleJoin(s, c, mode);
    assert r.Queued(q) == [c] && r.Queued(OtherQueue(q)) == s.Queued(OtherQueue(q));
    assert r.pairs == s.pairs && r.clients == s.clients;
    match q
    case ChatQueue => assert r.chatQueue == [c] && r.videoQueue == s.videoQueue;
    case VideoQueue => assert r.videoQueue == [c] && r.chatQueue == s.chatQueue;
  }

  /** Popping the head of a duplicate-free queue leaves a duplicate-free
      queue without it. */
  lemma PopKeepsNoDup(w: seq<ConnId>)
    requires NoDup(w) && |w| > 0
    ensures w[0] in w && w[0] !in w[1..] && NoDup(w[1..])
    ensures forall x :: x in w[1..] ==> x in w
  {
    var rest := w[1..];
    assert w[0] !in rest by {
      forall k | 0 <= k < |rest| ensures rest[k] != w[0] {
        assert rest[k] == w[k + 1];
      }
    }
    assert NoDup(rest) by {
      forall i, j | 0 <= i < j < |rest| ensures rest[i] != rest[j] {
        assert rest[i] == w[i + 1] && rest[j] == w[j + 1];
      }
    }
  }

  /** Pairing with the head of a queue keeps the invariant. */
  lemma ValidDequeue(s: State, c: ConnId, mode: string, q: Queue)
    requires Valid(s) && c in s.clients && !IsQueued(s, c) && c !in s.pairs
    requires QueueOf(mode) == Some(q) && |s.Queued(q)| > 0
    ensures Valid(HandleJoin(s, c, mode))
  {
    var w := s.Queued(q);
    var r := HandleJoin(s, c, mode);
    assert r.clients == s.clients && r.nextId == s.nextId;
    assert r.pairs == s.pairs[c := w[0]][w[0] := c];
    assert r.Queued(q) == w[1..] && r.Queued(OtherQueue(q)) == s.Queued(OtherQueue(q));
    ValidAfterPairing(s, r, q, c);
  }

  /** The state a join leaves when it pairs `c` with the head of queue
      `q` is valid, whatever else the join did. */
  lemma ValidAfterPairing(s: State, r: State, q: Queue, c: ConnId)
    requires Valid(s) && c in s.clients && !IsQueued(s, c) && c !in s.pairs && |s.Queued(q)| > 0
    requires r.clients == s.clients && r.nextId == s.nextId
    requires r.pairs == s.pairs[c := s.Queued(q)[0]][s.Queued(q)[0] := c]
    requires r.Queued(q) == s.Queued(q)[1..] && r.Queued(OtherQueue(q)) == s.Queued(OtherQueue(q))
    ensures Valid(r)
  {
    var w := s.Queued(q);
    var h := w[0];
    var rest := w[1..];
    assert NoDup(w) by {
      match q
      case ChatQueue =>
      case VideoQueue =>
    }
    PopKeepsNoDup(w);
    assert h != c && h in s.clients && h !in s.pairs;
    assert h !in s.Queued(OtherQueue(q)) by {
      match q
      case ChatQueue =>
      case VideoQueue =>
    }
    assert Symmetric(r.pairs);
    assert forall x :: x in rest ==> x != c && x != h && x !in s.pairs;
    match q
    case ChatQueue =>
      assert r.chatQueue == rest && r.videoQueue == s.videoQueue;
    case VideoQueue =>
      assert r.videoQueue == rest && r.chatQueue == s.chatQueue;
  }

  lemma ValidJoin(s: State, c: ConnId, mode: string)
    requires Valid(s) && c in s.clients && !IsQueued(s, c) && c !in s.pairs
    ensures Valid(HandleJoin(s, c, mode))
  {
    match QueueOf(mode)
    case None =>
    case Some(q) =>
      if |s.Queued(q)| > 0 {
        ValidDequeue(s, c, mode, q);
      } else {
        ValidEnqueue(s, c, mode, q);
      }
  }

  lemma ValidLeave(s: State, c: ConnId)
    requires Valid(s)
    ensures Valid(HandleLeave(s, c))
  {
    if c in s.pairs {
      LeaveLeavesNoDanglingPartner(s, c);
    }
  }

  lemma ValidClose(s: State, c: ConnId)
    requires Valid(s)
    ensures Valid(HandleClose(s, c))
  {
    CloseTearsDown(s, c);
    ValidAfterClose(s, HandleClose(s, c), c);
  }

  /** The state a close leaves, described by what CloseTearsDown proves
      of it, is valid. */
  lemma ValidAfterClose(s: State, r: State, c: ConnId)
    requires Valid(s)
    requires r.clients == Without(s.clients, c) && r.nextId == s.nextId
    requires r.pairs == (if c in s.pairs then s.pairs - {c, s.pairs[c]} else s.pairs)
    requires r.chatQueue == Without(s.chatQueue, c) && r.videoQueue == Without(s.videoQueue, c)
    ensures Valid(r)
  {
    WithoutNoDup(s.clients, c);
    WithoutNoDup(s.chatQueue, c);
    WithoutNoDup(s.videoQueue, c);
    WithoutMembers(s.clients, c);
    WithoutMembers(s.chatQueue, c);
    WithoutMembers(s.videoQueue, c);
    if c in s.pairs {
      LeaveLeavesNoDanglingPartner(s, c);
      assert r.pairs == HandleLeave(s, c).pairs;
    }
    assert forall a :: a in r.pairs ==> a in s.pairs && a != c;
  }


  /** Every admissible event keeps the invariant: pairing stays symmetric,
      and nobody waits twice, waits in both queues, or waits while paired. */
  lemma ValidNext(s: State, e: Event)
    requires Valid(s) && Admissible(s, e)
    ensures Valid(Next(s, e))
  {
    match e
    case Connected => ValidAccept(s);
    case Inbound(c, f) =>
      if f.Parsed? {
        match f.msg
        case Join(mode) => ValidJoin(s, c, mode);
        case Leave => ValidLeave(s, c);
        case _ =>
      }
    case Ponged(c) =>
    case Closed(c) => ValidClose(s, c);
    case Tick =>
      assert Next(s, e) == BeatAll(s, s.clients);
  }

  // ---------------------------------------------------------------------
  // Re-join, as written
  // ---------------------------------------------------------------------

  /** A connection that joins again while it is the one waiting in that
      queue is dequeued and paired with itself, and told both roles. */
  lemma RejoinWhileWaitingPairsWithItself(s: State, c: ConnId, mode: string)
    requires QueueOf(mode).Some? && s.Queued(QueueOf(mode).value) == [c]
    ensures var r := Receive(s, c, Parsed(Join(mode)));
            && c in r.pairs && r.pairs[c] == c && !Symmetric(r.pairs)
            && r.Queued(QueueOf(mode).value) == []
            && r.log == s.log + [Send(c, Paired(true)), Send(c, Paired(false))]
  {
  }

  /** A connection waiting for chat that joins video while nobody waits
      there ends up in both queues. */
  lemma RejoinOtherModeWaitsTwice(s: State, c: ConnId)
    requires s.chatQueue == [c] && s.videoQueue == []
    ensures var r := Receive(s, c, Parsed(Join("video")));
            c in r.chatQueue && c in r.videoQueue && r.log == s.log + [Send(c, Waiting)]
  {
  }

  /** A paired connection that joins again while someone waits is paired
      anew, and its old partner is left mapped to it: the map is no
      longer symmetric. */
  lemma RejoinWhilePairedBreaksSymmetry(s: State, a: ConnId, d: ConnId, mode: string)
    requires Valid(s) && a in s.pairs
    requires QueueOf(mode).Some? && s.Queued(QueueOf(mode).value) == [d]
    ensures !Symmetric(Receive(s, a, Parsed(Join(mode))).pairs)
  {
    var b := s.pairs[a];
    var r := Receive(s, a, Parsed(Join(mode)));
    assert d in s.Queued(QueueOf(mode).value);
    assert d !in s.pairs;
    assert r.pairs[b] == a && r.pairs[a] == d && d != b;
  }

  // ---------------------------------------------------------------------
  // A whole exchange
  // ---------------------------------------------------------------------

  /** A and B join video in turn: A is told to wait; B's join tells B it
      initiates and A that it does not. When B's socket closes, A is told
      its partner left, and A neither waits nor has a pair entry. */
  lemma PairThenDisconnect(s: State, a: ConnId, b: ConnId)
    requires Valid(s) && s.videoQueue == []
    requires a in s.clients && b in s.clients && a != b && a in s.open
    requires !IsQueued(s, a) && !IsQueued(s, b) && a !in s.pairs && b !in s.pairs
    ensures var s1 := Receive(s, a, Parsed(Join("video")));
            var s2 := Receive(s1, b, Parsed(Join("video")));
            var s3 := Next(s2, Closed(b));
            && s1.log == s.log + [Send(a, Waiting)]
            && s2.log == s1.log + [Send(b, Paired(true)), Send(a, Paired(false))]
            && s3.log == s2.log + [Send(a, PartnerLeft)]
            && !IsQueued(s3, a) && a !in s3.pairs
  {
    var s1 := Receive(s, a, Parsed(Join("video")));
    var s2 := Receive(s1, b, Parsed(Join("video")));
    assert s2.videoQueue == [] && a !in s2.chatQueue;
    WithoutAbsent(s2.chatQueue, b);
  }
}
