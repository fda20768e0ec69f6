/** The matchmaking and relay server of index.js as a state machine on
    values: the two waiting queues, the pairing map, the per-connection
    heartbeat flag, and a log of everything the server does to a socket.
    Every handler of index.js is one transition function here; the class
    in RelayServer.dfy runs the same handlers in place and is proved to
    agree with these functions. */
module Matchmaking {
  import opened Protocol
  import opened Sequences

  /** Identity of one accepted WebSocket connection. */
  type ConnId = nat

  /** One thing the server does to a socket. */
  datatype Output =
    | Send(to: ConnId, msg: Message)   // ws.send(JSON.stringify(msg))
    | Ping(to: ConnId)                 // ws.ping()
    | Terminate(conn: ConnId)          // ws.terminate()

  /** The two waiting queues, chatQueue and videoQueue. */
  datatype Queue = ChatQueue | VideoQueue

  datatype State = State(
    clients: seq<ConnId>,         // wss.clients, in the order they connected
    open: set<ConnId>,            // connections whose readyState is OPEN
    isAlive: map<ConnId, bool>,   // ws.isAlive
    mode: map<ConnId, string>,    // ws.mode, as set by the last join
    chatQueue: seq<ConnId>,
    videoQueue: seq<ConnId>,
    pairs: map<ConnId, ConnId>,   // ws -> partner
    log: seq<Output>,
    nextId: ConnId)               // the identity the next connection gets
  {
    function Queued(q: Queue): seq<ConnId> {
      match q
      case ChatQueue => chatQueue
      case VideoQueue => videoQueue
    }

    function WithQueued(q: Queue, w: seq<ConnId>): State {
      match q
      case ChatQueue => this.(chatQueue := w)
      case VideoQueue => this.(videoQueue := w)
    }
  }

  /** The server before any connection: both queues and the map empty. */
  const Initial := State([], {}, map[], map[], [], [], map[], [], 0)

  /** The queue a join's `mode` selects; any other value selects none. */
  function QueueOf(mode: string): Option<Queue> {
    if mode == "chat" then Some(ChatQueue)
    else if mode == "video" then Some(VideoQueue)
    else None
  }

  function OtherQueue(q: Queue): Queue {
    match q
    case ChatQueue => VideoQueue
    case VideoQueue => ChatQueue
  }

  /** `c` waits in one of the two queues. */
  predicate IsQueued(s: State, c: ConnId) {
    c in s.chatQueue || c in s.videoQueue
  }

  /** wss "connection": a fresh socket, registered, open and alive. */
  function Accept(s: State): (r: State)
    ensures s.nextId in r.clients && s.nextId in r.open && s.nextId in r.isAlive && r.isAlive[s.nextId]
    ensures r.nextId > s.nextId
    ensures r.chatQueue == s.chatQueue && r.videoQueue == s.videoQueue
    ensures r.pairs == s.pairs && r.log == s.log && r.mode == s.mode
  {
    var c := s.nextId;
    s.(clients := s.clients + [c], open := s.open + {c},
       isAlive := s.isAlive[c := true], nextId := c + 1)
  }

  /** pairClients(a, b): record the pair both ways, then tell `a` it
      initiates and `b` that it does not. */
  function PairClients(s: State, a: ConnId, b: ConnId): (r: State)
    ensures a in r.pairs && b in r.pairs && r.pairs[a] == b && r.pairs[b] == a
    ensures forall x :: x in s.pairs && x != a && x != b ==> x in r.pairs && r.pairs[x] == s.pairs[x]
    ensures r.chatQueue == s.chatQueue && r.videoQueue == s.videoQueue
    ensures s.log <= r.log && |r.log| == |s.log| + 2
  {
    s.(pairs := s.pairs[a := b][b := a],
       log := s.log + [Send(a, Paired(true)), Send(b, Paired(false))])
  }

  /** The "join" branch: remember the mode; for "chat" or "video", pair
      with the head of that queue if there is one, else queue up and be
      told to wait. Nothing checks whether `c` already waits or is paired. */
  function HandleJoin(s: State, c: ConnId, mode: string): (r: State)
    ensures r.clients == s.clients && r.open == s.open && r.isAlive == s.isAlive
    ensures c in r.mode && r.mode[c] == mode
    ensures s.log <= r.log && |r.log| <= |s.log| + 2
    ensures QueueOf(mode).None? ==> r.pairs == s.pairs && r.log == s.log
  {
    var s' := s.(mode := s.mode[c := mode]);
    match QueueOf(mode)
    case None => s'
    case Some(q) =>
      var w := s.Queued(q);
      if |w| > 0 then PairClients(s'.WithQueued(q, w[1..]), c, w[0])
      else s'.WithQueued(q, w + [c]).(log := s.log + [Send(c, Waiting)])
  }

  /** The "chat", "offer", "answer" and "ice" branches: send `m` to the
      partner if there is one and its socket is open; otherwise drop it. */
  function HandleRelay(s: State, c: ConnId, m: Message): (r: State)
    ensures r.(log := s.log) == s
    ensures r.log == s.log || (c in s.pairs && r.log == s.log + [Send(s.pairs[c], m)])
  {
    if c in s.pairs && s.pairs[c] in s.open then s.(log := s.log + [Send(s.pairs[c], m)])
    else s
  }

  /** The "leave" branch, also the first half of "close": remove the pair
      both ways and tell the partner, if its socket is open. */
  function HandleLeave(s: State, c: ConnId): (r: State)
    ensures c !in r.pairs && r.pairs.Keys <= s.pairs.Keys
    ensures r.clients == s.clients && r.open == s.open && r.isAlive == s.isAlive
    ensures r.chatQueue == s.chatQueue && r.videoQueue == s.videoQueue
    ensures s.log <= r.log && |r.log| <= |s.log| + 1
  {
    if c in s.pairs then
      var p := s.pairs[c];
      s.(pairs := s.pairs - {c, p},
         log := if p in s.open then s.log + [Send(p, PartnerLeft)] else s.log)
    else s
  }

  /** The socket's "close" event. By then the socket is no longer open and
      no longer in wss.clients; the handler tears down its pair and filters
      it out of both queues. */
  function HandleClose(s: State, c: ConnId): (r: State)
    ensures c !in r.clients && c !in r.open && c !in r.pairs
    ensures c !in r.chatQueue && c !in r.videoQueue
    ensures s.log <= r.log
  {
    var closed := s.(clients := Without(s.clients, c), open := s.open - {c});
    var s' := HandleLeave(closed, c);
    WithoutMembers(s.clients, c);
    WithoutMembers(s'.chatQueue, c);
    WithoutMembers(s'.videoQueue, c);
    s'.(chatQueue := Without(s'.chatQueue, c), videoQueue := Without(s'.videoQueue, c))
  }

  /** The "pong" handler. */
  function HandlePong(s: State, c: ConnId): (r: State)
    ensures c in r.isAlive && r.isAlive[c]
    ensures r.(isAlive := s.isAlive) == s
  {
    s.(isAlive := s.isAlive[c := true])
  }

  /** The heartbeat's test `ws.isAlive === false`. */
  predicate Stale(alive: map<ConnId, bool>, c: ConnId) {
    c in alive && !alive[c]
  }

  /** The heartbeat's body for one connection: terminate it if its flag is
      still false, else clear the flag and ping it. Terminating only takes
      the socket out of OPEN; its "close" event comes later. */
  function Beat(s: State, c: ConnId): (r: State)
    ensures r.(open := s.open, isAlive := s.isAlive, log := s.log) == s
    ensures r.open <= s.open && s.log <= r.log && |r.log| == |s.log| + 1
    ensures Stale(s.isAlive, c) ==> c !in r.open
    ensures !Stale(s.isAlive, c) ==> Stale(r.isAlive, c)
  {
    if Stale(s.isAlive, c) then s.(open := s.open - {c}, log := s.log + [Terminate(c)])
    else s.(isAlive := s.isAlive[c := false], log := s.log + [Ping(c)])
  }

  /** `cs.forEach(Beat)`. */
  function BeatAll(s: State, cs: seq<ConnId>): (r: State)
    ensures r.clients == s.clients && r.mode == s.mode && r.nextId == s.nextId
    ensures r.chatQueue == s.chatQueue && r.videoQueue == s.videoQueue && r.pairs == s.pairs
    ensures r.open <= s.open && s.log <= r.log && |r.log| == |s.log| + |cs|
    decreases |cs|
  {
    if cs == [] then s else Beat(BeatAll(s, cs[..|cs| - 1]), cs[|cs| - 1])
  }

  /** One firing of the 30-second heartbeat interval. */
  function Heartbeat(s: State): (r: State)
    ensures r.clients == s.clients && r.pairs == s.pairs
    ensures r.chatQueue == s.chatQueue && r.videoQueue == s.videoQueue
    ensures r.open <= s.open && s.log <= r.log && |r.log| == |s.log| + |s.clients|
  {
    BeatAll(s, s.clients)
  }

  /** The "message" handler: drop what does not parse, then dispatch on
      the type. A frame that parses to `null` is dropped as well (see
      ReceiveAsWritten for what index.js does with it). */
  function Receive(s: State, c: ConnId, f: Frame): (r: State)
    ensures !f.Parsed? ==> r == s
    ensures r.clients == s.clients && r.open == s.open && r.isAlive == s.isAlive
    ensures forall x :: x in r.pairs ==> x in s.pairs || x == c || IsQueued(s, x)
  {
    match f
    case Unparseable => s
    case JsonNull => s
    case Parsed(m) =>
      match m
      case Join(mode) => HandleJoin(s, c, mode)
      case Chat(text) => HandleRelay(s, c, Chat(text))
      case Offer(_) => HandleRelay(s, c, m)
      case Answer(_) => HandleRelay(s, c, m)
      case Ice(_) => HandleRelay(s, c, m)
      case Leave => HandleLeave(s, c)
      case _ => s
  }

  /** Whether the server process survives a handler. */
  datatype Outcome = Running(state: State) | Crashed

  /** The "message" handler as index.js:32-40 runs it: `JSON.parse("null")`
      succeeds, `msg.type` then throws a TypeError outside the try block,
      and no handler catches it, so the server process dies. */
  function ReceiveAsWritten(s: State, c: ConnId, f: Frame): (o: Outcome)
    ensures f != JsonNull ==> o == Running(Receive(s, c, f))
  {
    if f == JsonNull then Crashed else Running(Receive(s, c, f))
  }

  /** Everything that can happen to the server. */
  datatype Event =
    | Connected
    | Inbound(from: ConnId, frame: Frame)
    | Ponged(from: ConnId)
    | Closed(conn: ConnId)
    | Tick

  function Next(s: State, e: Event): (r: State)
    ensures s.log <= r.log && r.nextId >= s.nextId
  {
    match e
    case Connected => Accept(s)
    case Inbound(c, f) => Receive(s, c, f)
    case Ponged(c) => HandlePong(s, c)
    case Closed(c) => HandleClose(s, c)
    case Tick => Heartbeat(s)
  }

  /** The pairing map is symmetric and pairs nobody with itself. */
  ghost predicate Symmetric(pairs: map<ConnId, ConnId>) {
    forall a :: a in pairs ==> pairs[a] in pairs && pairs[pairs[a]] == a && pairs[a] != a
  }

  /** The server's intended invariant: registered connections are distinct
      and older than `nextId`; a connection waits in at most one queue and
      at most once; nobody both waits and is paired; waiting and paired
      connections are registered; pairing is symmetric. */
  ghost predicate Valid(s: State) {
    && NoDup(s.clients)
    && (forall c :: c in s.clients ==> c < s.nextId)
    && NoDup(s.chatQueue) && NoDup(s.videoQueue)
    && (forall c :: c in s.chatQueue ==> c !in s.videoQueue)
    && (forall c :: c in s.chatQueue ==> c in s.clients && c !in s.pairs)
    && (forall c :: c in s.videoQueue ==> c in s.clients && c !in s.pairs)
    && (forall c :: c in s.pairs ==> c in s.clients)
    && Symmetric(s.pairs)
  }

  /** The events the invariant is kept under: messages come only from
      registered connections, and a join only from a connection that
      neither waits nor is paired (index.js does not enforce this). */
  ghost predicate Admissible(s: State, e: Event) {
    match e
    case Inbound(c, f) =>
      c in s.clients && (f.Parsed? && f.msg.Join? ==> !IsQueued(s, c) && c !in s.pairs)
    case _ => true
  }
}
