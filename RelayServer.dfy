/** The server of index.js as it runs: module-level queues and map, and a
    flag on each socket, all updated in place by the socket handlers. Each
    handler is proved to have exactly the effect of its transition
    function in Matchmaking, so every property proved there holds of it. */
module RelayServer {
  import opened Protocol
  import opened Sequences
  import opened Matchmaking

  class Server {
    var clients: seq<ConnId>
    var open: set<ConnId>
    var isAlive: map<ConnId, bool>
    var mode: map<ConnId, string>
    var chatQueue: seq<ConnId>
    var videoQueue: seq<ConnId>
    var pairs: map<ConnId, ConnId>
    var log: seq<Output>
    var nextId: ConnId

    /** The server's whole state as a value. */
    function Snapshot(): State
      reads this
    {
      State(clients, open, isAlive, mode, chatQueue, videoQueue, pairs, log, nextId)
    }

    constructor ()
      ensures Snapshot() == Initial
    {
      clients, open, isAlive, mode := [], {}, map[], map[];
      chatQueue, videoQueue, pairs, log, nextId := [], [], map[], [], 0;
    }

    /** wss "connection": register the socket and mark it alive. */
    method OnConnection() returns (c: ConnId)
      modifies this
      ensures c == old(nextId)
      ensures Snapshot() == Accept(old(Snapshot()))
    {
      c := nextId;
      nextId := nextId + 1;
      clients := clients + [c];
      open := open + {c};
      isAlive := isAlive[c := true];
    }

    /** pairClients(a, b, mode). */
    method PairClients(a: ConnId, b: ConnId)
      modifies this
      ensures pairs == old(pairs)[a := b][b := a]
      ensures Snapshot() == Matchmaking.PairClients(old(Snapshot()), a, b)
    {
      pairs := pairs[a := b];
      pairs := pairs[b := a];
      log := log + [Send(a, Paired(true))];
      log := log + [Send(b, Paired(false))];
    }

    /** The pair teardown shared by "leave" and "close". */
    method TearDown(c: ConnId)
      modifies this
      ensures c !in pairs
      ensures Snapshot() == HandleLeave(old(Snapshot()), c)
    {
      if c in pairs {
        var partner := pairs[c];
        pairs := pairs - {c};
        pairs := pairs - {partner};
        if partner in open {
          log := log + [Send(partner, PartnerLeft)];
        }
      }
    }

    /** The socket's "message" handler. */
    method OnMessage(c: ConnId, f: Frame)
      modifies this
      ensures Snapshot() == Receive(old(Snapshot()), c, f)
    {
      if !f.Parsed? {
        return;
      }
      var msg := f.msg;

      if msg.Join? {
        mode := mode[c := msg.mode];
        if msg.mode == "chat" {
          if |chatQueue| > 0 {
            var partner := chatQueue[0];
            chatQueue := chatQueue[1..];
            PairClients(c, partner);
          } else {
            chatQueue := chatQueue + [c];
            log := log + [Send(c, Waiting)];
          }
        } else if msg.mode == "video" {
          if |videoQueue| > 0 {
            var partner := videoQueue[0];
            videoQueue := videoQueue[1..];
            PairClients(c, partner);
          } else {
            videoQueue := videoQueue + [c];
            log := log + [Send(c, Waiting)];
          }
        }
      }

      if msg.Chat? {
        if c in pairs && pairs[c] in open {
          log := log + [Send(pairs[c], Chat(msg.text))];
        }
      }

      if msg.Offer? || msg.Answer? || msg.Ice? {
        if c in pairs && pairs[c] in open {
          log := log + [Send(pairs[c], msg)];
        }
      }

      if msg.Leave? {
        TearDown(c);
      }
    }

    /** The socket's "close" handler. The ws library has already taken the
        socket out of wss.clients and out of OPEN when it runs. */
    method OnClose(c: ConnId)
      modifies this
      ensures c !in pairs && c !in chatQueue && c !in videoQueue
      ensures Snapshot() == HandleClose(old(Snapshot()), c)
    {
      clients := Without(clients, c);
      open := open - {c};
      TearDown(c);
      if c in chatQueue {
        WithoutMembers(chatQueue, c);
        chatQueue := Without(chatQueue, c);
      } else {
        WithoutAbsent(chatQueue, c);
      }
      if c in videoQueue {
        WithoutMembers(videoQueue, c);
        videoQueue := Without(videoQueue, c);
      } else {
        WithoutAbsent(videoQueue, c);
      }
    }

    /** The socket's "pong" handler. */
    method OnPong(c: ConnId)
      modifies this
      ensures Snapshot() == HandlePong(old(Snapshot()), c)
    {
      isAlive := isAlive[c := true];
    }

    /** The body of the heartbeat interval: `wss.clients.forEach(...)`. */
    method Heartbeat()
      modifies this
      ensures Snapshot() == Matchmaking.Heartbeat(old(Snapshot()))
    {
      var cs := clients;
      for i := 0 to |cs|
        invariant Snapshot() == BeatAll(old(Snapshot()), cs[..i])
      {
        var ws := cs[i];
        if ws in isAlive && isAlive[ws] == false {
          open := open - {ws};
          log := log + [Terminate(ws)];
        } else {
          isAlive := isAlive[ws := false];
          log := log + [Ping(ws)];
        }
        assert cs[..i + 1][..i] == cs[..i];
      }
      assert cs[..|cs|] == cs;
    }
  }
}
