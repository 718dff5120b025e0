/** The daemon's end of the connections: every message goes to every client. */
module Hub {
  import opened GreeterSpec
  import opened Protocol

  class Server {
    const config: Config
    const xsessions: seq<Session>
    var clients: seq<nat>              // in the order they connected
    var queues: map<nat, seq<Msg>>     // what each of them has still to read

    ghost predicate Valid()
      reads this
    {
      && (forall i, j :: 0 <= i < j < |clients| ==> clients[i] != clients[j])
      && (forall c :: c in queues <==> c in clients)
    }

    constructor (config: Config, xsessions: seq<Session>)
      ensures Valid() && clients == [] && queues == map[]
      ensures this.config == config && this.xsessions == xsessions
    {
      this.config, this.xsessions := config, xsessions;
      clients, queues := [], map[];
    }

    /** A connection comes up: the client is on the list before its setup is sent. */
    method Connected(c: nat)
      requires Valid() && c !in clients
      modifies this`clients, this`queues
      ensures Valid() && clients == old(clients) + [c] && queues == old(queues)[c := []]
    {
      clients := clients + [c];
      queues := queues[c := []];
    }

    /** Send one message to every connected client. */
    method WriteCb(m: Msg)
      requires Valid()
      modifies this`queues
      ensures Valid() && queues == Sent(old(queues), [m])
    {
      for i := 0 to |clients|
        invariant queues.Keys == old(queues).Keys
        invariant forall k :: 0 <= k < |clients| ==>
          queues[clients[k]] == if k < i then old(queues)[clients[k]] + [m] else old(queues)[clients[k]]
      {
        queues := queues[clients[i] := queues[clients[i]] + [m]];
      }
    }

    /** A client has connected: set it up, and everyone else again. */
    method ServerAdd(users: seq<User>)
      requires Valid()
      modifies this`queues
      ensures Valid() && queues == Sent(old(queues), Burst(config, xsessions, users))
    {
      ghost var was := queues;
      WriteCb(Pid);
      WriteCb(Actions);
      SentTwice(was, [Pid], [Actions]);
      ghost var so := [Pid] + [Actions];
      if config.xsessions {
        WriteCb(Xsessions(xsessions));
        SentTwice(was, so, [Xsessions(xsessions)]);
        so := so + [Xsessions(xsessions)];
      }
      if config.custom {
        WriteCb(Conf(config.reqPasswd, config.autoselect));
        SentTwice(was, so, [Conf(config.reqPasswd, config.autoselect)]);
        so := so + [Conf(config.reqPasswd, config.autoselect)];
      }
      WriteCb(Users(users));
      SentTwice(was, so, [Users(users)]);
      so := so + [Users(users)];
      WriteCb(Pools);
      SentTwice(was, so, [Pools]);
      assert so + [Pools] == Burst(config, xsessions, users);
    }
  }

  function Sent(queues: map<nat, seq<Msg>>, ms: seq<Msg>): map<nat, seq<Msg>> {
    map c | c in queues :: queues[c] + ms
  }

  lemma SentTwice(queues: map<nat, seq<Msg>>, a: seq<Msg>, b: seq<Msg>)
    ensures Sent(Sent(queues, a), b) == Sent(queues, a + b)
  {
    forall c | c in queues ensures queues[c] + a + b == queues[c] + (a + b) {}
  }

  function Queues(n: Net): map<nat, seq<Msg>> {
    map c | c in n.conns :: n.conns[c].inq
  }

  /** Broadcasting in the protocol is what the server's loop does to the queues. */
  lemma BroadcastSends(n: Net, ms: seq<Msg>)
    ensures Queues(Broadcast(n, ms)) == Sent(Queues(n), ms)
  {
  }
}
