/** The daemon, its greeters and the channels between them: a broadcast log on the way out,
    one queue of requests per greeter on the way in. */
module Protocol {
  import opened Wrappers
  import opened GreeterSpec

  datatype Config = Config(xsessions: bool, custom: bool, reqPasswd: bool, autoselect: bool)

  /** One connection: where in the log it began and how many requests had been answered
      then; what it was delivered and what is still queued to it; its own requests, those in
      the queue, all that were sent and those that are done; and the greeter at its end. */
  datatype Conn = Conn(start: nat, answeredBefore: nat, got: seq<Msg>, inq: seq<Msg>, up: seq<Auth>,
                       sent: seq<Auth>, done: seq<Auth>, greeter: Greeter)

  /** `handled` are the requests the daemon answered and `askers` the connections they came
      from, `joining` the connections whose setup burst has not been sent yet. */
  datatype Net = Net(config: Config, list: seq<Session>, log: seq<Msg>, conns: map<nat, Conn>, joining: nat,
                     handled: seq<Auth>, askers: seq<nat>)

  datatype Event =
    | Accept(c: nat, seat: nat)
    | Setup(users: seq<User>)
    | Act(c: nat, action: Action)
    | Handle(c: nat, granted: bool)
    | Deliver(c: nat)
    | Disconnect(c: nat)

  /** What a new connection makes the daemon send, to everyone. */
  function Burst(config: Config, list: seq<Session>, users: seq<User>): seq<Msg> {
    [Pid, Actions]
    + (if config.xsessions then [Xsessions(list)] else [])
    + (if config.custom then [Conf(config.reqPasswd, config.autoselect)] else [])
    + [Users(users), Pools]
  }

  function Push(c: Conn, ms: seq<Msg>): Conn {
    c.(inq := c.inq + ms)
  }

  function Broadcast(n: Net, ms: seq<Msg>): Net {
    n.(log := n.log + ms, conns := map c | c in n.conns :: Push(n.conns[c], ms))
  }

  function Joined(n: Net, seat: nat): Conn {
    Conn(|n.log|, |n.handled|, [], [], [], [], [], Fresh(seat))
  }

  function Acted(c: Conn, a: Action): Conn {
    var (g, m) := Do(c.greeter, a);
    if m.None? then c.(greeter := g) else c.(greeter := g, up := c.up + [m.value], sent := c.sent + [m.value])
  }

  function Delivered(c: Conn): Conn
    requires c.inq != []
  {
    c.(greeter := React(c.greeter, c.inq[0]), got := c.got + [c.inq[0]], inq := c.inq[1..])
  }

  function Taken(c: Conn): Conn
    requires c.up != []
  {
    c.(up := c.up[1..], done := c.done + [c.up[0]])
  }

  predicate Enabled(n: Net, e: Event) {
    match e
    case Accept(c, _) => c !in n.conns
    case Setup(_) => n.joining > 0
    case Act(c, _) => c in n.conns
    case Handle(c, _) => c in n.conns && n.conns[c].up != []
    case Deliver(c) => c in n.conns && n.conns[c].inq != []
    case Disconnect(c) => c in n.conns
  }

  function Step(n: Net, e: Event): Net
    requires Enabled(n, e)
  {
    match e
    case Accept(c, seat) => n.(conns := n.conns[c := Joined(n, seat)], joining := n.joining + 1)
    case Setup(users) => Broadcast(n, Burst(n.config, n.list, users)).(joining := n.joining - 1)
    case Act(c, a) => n.(conns := n.conns[c := Acted(n.conns[c], a)])
    case Handle(c, granted) =>
      var d := n.conns[c];
      var m := n.(conns := n.conns[c := Taken(d)], handled := n.handled + [d.up[0]], askers := n.askers + [c]);
      Broadcast(m, [Status(granted)])
    case Deliver(c) => n.(conns := n.conns[c := Delivered(n.conns[c])])
    case Disconnect(c) => n.(conns := n.conns - {c})
  }

  function Boot(config: Config, list: seq<Session>): Net {
    Net(config, list, [], map[], 0, [], [])
  }

  ghost predicate Runnable(n: Net, es: seq<Event>)
    decreases |es|, 0
  {
    es == [] || (Runnable(n, es[..|es| - 1]) && Enabled(Final(n, es[..|es| - 1]), es[|es| - 1]))
  }

  ghost function Final(n: Net, es: seq<Event>): Net
    requires Runnable(n, es)
    decreases |es|, 1
  {
    if es == [] then n else Step(Final(n, es[..|es| - 1]), es[|es| - 1])
  }

  // ---------- the invariant ----------

  function Answers(ms: seq<Msg>): nat {
    if ms == [] then 0 else Answers(ms[..|ms| - 1]) + if ms[|ms| - 1].Status? then 1 else 0
  }

  lemma {:induction false} AnswersSplit(a: seq<Msg>, b: seq<Msg>)
    ensures Answers(a + b) == Answers(a) + Answers(b)
  {
    if b == [] {
      assert a + b == a;
    } else {
      AnswersSplit(a, b[..|b| - 1]);
      assert (a + b)[..|a + b| - 1] == a + b[..|b| - 1];
    }
  }

  /** The daemon's log and what a connection saw of it. */
  ghost predicate Channel(c: Conn, log: seq<Msg>) {
    && c.start <= |log| && c.got + c.inq == log[c.start..]
    && Answers(log[..c.start]) == c.answeredBefore
    && c.sent == c.done + c.up
  }

  ghost predicate HasAnswer(ms: seq<Msg>) {
    exists k :: 0 <= k < |ms| && ms[k].Status?
  }

  /** A waiting greeter has something to wait for. */
  ghost predicate Owed(c: Conn) {
    c.greeter.waiting ==> c.up != [] || HasAnswer(c.inq)
  }

  /** Every list of users in ms has a list of sessions before it. */
  ghost predicate Ordered(ms: seq<Msg>) {
    forall k :: 0 <= k < |ms| && ms[k].Users? ==> exists j :: 0 <= j < k && ms[j].Xsessions?
  }

  ghost predicate Offers(ms: seq<Msg>, config: Config, list: seq<Session>) {
    forall k :: 0 <= k < |ms| && ms[k].Xsessions? ==> config.xsessions && ms[k].list == list
  }

  ghost predicate HasSessions(ms: seq<Msg>) {
    exists k :: 0 <= k < |ms| && ms[k].Xsessions?
  }

  /** Every configuration in ms is the daemon's. */
  ghost predicate Confs(ms: seq<Msg>, config: Config) {
    forall k :: 0 <= k < |ms| && ms[k].Conf? ==>
      config.custom && ms[k].reqPasswd == config.reqPasswd && ms[k].autoselect == config.autoselect
  }

  ghost predicate HasConf(ms: seq<Msg>) {
    exists k :: 0 <= k < |ms| && ms[k].Conf?
  }

  /** The users of the last list of users. */
  function LastUsers(ms: seq<Msg>): seq<User> {
    if ms == [] then []
    else if ms[|ms| - 1].Users? then ms[|ms| - 1].users
    else LastUsers(ms[..|ms| - 1])
  }

  /** What the greeter knows is what it was last told, and its first settings until then. */
  ghost predicate Told(c: Conn, config: Config) {
    && c.greeter.users == LastUsers(c.got)
    && c.greeter.reqPasswd == (HasConf(c.got) && config.reqPasswd)
    && c.greeter.autoselect == (HasConf(c.got) ==> config.autoselect)
  }

  /** The greeter's list is the daemon's, from the first time it is told. */
  ghost predicate Listed(c: Conn, config: Config, list: seq<Session>) {
    && c.greeter.xsessions == (if HasSessions(c.got) then list else [])
    && Fits(c.got + c.inq, config, list)
  }

  /** Every one of these requests names a session of the daemon's list. */
  ghost predicate Choices(up: seq<Auth>, config: Config, list: seq<Session>) {
    forall k :: 0 <= k < |up| ==> config.xsessions && Choice(list, up[k].session)
  }

  /** Every one of these requests carries the seat of its greeter. */
  ghost predicate From(up: seq<Auth>, id: nat) {
    forall k :: 0 <= k < |up| ==> up[k].id == id
  }

  ghost predicate HasGrant(ms: seq<Msg>) {
    exists k :: 0 <= k < |ms| && ms[k] == Status(true)
  }

  /** A greeter leaves as soon as it is told of a grant, anyone's, and not before. */
  ghost predicate Leaves(c: Conn) {
    c.greeter.exited <==> HasGrant(c.got)
  }

  ghost predicate Good(c: Conn, n: Net) {
    && Channel(c, n.log) && Owed(c) && Leaves(c) && Told(c, n.config)
    && Handshake(c.greeter) && Chosen(c.greeter)
    && Listed(c, n.config, n.list) && Choices(c.up, n.config, n.list) && From(c.up, c.greeter.id)
  }

  ghost predicate Inv(n: Net) {
    && Answers(n.log) == |n.handled| == |n.askers|
    && Choices(n.handled, n.config, n.list)
    && forall c :: c in n.conns ==> Good(n.conns[c], n)
  }

  // ---------- one connection ----------

  lemma PushChannel(c: Conn, log: seq<Msg>, ms: seq<Msg>)
    requires Channel(c, log)
    ensures Channel(Push(c, ms), log + ms)
  {
    assert (log + ms)[c.start..] == log[c.start..] + ms;
    assert (log + ms)[..c.start] == log[..c.start];
    assert c.got + (c.inq + ms) == (c.got + c.inq) + ms;
  }

  lemma PushOwed(c: Conn, ms: seq<Msg>)
    requires Owed(c) || HasAnswer(ms)
    ensures Owed(Push(c, ms))
  {
    if c.greeter.waiting && c.up == [] {
      if HasAnswer(ms) {
        var k :| 0 <= k < |ms| && ms[k].Status?;
        assert (c.inq + ms)[|c.inq| + k] == ms[k];
      } else {
        var k :| 0 <= k < |c.inq| && c.inq[k].Status?;
        assert (c.inq + ms)[k] == c.inq[k];
      }
    }
  }

  /** What may follow in any channel. */
  ghost predicate Fits(ms: seq<Msg>, config: Config, list: seq<Session>) {
    Offers(ms, config, list) && (config.xsessions ==> Ordered(ms)) && Confs(ms, config)
  }

  lemma FitsBoth(a: seq<Msg>, b: seq<Msg>, config: Config, list: seq<Session>)
    requires Fits(a, config, list) && Fits(b, config, list)
    ensures Fits(a + b, config, list)
  {
    var ms := a + b;
    forall k | 0 <= k < |ms| && ms[k].Xsessions? ensures config.xsessions && ms[k].list == list {
      assert ms[k] == if k < |a| then a[k] else b[k - |a|];
    }
    assert Confs(ms, config) by {
      forall k | 0 <= k < |ms| && ms[k].Conf?
        ensures config.custom && ms[k].reqPasswd == config.reqPasswd && ms[k].autoselect == config.autoselect
      {
        assert ms[k] == if k < |a| then a[k] else b[k - |a|];
      }
    }
    if config.xsessions {
      forall k | 0 <= k < |ms| && ms[k].Users? ensures exists j :: 0 <= j < k && ms[j].Xsessions? {
        if k < |a| {
          var j :| 0 <= j < k && a[j].Xsessions?;
          assert ms[j] == a[j];
        } else {
          var j :| 0 <= j < k - |a| && b[j].Xsessions?;
          assert ms[|a| + j] == b[j];
        }
      }
    }
  }

  lemma PushListed(c: Conn, ms: seq<Msg>, config: Config, list: seq<Session>)
    requires Listed(c, config, list) && Fits(ms, config, list)
    ensures Listed(Push(c, ms), config, list)
  {
    FitsBoth(c.got + c.inq, ms, config, list);
    assert c.got + (c.inq + ms) == (c.got + c.inq) + ms;
  }

  lemma BurstFits(config: Config, list: seq<Session>, users: seq<User>)
    ensures Fits(Burst(config, list, users), config, list)
    ensures Answers(Burst(config, list, users)) == 0
  {
    var ms := Burst(config, list, users);
    if config.xsessions { assert ms[2] == Xsessions(list); }
    forall k | 0 <= k < |ms| ensures !ms[k].Status? {}
    NoAnswers(ms);
  }

  lemma {:induction false} NoAnswers(ms: seq<Msg>)
    requires forall k :: 0 <= k < |ms| ==> !ms[k].Status?
    ensures Answers(ms) == 0
  {
    if ms != [] { NoAnswers(ms[..|ms| - 1]); }
  }

  lemma ActedKeeps(c: Conn, a: Action, n: Net)
    requires Good(c, n)
    ensures Good(Acted(c, a), n)
  {
    hide Handshake, Chosen, Do, HasAnswer, Ordered, HasGrant;
    DoKeeps(c.greeter, a);
    var (g, m) := Do(c.greeter, a);
    var d := Acted(c, a);
    if m.Some? {
      assert HasSessions(c.got);
      var k :| 0 <= k < |c.got| && c.got[k].Xsessions?;
      assert (c.got + c.inq)[k].Xsessions?;
      assert d.up[|c.up|] == m.value;
    }
  }

  lemma ToldNext(c: Conn, config: Config, m: Msg, d: Conn)
    requires Told(c, config) && d.got == c.got + [m] && Reacted(c.greeter, m, d.greeter)
    requires m.Conf? ==> m.reqPasswd == config.reqPasswd && m.autoselect == config.autoselect
    ensures Told(d, config)
  {
    assert d.got[..|d.got| - 1] == c.got && d.got[|c.got|] == m;
    if HasConf(c.got) {
      var k :| 0 <= k < |c.got| && c.got[k].Conf?;
      assert d.got[k].Conf?;
    }
    assert HasConf(d.got) <==> HasConf(c.got) || m.Conf?;
  }

  lemma GrantNext(ms: seq<Msg>, m: Msg)
    ensures HasGrant(ms + [m]) <==> HasGrant(ms) || m == Status(true)
  {
    if m == Status(true) { assert (ms + [m])[|ms|] == m; }
    if HasGrant(ms) {
      var k :| 0 <= k < |ms| && ms[k] == Status(true);
      assert (ms + [m])[k] == ms[k];
    }
  }

  lemma SessionsNext(ms: seq<Msg>, m: Msg)
    ensures HasSessions(ms + [m]) <==> HasSessions(ms) || m.Xsessions?
  {
    if m.Xsessions? { assert (ms + [m])[|ms|] == m; }
    if HasSessions(ms) {
      var k :| 0 <= k < |ms| && ms[k].Xsessions?;
      assert (ms + [m])[k] == ms[k];
    }
  }

  lemma AnswerStays(ms: seq<Msg>)
    requires ms != [] && HasAnswer(ms) && !ms[0].Status?
    ensures HasAnswer(ms[1..])
  {
    var k :| 0 <= k < |ms| && ms[k].Status?;
    assert ms[1..][k - 1] == ms[k];
  }

  /** What fits, seen at the message that is next. */
  lemma FitsAt(ms: seq<Msg>, config: Config, list: seq<Session>, k: nat)
    requires Fits(ms, config, list) && k < |ms|
    ensures ms[k].Xsessions? ==> config.xsessions && ms[k].list == list
    ensures ms[k].Conf? ==> ms[k].reqPasswd == config.reqPasswd && ms[k].autoselect == config.autoselect
  {
  }

  lemma DeliveredKeeps(c: Conn, n: Net)
    requires Good(c, n) && c.inq != []
    ensures Good(Delivered(c), n)
  {
    hide React, Handshake, Chosen, Choices, From, Fits, Answers, HasAnswer, HasSessions, HasGrant, Told;
    var m := c.inq[0];
    var d := Delivered(c);
    ReactKeeps(c.greeter, m);
    assert d.got + d.inq == c.got + c.inq;
    assert (c.got + c.inq)[|c.got|] == m;
    FitsAt(c.got + c.inq, n.config, n.list, |c.got|);
    if !m.Status? && HasAnswer(c.inq) { AnswerStays(c.inq); }
    SessionsNext(c.got, m);
    GrantNext(c.got, m);
    ToldNext(c, n.config, m, d);
  }

  // ---------- the whole net ----------

  lemma PushKeeps(c: Conn, n: Net, ms: seq<Msg>, m: Net)
    requires Channel(c, n.log) && (Owed(c) || HasAnswer(ms)) && Leaves(c) && Told(c, n.config)
    requires Handshake(c.greeter) && Chosen(c.greeter)
    requires Listed(c, n.config, n.list) && Choices(c.up, n.config, n.list) && Fits(ms, n.config, n.list)
    requires From(c.up, c.greeter.id)
    requires m.log == n.log + ms && m.config == n.config && m.list == n.list
    ensures Good(Push(c, ms), m)
  {
    PushChannel(c, n.log, ms);
    PushOwed(c, ms);
    PushListed(c, ms, n.config, n.list);
  }

  lemma JoinedGood(n: Net, seat: nat)
    requires Answers(n.log) == |n.handled|
    ensures Good(Joined(n, seat), n)
  {
    assert n.log[..|n.log|] == n.log;
  }

  lemma SetupKeeps(n: Net, users: seq<User>)
    requires Inv(n) && n.joining > 0
    ensures Inv(Step(n, Setup(users)))
  {
    var ms := Burst(n.config, n.list, users);
    var m := Step(n, Setup(users));
    BurstFits(n.config, n.list, users);
    AnswersSplit(n.log, ms);
    hide Channel, Owed, Leaves, Told, Handshake, Chosen, Listed, Choices, From, Fits, Burst, Answers, HasAnswer;
    forall c | c in m.conns ensures Good(m.conns[c], m) {
      PushKeeps(n.conns[c], n, ms, m);
    }
  }

  lemma StatusFits(granted: bool, config: Config, list: seq<Session>)
    ensures Fits([Status(granted)], config, list) && HasAnswer([Status(granted)]) && Answers([Status(granted)]) == 1
  {
    assert [Status(granted)][0].Status?;
    assert [Status(granted)][..0] == [];
  }

  lemma ChoicesTaken(handled: seq<Auth>, up: seq<Auth>, config: Config, list: seq<Session>)
    requires Choices(handled, config, list) && Choices(up, config, list) && up != []
    ensures Choices(handled + [up[0]], config, list) && Choices(up[1..], config, list)
  {
  }

  lemma HandleKeeps(n: Net, c: nat, granted: bool)
    requires Inv(n) && Enabled(n, Handle(c, granted))
    ensures Inv(Step(n, Handle(c, granted)))
  {
    hide Owed, Leaves, Told, Handshake, Chosen, Listed, Choices, From, Fits, Answers, HasAnswer, Channel;
    var ms := [Status(granted)];
    var m := Step(n, Handle(c, granted));
    StatusFits(granted, n.config, n.list);
    AnswersSplit(n.log, ms);
    ChoicesTaken(n.handled, n.conns[c].up, n.config, n.list);
    forall d | d in m.conns ensures Good(m.conns[d], m) {
      assert Good(n.conns[d], n);
      if d == c {
        TakenKeeps(n.conns[c], n);
        PushKeeps(Taken(n.conns[c]), n, ms, m);
      } else {
        PushKeeps(n.conns[d], n, ms, m);
      }
    }
  }

  lemma TakenKeeps(c: Conn, n: Net)
    requires Good(c, n) && c.up != []
    ensures Channel(Taken(c), n.log) && Listed(Taken(c), n.config, n.list) && From(Taken(c).up, c.greeter.id)
    ensures Leaves(Taken(c)) && Told(Taken(c), n.config)
  {
  }

  lemma SameNet(n: Net, m: Net, c: Conn)
    requires Good(c, n) && m.log == n.log && m.config == n.config && m.list == n.list
    ensures Good(c, m)
  {
  }

  /** Every event keeps the invariant, whatever the daemon decides and the users do. */
  lemma StepKeeps(n: Net, e: Event)
    requires Inv(n) && Enabled(n, e)
    ensures Inv(Step(n, e))
    ensures Step(n, e).config == n.config && Step(n, e).list == n.list
  {
    match e
    case Setup(users) => SetupKeeps(n, users);
    case Handle(c, granted) => HandleKeeps(n, c, granted);
    case Accept(c, seat) => JoinedGood(n, seat); OthersKept(n, e, c);
    case Act(c, a) => ActedKeeps(n.conns[c], a, n); OthersKept(n, e, c);
    case Deliver(c) => DeliveredKeeps(n.conns[c], n); OthersKept(n, e, c);
    case Disconnect(c) => OthersKept(n, e, c);
  }

  lemma OthersKept(n: Net, e: Event, c: nat)
    requires Inv(n) && Enabled(n, e)
    requires !e.Setup? && !e.Handle? && c == e.c
    requires c in Step(n, e).conns ==> Good(Step(n, e).conns[c], n)
    ensures Inv(Step(n, e))
  {
    hide Good, Choices, Do, React;
    var m := Step(n, e);
    forall d | d in m.conns ensures Good(m.conns[d], m) {
      SameNet(n, m, m.conns[d]);
    }
  }

  lemma {:induction false} RunKeeps(config: Config, list: seq<Session>, es: seq<Event>)
    requires Runnable(Boot(config, list), es)
    ensures
      var n := Final(Boot(config, list), es);
      Inv(n) && n.config == config && n.list == list
  {
    if es != [] {
      RunKeeps(config, list, es[..|es| - 1]);
      StepKeeps(Final(Boot(config, list), es[..|es| - 1]), es[|es| - 1]);
    }
  }

  // ---------- what every run gives ----------

  /** The states that some run from a start leads to. */
  ghost predicate Reachable(n: Net) {
    exists es :: Runnable(Boot(n.config, n.list), es) && n == Final(Boot(n.config, n.list), es)
  }

  lemma ReachableInv(n: Net)
    requires Reachable(n)
    ensures Inv(n)
  {
    var es :| Runnable(Boot(n.config, n.list), es) && n == Final(Boot(n.config, n.list), es);
    RunKeeps(n.config, n.list, es);
  }

  lemma ReachableGood(n: Net, c: nat)
    requires Reachable(n) && c in n.conns
    ensures Good(n.conns[c], n) && Answers(n.log) == |n.handled|
  {
    ReachableInv(n);
  }

  /** In every reachable state a greeter waits exactly when it has its one callback
      registered, and then its own request is still queued or an answer is queued to it. */
  lemma WaitingIsOwed(n: Net, c: nat)
    requires Reachable(n) && c in n.conns
    ensures
      var d := n.conns[c];
      var g := d.greeter;
      && (g.waiting <==> g.auth != 0) && (g.waiting <==> g.authList == [g.auth]) && (!g.waiting <==> g.authList == [])
      && (g.waiting ==> d.up != [] || exists k :: 0 <= k < |d.inq| && d.inq[k].Status?)
  {
    ReachableGood(n, c);
  }

  /** What was delivered and what is queued make up the daemon's log from the connection on. */
  lemma SegmentOfLog(n: Net, c: nat)
    requires Reachable(n) && c in n.conns
    ensures n.conns[c].start <= |n.log| && n.conns[c].got + n.conns[c].inq == n.log[n.conns[c].start..]
  {
    ReachableGood(n, c);
  }

  /** One answer is broadcast per request handled; every connection has received or is still
      queued exactly the answers since it began; its own requests are handled or queued, in the
      order they were sent. */
  lemma CountsBalance(n: Net, c: nat)
    requires Reachable(n) && c in n.conns
    ensures
      var d := n.conns[c];
      && Answers(n.log) == |n.handled|
      && d.answeredBefore + Answers(d.got) + Answers(d.inq) == |n.handled|
      && d.sent == d.done + d.up && |d.sent| == |d.done| + |d.up|
  {
    hide Reachable, Answers, Owed, Listed, Handshake, Chosen, Choices;
    ReachableGood(n, c);
    var d := n.conns[c];
    AnswersSplit(d.got, d.inq);
    AnswersSplit(n.log[..d.start], n.log[d.start..]);
    assert n.log[..d.start] + n.log[d.start..] == n.log;
  }

  /** Handling a request puts exactly one answer, at the end, in every connection's queue. */
  lemma OneAnswerEach(n: Net, c: nat, granted: bool, d: nat)
    requires Enabled(n, Handle(c, granted)) && d in n.conns
    ensures
      var m := Step(n, Handle(c, granted));
      && d in m.conns && m.conns[d].inq == n.conns[d].inq + [Status(granted)]
      && Answers(m.conns[d].inq) == Answers(n.conns[d].inq) + 1
  {
    hide Answers;
    AnswersSplit(n.conns[d].inq, [Status(granted)]);
    StatusFits(granted, n.config, n.list);
  }

  /** With sessions enabled, a greeter that handles a list of users already has the whole
      list of sessions; the first user's session is then chosen when the list has it. */
  lemma UsersFindSessions(n: Net, c: nat)
    requires Reachable(n) && c in n.conns && n.config.xsessions
    requires n.conns[c].inq != [] && n.conns[c].inq[0].Users?
    ensures
      var d := n.conns[c];
      && d.greeter.xsessions == n.list
      && FirstUserServed(d.inq[0].users, React(d.greeter, d.inq[0]), n.list)
  {
    ReachableGood(n, c);
    var d := n.conns[c];
    hide Reachable, Channel, Owed, Handshake, Chosen, Choices, React;
    SessionsBefore(d, n.config, n.list);
    ServesFirstUser(d.greeter, d.inq[0].users);
  }

  /** The first user's remembered session is the one chosen, when the list has it. */
  ghost predicate FirstUserServed(us: seq<User>, g: Greeter, list: seq<Session>) {
    g.autoselect && us != [] && us[0].session.Some? && Choice(list, us[0].session.value) ==>
      g.session.Some? && g.session.value.name == us[0].session.value
  }

  lemma SessionsBefore(d: Conn, config: Config, list: seq<Session>)
    requires Listed(d, config, list) && config.xsessions && d.inq != [] && d.inq[0].Users?
    ensures d.greeter.xsessions == list
  {
    var ms := d.got + d.inq;
    assert ms[|d.got|] == d.inq[0];
    var j :| 0 <= j < |d.got| && ms[j].Xsessions?;
    assert d.got[j].Xsessions?;
  }

  lemma ServesFirstUser(g: Greeter, us: seq<User>)
    ensures FirstUserServed(us, React(g, Users(us)), g.xsessions)
  {
    if us != [] {
      PickFromList(g.xsessions, us[0].session);
    }
  }

  /** Every request that reaches the daemon names a session of the daemon's own list; with
      sessions disabled there is no request at all. */
  lemma RequestsNameSessions(n: Net, k: nat)
    requires Reachable(n) && k < |n.handled|
    ensures n.config.xsessions && Choice(n.list, n.handled[k].session)
  {
    ReachableInv(n);
    assert Choice(n.list, n.handled[k].session);
  }

  /** A request that is handled carries the seat of the greeter it came from. */
  lemma HandledFromItsSeat(n: Net, c: nat, granted: bool)
    requires Reachable(n) && Enabled(n, Handle(c, granted))
    ensures
      var m := Step(n, Handle(c, granted));
      m.handled == n.handled + [n.conns[c].up[0]] && m.handled[|n.handled|].id == n.conns[c].greeter.id
  {
    ReachableGood(n, c);
  }

  // ---------- whose answer it is ----------

  /** Which connection asked for the answer at place p of what c received or is owed: answers
      go out in the order the requests were handled in. */
  function AskerAt(n: Net, c: nat, p: nat): nat
    requires c in n.conns && p < |n.conns[c].got + n.conns[c].inq|
  {
    var d := n.conns[c];
    AskerOf(d.got + d.inq, n.askers, d.answeredBefore, p)
  }

  function AskerOf(ms: seq<Msg>, askers: seq<nat>, base: nat, p: nat): nat
    requires p < |ms|
  {
    var k := base + Answers(ms[..p]);
    if k < |askers| then askers[k] else 0
  }

  /** Every answer that c received or is owed is the answer to a request of its own. */
  ghost predicate OnlyOwn(n: Net, c: nat)
    requires c in n.conns
  {
    var ms := n.conns[c].got + n.conns[c].inq;
    forall p :: 0 <= p < |ms| && ms[p].Status? ==> AskerAt(n, c, p) == c
  }

  ghost predicate AllFrom(askers: seq<nat>, k: nat, c: nat) {
    forall j :: k <= j < |askers| ==> askers[j] == c
  }

  /** Every answer has a place. */
  lemma {:induction false} AnswerPlace(ms: seq<Msg>, k: nat) returns (p: nat)
    requires k < Answers(ms)
    ensures p < |ms| && ms[p].Status? && Answers(ms[..p]) == k
  {
    var n := |ms| - 1;
    if k < Answers(ms[..n]) {
      p := AnswerPlace(ms[..n], k);
      assert ms[..n][..p] == ms[..p];
    } else {
      p := n;
    }
  }

  lemma {:induction false} AnswersBefore(ms: seq<Msg>, p: nat)
    requires p < |ms| && ms[p].Status?
    ensures Answers(ms[..p]) < Answers(ms)
  {
    var n := |ms| - 1;
    if p < n {
      AnswersBefore(ms[..n], p);
      assert ms[..n][..p] == ms[..p];
    }
  }

  lemma OwnByAskers(n: Net, c: nat)
    requires Reachable(n) && c in n.conns
    ensures OnlyOwn(n, c) <==> AllFrom(n.askers, n.conns[c].answeredBefore, c)
  {
    hide Reachable, Answers, OnlyOwn, AskersOf;
    ReachableInv(n);
    CountsBalance(n, c);
    var d := n.conns[c];
    AnswersSplit(d.got, d.inq);
    OwnMeans(n, c);
    AskersCover(d.got + d.inq, n.askers, d.answeredBefore, c);
  }

  ghost predicate AskersOf(ms: seq<Msg>, askers: seq<nat>, base: nat, c: nat)
    requires base + Answers(ms) == |askers|
  {
    forall p :: 0 <= p < |ms| && ms[p].Status? ==> AskerOf(ms, askers, base, p) == c
  }

  lemma OwnMeans(n: Net, c: nat)
    requires c in n.conns && n.conns[c].answeredBefore + Answers(n.conns[c].got + n.conns[c].inq) == |n.askers|
    ensures OnlyOwn(n, c) <==> AskersOf(n.conns[c].got + n.conns[c].inq, n.askers, n.conns[c].answeredBefore, c)
  {
    hide Answers, AskerOf;
    var d := n.conns[c];
    var ms := d.got + d.inq;
    forall p | 0 <= p < |ms| ensures AskerAt(n, c, p) == AskerOf(ms, n.askers, d.answeredBefore, p) {}
  }

  lemma AskersCover(ms: seq<Msg>, askers: seq<nat>, base: nat, c: nat)
    requires base + Answers(ms) == |askers|
    ensures AskersOf(ms, askers, base, c) <==> AllFrom(askers, base, c)
  {
    if AskersOf(ms, askers, base, c) {
      forall j | base <= j < |askers| ensures askers[j] == c {
        var p := AnswerPlace(ms, j - base);
        assert AskerOf(ms, askers, base, p) == c;
      }
    }
    if AllFrom(askers, base, c) {
      forall p | 0 <= p < |ms| && ms[p].Status? ensures AskerOf(ms, askers, base, p) == c {
        AnswersBefore(ms, p);
      }
    }
  }

  /** Since its connection was accepted at place a of the run, and it still stands. */
  ghost predicate Standing(es: seq<Event>, a: nat, c: nat) {
    && a < |es| && es[a].Accept? && es[a].c == c
    && forall k :: a < k < |es| ==> !(es[k].Disconnect? && es[k].c == c)
  }

  /** No other connection's request was handled after place a of the run. */
  ghost predicate NoOthers(es: seq<Event>, a: nat, c: nat) {
    forall k :: a < k < |es| && es[k].Handle? ==> es[k].c == c
  }

  lemma {:induction false} AskersSince(config: Config, list: seq<Session>, es: seq<Event>, a: nat, c: nat)
    requires Runnable(Boot(config, list), es) && Standing(es, a, c)
    ensures
      var n := Final(Boot(config, list), es);
      && c in n.conns && n.conns[c].answeredBefore <= |n.askers|
      && (AllFrom(n.askers, n.conns[c].answeredBefore, c) <==> NoOthers(es, a, c))
  {
    hide Inv, Answers, Step, Enabled, AllFrom;
    var l := |es| - 1;
    var pre := es[..l];
    RunKeeps(config, list, pre);
    var n := Final(Boot(config, list), pre);
    InvAskers(n);
    if a == l {
      AskersFrom(n, es[l], c);
    } else {
      assert Standing(pre, a, c);
      AskersSince(config, list, pre, a, c);
      AskersStep(n, es[l], c, n.conns[c].answeredBefore);
      assert NoOthers(es, a, c) <==> NoOthers(pre, a, c) && (es[l].Handle? ==> es[l].c == c) by {
        assert forall k :: 0 <= k < l ==> es[k] == pre[k];
      }
    }
  }

  lemma InvAskers(n: Net)
    requires Inv(n)
    ensures |n.handled| == |n.askers|
  {
  }

  lemma AskersFrom(n: Net, e: Event, c: nat)
    requires Enabled(n, e) && e.Accept? && e.c == c && |n.handled| == |n.askers|
    ensures
      var m := Step(n, e);
      && c in m.conns && m.conns[c].answeredBefore <= |m.askers| && AllFrom(m.askers, m.conns[c].answeredBefore, c)
  {
  }

  lemma AskersStep(n: Net, e: Event, c: nat, k: nat)
    requires Enabled(n, e) && c in n.conns && !(e.Disconnect? && e.c == c) && k <= |n.askers|
    ensures
      var m := Step(n, e);
      && c in m.conns && m.conns[c].answeredBefore == n.conns[c].answeredBefore && |n.askers| <= |m.askers|
      && (AllFrom(m.askers, k, c) <==> AllFrom(n.askers, k, c) && (e.Handle? ==> e.c == c))
  {
    hide Answers, Burst, Do, React;
    var m := Step(n, e);
    assert m.askers == if e.Handle? then n.askers + [e.c] else n.askers;
    if AllFrom(m.askers, k, c) {
      forall j | k <= j < |n.askers| ensures n.askers[j] == c { assert m.askers[j] == c; }
      if e.Handle? { assert m.askers[|n.askers|] == e.c; }
    }
  }

  /** A connection received or is owed only answers to its own requests if and only if no other
      connection's request was handled since it was accepted. */
  lemma OwnAnswersExactly(config: Config, list: seq<Session>, es: seq<Event>, a: nat, c: nat)
    requires Runnable(Boot(config, list), es) && Standing(es, a, c)
    ensures c in Final(Boot(config, list), es).conns
    ensures OnlyOwn(Final(Boot(config, list), es), c) <==> NoOthers(es, a, c)
  {
    AskersSince(config, list, es, a, c);
    RunKeeps(config, list, es);
    OwnByAskers(Final(Boot(config, list), es), c);
  }

  /** The answer to another seat's request ends a greeter's waiting while its own request is
      still in the queue. */
  lemma AnswersAreShared(n: Net, c: nat, d: nat, granted: bool)
    requires Reachable(n) && c in n.conns && d in n.conns && c != d
    requires n.conns[c].up != [] && n.conns[d].up != [] && n.conns[d].greeter.waiting && n.conns[d].inq == []
    ensures
      var m := Step(n, Handle(c, granted));
      && Enabled(m, Deliver(d))
      && var after := Step(m, Deliver(d)).conns[d];
         !after.greeter.waiting && after.up == n.conns[d].up && after.done == n.conns[d].done
  {
    ReachableGood(n, d);
    hide Reachable, Channel, Owed, Leaves, Told, Listed, Choices, From, React;
    ReactKeeps(n.conns[d].greeter, Status(granted));
  }

  // ---------- runs that get there ----------

  lemma Extend(n: Net, es: seq<Event>, e: Event)
    requires Runnable(n, es) && Enabled(Final(n, es), e)
    ensures Runnable(n, es + [e]) && Final(n, es + [e]) == Step(Final(n, es), e)
  {
    var fs := es + [e];
    assert fs[..|fs| - 1] == es && fs[|fs| - 1] == e;
  }

  /** Nothing of the net but connection c differs. */
  ghost predicate OnlyConn(n: Net, m: Net, c: nat) {
    c in n.conns && c in m.conns && m == n.(conns := n.conns[c := m.conns[c]])
  }

  lemma OnlyConnTwice(n: Net, m: Net, k: Net, c: nat)
    requires OnlyConn(n, m, c) && OnlyConn(m, k, c)
    ensures OnlyConn(n, k, c)
  {
    assert n.conns[c := m.conns[c]][c := k.conns[c]] == n.conns[c := k.conns[c]];
  }

  /** Everything queued to a connection can be delivered. */
  lemma {:induction false} Drain(b: Net, es: seq<Event>, c: nat) returns (fs: seq<Event>)
    requires Runnable(b, es) && c in Final(b, es).conns
    ensures Runnable(b, fs) && OnlyConn(Final(b, es), Final(b, fs), c)
    ensures
      var d := Final(b, fs).conns[c];
      d.inq == [] && d.start == Final(b, es).conns[c].start && d.up == Final(b, es).conns[c].up
    decreases |Final(b, es).conns[c].inq|
  {
    hide React, Final;
    var n := Final(b, es);
    if n.conns[c].inq == [] {
      fs := es;
    } else {
      Extend(b, es, Deliver(c));
      var m := Step(n, Deliver(c));
      assert OnlyConn(n, m, c);
      fs := Drain(b, es + [Deliver(c)], c);
      OnlyConnTwice(n, m, Final(b, fs), c);
    }
  }

  /** A greeter that has the list can ask for any session that has a name. */
  lemma Ask(b: Net, es: seq<Event>, c: nat, i: nat) returns (fs: seq<Event>)
    requires Runnable(b, es) && c in Final(b, es).conns
    requires
      var g := Final(b, es).conns[c].greeter;
      i < |g.xsessions| && g.xsessions[i].name != ""
    ensures Runnable(b, fs) && OnlyConn(Final(b, es), Final(b, fs), c)
    ensures
      var d := Final(b, fs).conns[c];
      d.up != [] && d.greeter.waiting && d.inq == Final(b, es).conns[c].inq
  {
    hide Final, Acted;
    var n := Final(b, es);
    var e, f := Act(c, Click(i)), Act(c, Submit("user", "password"));
    AskConn(n.conns[c], i);
    Extend(b, es, e);
    var m := Step(n, e);
    assert OnlyConn(n, m, c);
    Extend(b, es + [e], f);
    fs := es + [e] + [f];
    assert OnlyConn(m, Step(m, f), c);
    OnlyConnTwice(n, m, Step(m, f), c);
  }

  lemma AskConn(c: Conn, i: nat)
    requires i < |c.greeter.xsessions| && c.greeter.xsessions[i].name != ""
    ensures
      var d := Acted(Acted(c, Click(i)), Submit("user", "password"));
      d.up != [] && d.greeter.waiting && d.inq == c.inq
  {
    assert Submitted(c.greeter.(session := Some(c.greeter.xsessions[i])), "user", "password").1.Some?;
  }

  /** Two greeters ask, and one of them has been told everything so far. */
  ghost predicate BothAsk(n: Net, c: nat, d: nat) {
    && c != d && c in n.conns && d in n.conns
    && n.conns[c].up != [] && n.conns[d].up != [] && n.conns[d].greeter.waiting && n.conns[d].inq == []
  }

  lemma TwoJoin(config: Config, list: seq<Session>) returns (es: seq<Event>)
    ensures Runnable(Boot(config, list), es)
    ensures
      var n := Final(Boot(config, list), es);
      && 0 in n.conns && 1 in n.conns && n.log == Burst(config, list, [])
      && n.conns[0].start == n.conns[1].start == 0
  {
    hide Burst, Final;
    var b := Boot(config, list);
    assert Runnable(b, []) && Final(b, []) == b by { Nothing(b); }
    Extend(b, [], Accept(0, 0));
    var n := Step(b, Accept(0, 0));
    Extend(b, [] + [Accept(0, 0)], Accept(1, 1));
    var m := Step(n, Accept(1, 1));
    Extend(b, [] + [Accept(0, 0)] + [Accept(1, 1)], Setup([]));
    es := [] + [Accept(0, 0)] + [Accept(1, 1)] + [Setup([])];
    assert [] + Burst(config, list, []) == Burst(config, list, []);
  }

  lemma Nothing(b: Net)
    ensures Runnable(b, []) && Final(b, []) == b
  {
  }

  /** Once everything is delivered since the start, a greeter has the daemon's list. */
  lemma HasList(n: Net, c: nat)
    requires Inv(n) && c in n.conns && n.config.xsessions && n.log == Burst(n.config, n.list, [])
    requires n.conns[c].start == 0 && n.conns[c].inq == []
    ensures n.conns[c].greeter.xsessions == n.list
  {
    var d := n.conns[c];
    BurstSessions(n.config, n.list);
    assert Channel(d, n.log) && Listed(d, n.config, n.list) by { assert Good(d, n); }
    hide Inv, Burst, Answers, Fits, HasSessions;
    assert d.got == n.log by { assert n.log[0..] == n.log && d.got + [] == d.got; }
  }

  lemma BurstSessions(config: Config, list: seq<Session>)
    requires config.xsessions
    ensures HasSessions(Burst(config, list, []))
  {
    assert Burst(config, list, [])[2].Xsessions?;
  }

  /** A run to two greeters that both ask, for any list with a session that has a name. */
  lemma RunToBothAsk(config: Config, list: seq<Session>, i: nat) returns (es: seq<Event>)
    requires config.xsessions && i < |list| && list[i].name != ""
    ensures Runnable(Boot(config, list), es) && BothAsk(Final(Boot(config, list), es), 0, 1)
  {
    hide Inv, Burst, Runnable, Final;
    var b := Boot(config, list);
    es := TwoJoin(config, list);
    es := Drain(b, es, 0);
    es := Drain(b, es, 1);
    RunKeeps(config, list, es);
    HasList(Final(b, es), 0);
    HasList(Final(b, es), 1);
    es := Ask(b, es, 0, i);
    es := Ask(b, es, 1, i);
  }

  /** Two greeters can come to ask at once exactly when sessions are enabled and one of them
      has a name; the answer to the first is then taken by the second. */
  lemma SharingPossible(config: Config, list: seq<Session>)
    ensures
      (exists n, c: nat, d: nat :: Reachable(n) && n.config == config && n.list == list && BothAsk(n, c, d))
      <==> config.xsessions && exists i :: 0 <= i < |list| && list[i].name != ""
  {
    hide Inv, Final, Runnable;
    if config.xsessions && exists i :: 0 <= i < |list| && list[i].name != "" {
      var i :| 0 <= i < |list| && list[i].name != "";
      var es := RunToBothAsk(config, list, i);
      RunKeeps(config, list, es);
      assert Reachable(Final(Boot(config, list), es));
    }
    if n, c: nat, d: nat :| Reachable(n) && n.config == config && n.list == list && BothAsk(n, c, d) {
      ReachableGood(n, c);
      assert Choice(list, n.conns[c].up[0].session);
      var i :| 0 <= i < |list| && list[i].name == n.conns[c].up[0].session;
      assert list[i].name != "";
    }
  }

  // ---------- who leaves ----------

  /** In every reachable state a greeter has left its main loop if and only if a grant, to any
      seat, is among the messages it was delivered. */
  lemma LeavesOnGrant(n: Net, c: nat)
    requires Reachable(n) && c in n.conns
    ensures n.conns[c].greeter.exited <==> exists k :: 0 <= k < |n.conns[c].got| && n.conns[c].got[k] == Status(true)
  {
    ReachableGood(n, c);
  }

  lemma ReachableStep(n: Net, e: Event)
    requires Reachable(n) && Enabled(n, e)
    ensures Reachable(Step(n, e)) && Step(n, e).config == n.config && Step(n, e).list == n.list
  {
    var es :| Runnable(Boot(n.config, n.list), es) && n == Final(Boot(n.config, n.list), es);
    ReachableInv(n);
    StepKeeps(n, e);
    Extend(Boot(n.config, n.list), es, e);
  }

  /** A connection that stands keeps its start, and the log only grows. */
  lemma {:induction false} StandsOn(n: Net, es: seq<Event>, d: nat)
    requires Reachable(n) && Runnable(n, es) && d in n.conns
    requires forall k :: 0 <= k < |es| ==> es[k] != Disconnect(d)
    ensures
      var m := Final(n, es);
      Reachable(m) && d in m.conns && m.conns[d].start == n.conns[d].start && n.log <= m.log
  {
    if es != [] {
      var l := |es| - 1;
      StandsOn(n, es[..l], d);
      hide Reachable;
      ReachableStep(Final(n, es[..l]), es[l]);
      StandsOnce(Final(n, es[..l]), es[l], d);
    }
  }

  lemma StandsOnce(n: Net, e: Event, d: nat)
    requires Enabled(n, e) && d in n.conns && e != Disconnect(d)
    ensures
      var m := Step(n, e);
      d in m.conns && m.conns[d].start == n.conns[d].start && n.log <= m.log
  {
    hide Burst, Do, React;
  }

  /** One granted request ends every greeter that is connected then: in any run from there,
      each of them that stays connected has left once everything queued to it is delivered. */
  lemma GrantEndsAll(n: Net, c: nat, es: seq<Event>, d: nat)
    requires Reachable(n) && Enabled(n, Handle(c, true)) && d in n.conns
    requires Runnable(Step(n, Handle(c, true)), es) && forall k :: 0 <= k < |es| ==> es[k] != Disconnect(d)
    ensures
      var m := Final(Step(n, Handle(c, true)), es);
      d in m.conns && (m.conns[d].inq == [] ==> m.conns[d].greeter.exited)
  {
    hide Inv, Final, Reachable;
    var s := Step(n, Handle(c, true));
    ReachableStep(n, Handle(c, true));
    StandsOnce(n, Handle(c, true), d);
    StandsOn(s, es, d);
    var m := Final(s, es);
    SegmentOfLog(n, d);
    SegmentOfLog(m, d);
    LeavesOnGrant(m, d);
    if m.conns[d].inq == [] {
      var k := |n.log| - m.conns[d].start;
      assert s.log[|n.log|] == Status(true) == m.log[|n.log|];
      assert m.conns[d].got == m.log[m.conns[d].start..] by { assert m.conns[d].got + [] == m.conns[d].got; }
      assert m.conns[d].got[k] == Status(true);
    }
  }

  // ---------- what a setup brings ----------

  /** What a greeter knows: the users of the last list it was delivered, and, once it was told,
      the daemon's settings. */
  lemma KnowsWhatItWasTold(n: Net, c: nat)
    requires Reachable(n) && c in n.conns
    ensures
      var d := n.conns[c];
      && d.greeter.users == LastUsers(d.got)
      && (HasConf(d.got) ==> d.greeter.reqPasswd == n.config.reqPasswd && d.greeter.autoselect == n.config.autoselect)
      && (!HasConf(d.got) ==> !d.greeter.reqPasswd && d.greeter.autoselect)
  {
    ReachableGood(n, c);
  }

  /** The messages a setup puts in the log: the list of users, and, when configured, the list of
      sessions before it and the settings. */
  lemma SetupSends(n: Net, users: seq<User>)
    requires n.joining > 0
    ensures
      var m := Step(n, Setup(users));
      && n.log <= m.log && m.joining == n.joining - 1
      && (exists p :: |n.log| <= p < |m.log| && m.log[p] == Users(users))
      && (forall p :: |n.log| <= p < |m.log| && m.log[p].Users? ==> m.log[p].users == users)
      && (n.config.xsessions ==> exists p :: |n.log| <= p < |m.log| && m.log[p] == Xsessions(n.list))
      && (n.config.custom ==>
            exists p :: |n.log| <= p < |m.log| && m.log[p] == Conf(n.config.reqPasswd, n.config.autoselect))
  {
    var b := Burst(n.config, n.list, users);
    var m := Step(n, Setup(users));
    var x := if n.config.xsessions then 1 else 0;
    var y := if n.config.custom then 1 else 0;
    assert m.log == n.log + b;
    assert b[2 + x + y] == Users(users) && |b| == 4 + x + y;
    assert m.log[|n.log| + 2 + x + y] == b[2 + x + y];
    if n.config.xsessions { assert m.log[|n.log| + 2] == b[2]; }
    if n.config.custom { assert m.log[|n.log| + 2 + x] == b[2 + x]; }
    forall p | |n.log| <= p < |m.log| ensures m.log[p] == b[p - |n.log|] {}
  }

  /** In every run from a setup on, every connection that stood then and still stands has, once
      what was queued by that setup is delivered, been delivered its list of users after all that
      came before it, the list of sessions when they are enabled, and the settings when there are
      any, which the greeter then has. */
  lemma SetupReaches(n: Net, users: seq<User>, es: seq<Event>, d: nat)
    requires Reachable(n) && Enabled(n, Setup(users)) && d in n.conns
    requires Runnable(Step(n, Setup(users)), es) && forall k :: 0 <= k < |es| ==> es[k] != Disconnect(d)
    ensures
      var s := Step(n, Setup(users));
      var m := Final(s, es);
      && d in m.conns && n.conns[d].start <= |n.log|
      && var c, from := m.conns[d], |n.log| - n.conns[d].start;
         |c.got| >= |s.log| - n.conns[d].start ==>
           && (exists p :: from <= p < |c.got| && c.got[p] == Users(users))
           && (n.config.xsessions ==> exists p :: from <= p < |c.got| && c.got[p] == Xsessions(n.list))
           && (n.config.custom ==>
                 && HasConf(c.got)
                 && c.greeter.reqPasswd == n.config.reqPasswd && c.greeter.autoselect == n.config.autoselect)
  {
    hide Inv, Final, Reachable, Burst, Runnable, Step;
    var s := Step(n, Setup(users));
    SetupStands(n, users, es, d);
    SetupSends(n, users);
    var m := Final(s, es);
    var c, start := m.conns[d], n.conns[d].start;
    if |c.got| >= |s.log| - start {
      Arrives(c, m.log, start, |n.log|, s.log, Users(users));
      if n.config.xsessions { Arrives(c, m.log, start, |n.log|, s.log, Xsessions(n.list)); }
      if n.config.custom {
        Arrives(c, m.log, start, |n.log|, s.log, Conf(n.config.reqPasswd, n.config.autoselect));
        KnowsWhatItWasTold(m, d);
      }
    }
  }

  /** After a setup, as long as it stands, a connection's messages are the log's. */
  lemma SetupStands(n: Net, users: seq<User>, es: seq<Event>, d: nat)
    requires Reachable(n) && Enabled(n, Setup(users)) && d in n.conns
    requires Runnable(Step(n, Setup(users)), es) && forall k :: 0 <= k < |es| ==> es[k] != Disconnect(d)
    ensures
      var s := Step(n, Setup(users));
      var m := Final(s, es);
      && Reachable(m) && d in m.conns && n.conns[d].start <= |n.log| && n.log <= s.log <= m.log
      && m.conns[d].start == n.conns[d].start && m.config == n.config
      && m.conns[d].got + m.conns[d].inq == m.log[n.conns[d].start..]
  {
    hide Inv, Final, Reachable, Burst;
    var s := Step(n, Setup(users));
    ReachableStep(n, Setup(users));
    StandsOnce(n, Setup(users), d);
    StandsOn(s, es, d);
    SegmentOfLog(n, d);
    SegmentOfLog(Final(s, es), d);
    RunConfig(s, es);
  }

  /** A message of the log at or after `from` has been delivered when enough has. */
  lemma Arrives(c: Conn, log: seq<Msg>, start: nat, from: nat, sofar: seq<Msg>, x: Msg)
    requires start <= from <= |sofar| && sofar <= log && c.got + c.inq == log[start..]
    requires |c.got| >= |sofar| - start && exists p :: from <= p < |sofar| && sofar[p] == x
    ensures exists p :: from - start <= p < |c.got| && c.got[p] == x
  {
    var p :| from <= p < |sofar| && sofar[p] == x;
    assert (c.got + c.inq)[p - start] == log[p];
    assert c.got[p - start] == x;
  }

  function Accepts(es: seq<Event>): nat {
    if es == [] then 0 else Accepts(es[..|es| - 1]) + if es[|es| - 1].Accept? then 1 else 0
  }

  function Setups(es: seq<Event>): nat {
    if es == [] then 0 else Setups(es[..|es| - 1]) + if es[|es| - 1].Setup? then 1 else 0
  }

  /** In every run each connection brings one setup: those still to come and those done are as
      many as the connections accepted, so one is to come exactly when fewer were done. */
  lemma {:induction false} OneSetupEach(config: Config, list: seq<Session>, es: seq<Event>, users: seq<User>)
    requires Runnable(Boot(config, list), es)
    ensures
      var n := Final(Boot(config, list), es);
      && n.joining + Setups(es) == Accepts(es)
      && (Enabled(n, Setup(users)) <==> Setups(es) < Accepts(es))
  {
    hide Burst, React, Do;
    if es != [] { OneSetupEach(config, list, es[..|es| - 1], users); }
  }

  lemma {:induction false} RunConfig(n: Net, es: seq<Event>)
    requires Runnable(n, es)
    ensures Final(n, es).config == n.config && Final(n, es).list == n.list
  {
    hide Enabled;
    if es != [] {
      RunConfig(n, es[..|es| - 1]);
      StepConfig(Final(n, es[..|es| - 1]), es[|es| - 1]);
    }
  }

  lemma StepConfig(n: Net, e: Event)
    requires Enabled(n, e)
    ensures Step(n, e).config == n.config && Step(n, e).list == n.list
  {
  }

  /** The users that count are those of the last list in the order of delivery. */
  lemma {:induction false} LastUsersIs(ms: seq<Msg>, p: nat)
    requires p < |ms| && ms[p].Users? && forall q :: p < q < |ms| ==> !ms[q].Users?
    ensures LastUsers(ms) == ms[p].users
  {
    if p < |ms| - 1 { LastUsersIs(ms[..|ms| - 1], p); }
  }

  /** A connection that ends is gone, and with it whatever was queued either way; the others
      stay as they are. */
  lemma DisconnectForgets(n: Net, c: nat)
    requires c in n.conns
    ensures
      var m := Step(n, Disconnect(c));
      && c !in m.conns && m.log == n.log && m.handled == n.handled
      && forall d :: d in n.conns && d != c ==> d in m.conns && m.conns[d] == n.conns[d]
  {
  }

  /** At place a of the run the connection was accepted for this seat, and it stood from then on. */
  ghost predicate AcceptedFor(es: seq<Event>, a: nat, c: nat, seat: nat) {
    a < |es| && es[a] == Accept(c, seat) && forall k :: a < k < |es| ==> es[k] != Disconnect(c)
  }

  /** In every run the greeter at the end of a connection is that of the seat that it was
      accepted for. */
  lemma {:induction false} GreeterOfItsSeat(config: Config, list: seq<Session>, es: seq<Event>, c: nat) returns (a: nat)
    requires Runnable(Boot(config, list), es) && c in Final(Boot(config, list), es).conns
    ensures AcceptedFor(es, a, c, Final(Boot(config, list), es).conns[c].greeter.id)
  {
    var b, l := Boot(config, list), |es| - 1;
    LastEnabled(b, es);
    var n := Final(b, es[..l]);
    SameSeat(n, es[l], c);
    hide Runnable, Enabled, Step;
    if es[l].Accept? && es[l].c == c {
      a := l;
    } else {
      a := GreeterOfItsSeat(config, list, es[..l], c);
      assert es[a] == es[..l][a];
      forall k | a < k < |es| ensures es[k] != Disconnect(c) {
        if k < l { assert es[k] == es[..l][k]; }
      }
    }
  }

  lemma SameSeat(n: Net, e: Event, c: nat)
    requires Enabled(n, e) && c in Step(n, e).conns
    ensures
      var m := Step(n, e);
      if e.Accept? && e.c == c then m.conns[c].greeter.id == e.seat
      else c in n.conns && m.conns[c].greeter.id == n.conns[c].greeter.id && e != Disconnect(c)
  {
    if e.Act? { ActKeepsSeat(n.conns[e.c].greeter, e.action); }
    if e.Deliver? { ReactKeepsSeat(n.conns[e.c].greeter, n.conns[e.c].inq[0]); }
    hide Burst, React, Do;
  }

  lemma ActKeepsSeat(g: Greeter, a: Action)
    ensures Do(g, a).0.id == g.id
  {
  }

  lemma ReactKeepsSeat(g: Greeter, m: Msg)
    ensures React(g, m).id == g.id
  {
  }

  // ---------- where requests come from ----------

  /** At place j of the run connection c's user submitted this login and password, while the
      greeter was that of this seat and had this session chosen. */
  ghost predicate SubmittedAt(b: Net, es: seq<Event>, j: nat, c: nat, a: Auth) {
    && j < |es| && Runnable(b, es[..j])
    && es[j] == Act(c, Submit(a.login, a.password))
    && c in Final(b, es[..j]).conns
    && var g := Final(b, es[..j]).conns[c].greeter;
       g.id == a.id && g.session.Some? && g.session.value.name == a.session
  }

  ghost predicate Typed(b: Net, es: seq<Event>, c: nat, a: Auth) {
    exists j: nat :: SubmittedAt(b, es, j, c, a)
  }

  lemma TypedLonger(b: Net, es: seq<Event>, c: nat, a: Auth)
    requires es != [] && Typed(b, es[..|es| - 1], c, a)
    ensures Typed(b, es, c, a)
  {
    var pre := es[..|es| - 1];
    var j: nat :| SubmittedAt(b, pre, j, c, a);
    assert pre[..j] == es[..j];
    assert SubmittedAt(b, es, j, c, a);
  }

  ghost predicate AllTyped(b: Net, es: seq<Event>, n: Net) {
    && |n.handled| == |n.askers|
    && (forall k :: 0 <= k < |n.handled| ==> Typed(b, es, n.askers[k], n.handled[k]))
    && (forall c, k :: c in n.conns && 0 <= k < |n.conns[c].up| ==> Typed(b, es, c, n.conns[c].up[k]))
  }

  /** Every request on its way, and every request handled, was typed at its greeter: an earlier
      submission on its connection has its login and its password, on its seat, with its session
      chosen. */
  lemma {:induction false} RequestsAreTyped(b: Net, es: seq<Event>)
    requires Runnable(b, es) && b.conns == map[] && b.handled == [] && b.askers == []
    ensures AllTyped(b, es, Final(b, es))
  {
    if es != [] {
      hide Typed, AllTyped;
      var l := |es| - 1;
      RequestsAreTyped(b, es[..l]);
      TypedStep(b, es, Final(b, es[..l]));
    } else {
      hide Typed;
    }
  }

  lemma LastEnabled(b: Net, es: seq<Event>)
    requires es != [] && Runnable(b, es)
    ensures Runnable(b, es[..|es| - 1]) && Enabled(Final(b, es[..|es| - 1]), es[|es| - 1])
  {
  }

  lemma TypedStep(b: Net, es: seq<Event>, n: Net)
    requires es != [] && Runnable(b, es) && n == Final(b, es[..|es| - 1]) && AllTyped(b, es[..|es| - 1], n)
    ensures AllTyped(b, es, Step(n, es[|es| - 1]))
  {
    LastEnabled(b, es);
    hide Typed, Runnable, Final, React, Do;
    var l := |es| - 1;
    var e, m := es[l], Step(n, es[l]);
    forall k | 0 <= k < |m.handled| ensures Typed(b, es, m.askers[k], m.handled[k]) {
      if k < |n.handled| {
        TypedLonger(b, es, n.askers[k], n.handled[k]);
      } else {
        TypedLonger(b, es, e.c, n.conns[e.c].up[0]);
      }
    }
    forall c, k | c in m.conns && 0 <= k < |m.conns[c].up| ensures Typed(b, es, c, m.conns[c].up[k]) {
      UpStep(n, e, c, k);
      if e.Act? && e.c == c && k == |n.conns[c].up| {
        TypedNow(b, es, n);
      } else {
        TypedLonger(b, es, c, n.conns[c].up[if e.Handle? && e.c == c then k + 1 else k]);
      }
    }
  }

  /** What is in a queue of requests was there before, or has just been submitted. */
  lemma UpStep(n: Net, e: Event, c: nat, k: nat)
    requires Enabled(n, e) && c in Step(n, e).conns && k < |Step(n, e).conns[c].up|
    ensures
      var up := Step(n, e).conns[c].up;
      && c in n.conns
      && (if e.Handle? && e.c == c then k + 1 < |n.conns[c].up| && up[k] == n.conns[c].up[k + 1]
          else if e.Act? && e.c == c && k == |n.conns[c].up| then
            Do(n.conns[c].greeter, e.action).1 == Some(up[k]) && e.action.Submit?
          else k < |n.conns[c].up| && up[k] == n.conns[c].up[k])
  {
    if e.Act? { OnlySubmitSends(n.conns[e.c].greeter, e.action); }
    hide React, Do, Burst;
  }

  lemma OnlySubmitSends(g: Greeter, a: Action)
    ensures Do(g, a).1.Some? ==> a.Submit?
  {
  }

  lemma TypedNow(b: Net, es: seq<Event>, n: Net)
    requires es != [] && Runnable(b, es) && n == Final(b, es[..|es| - 1])
    requires
      var e := es[|es| - 1];
      e.Act? && e.action.Submit? && e.c in n.conns && Do(n.conns[e.c].greeter, e.action).1.Some?
    ensures Typed(b, es, es[|es| - 1].c, Do(n.conns[es[|es| - 1].c].greeter, es[|es| - 1].action).1.value)
  {
    var l := |es| - 1;
    var e := es[l];
    SubmitSends(n.conns[e.c].greeter, e.action.host, e.action.password);
    hide Do, Final;
    assert Runnable(b, es[..l]);
    hide Runnable;
    assert SubmittedAt(b, es, l, e.c, Do(n.conns[e.c].greeter, e.action).1.value);
  }
}
