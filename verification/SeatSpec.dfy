/** What the life of the seats must look like from outside: the log of process actions,
    monitors that read the log alone, and the abstract seat machine whose every run the
    monitors accept. Process numbers are never reused here. */
module SeatSpec {
  import opened Wrappers

  datatype Action =
    | ForkX(seat: nat, pid: nat)        // an X server process is forked for a seat
    | ForkSession(seat: nat, pid: nat)  // a login forks a session and its pid is recorded
    | Gone(pid: nat)                    // a process has ended and been reaped, by anyone
    | Kill(seat: nat, pid: nat)         // the daemon sends SIGTERM to the seat's X server
    | Spawn(seat: nat, exe: nat)        // a greeter is started
    | GreeterGone(exe: nat)             // a greeter has exited

  type Log = seq<Action>

  /** Every process forked and not gone yet. */
  ghost function Live(log: Log): set<nat> {
    if log == [] then {}
    else
      var before := Live(log[..|log| - 1]);
      match log[|log| - 1]
      case ForkX(_, p) => before + {p}
      case ForkSession(_, p) => before + {p}
      case Gone(p) => before - {p}
      case _ => before
  }

  /** The X servers of a seat that are still there. */
  ghost function LiveX(log: Log, s: nat): set<nat> {
    if log == [] then {}
    else
      var before := LiveX(log[..|log| - 1], s);
      match log[|log| - 1]
      case ForkX(t, p) => if t == s then before + {p} else before
      case Gone(p) => before - {p}
      case _ => before
  }

  /** The X server forked last for a seat. */
  ghost function XOf(log: Log, s: nat): Option<nat> {
    if log == [] then None
    else
      match log[|log| - 1]
      case ForkX(t, p) => if t == s then Some(p) else XOf(log[..|log| - 1], s)
      case _ => XOf(log[..|log| - 1], s)
  }

  /** The session recorded for a seat since its X server was forked. */
  ghost function SessionOf(log: Log, s: nat): Option<nat> {
    if log == [] then None
    else
      match log[|log| - 1]
      case ForkX(t, _) => if t == s then None else SessionOf(log[..|log| - 1], s)
      case ForkSession(t, p) => if t == s then Some(p) else SessionOf(log[..|log| - 1], s)
      case _ => SessionOf(log[..|log| - 1], s)
  }

  /** The greeters of a seat that are still running. */
  ghost function LiveGreeters(log: Log, s: nat): set<nat> {
    if log == [] then {}
    else
      var before := LiveGreeters(log[..|log| - 1], s);
      match log[|log| - 1]
      case Spawn(t, e) => if t == s then before + {e} else before
      case GreeterGone(e) => before - {e}
      case _ => before
  }

  /** The X servers that the daemon has told to stop, for a seat. */
  ghost function Killed(log: Log, s: nat): set<nat> {
    if log == [] then {}
    else
      var before := Killed(log[..|log| - 1], s);
      match log[|log| - 1]
      case Kill(t, p) => if t == s then before + {p} else before
      case _ => before
  }

  /** When an action is allowed, judged from the log before it. */
  ghost predicate Allowed(log: Log, a: Action) {
    match a
    case ForkX(s, p) =>
      // the old server was told to stop, and has been reaped, before the new one is forked
      && LiveX(log, s) == {} && p !in Live(log)
      && (XOf(log, s).Some? ==> XOf(log, s).value in Killed(log, s))
    case Kill(s, p) =>
      // the recorded session has ended before its X server is killed
      XOf(log, s) == Some(p) && (SessionOf(log, s).Some? ==> SessionOf(log, s).value !in Live(log))
    case Spawn(s, _) =>
      // never a second greeter, never one beside a recorded session
      LiveGreeters(log, s) == {} && SessionOf(log, s) == None
    case ForkSession(s, p) =>
      LiveGreeters(log, s) != {} && p !in Live(log)
    case Gone(p) => p in Live(log)
    case GreeterGone(e) => exists s :: e in LiveGreeters(log, s)
  }

  ghost predicate Safe(log: Log) {
    log != [] ==> Safe(log[..|log| - 1]) && Allowed(log[..|log| - 1], log[|log| - 1])
  }

  lemma {:induction false} SafeEverywhere(log: Log, k: nat)
    requires Safe(log) && k < |log|
    ensures Allowed(log[..k], log[k])
  {
    if k < |log| - 1 {
      SafeEverywhere(log[..|log| - 1], k);
      assert log[..|log| - 1][..k] == log[..k];
    }
  }

  // ---------- the abstract machine ----------

  datatype Seat = Seat(x: nat, greeter: Option<nat>, session: Option<nat>)

  datatype State = State(seats: seq<Seat>, log: Log, next: nat)

  datatype Event =
    | XReady(order: seq<nat>)   // SIGUSR1: the start callbacks of the seats, in this order
    | Login(seat: nat)          // a granted AUTH whose session is forked
    | GreeterExit(seat: nat)    // the greeter of this seat exits
    | Vanish(pid: nat)          // a process ends on its own and is reaped elsewhere

  function Act(s: State, a: Action): State {
    s.(log := s.log + [a])
  }

  /** One start callback. */
  function Start(s: State, i: nat): State
    requires i < |s.seats|
  {
    if s.seats[i].greeter.Some? then s
    else
      State(s.seats[i := s.seats[i].(greeter := Some(s.next))], s.log + [Spawn(i, s.next)], s.next + 1)
  }

  function StartAll(s: State, order: seq<nat>): (t: State)
    requires forall i :: i in order ==> i < |s.seats|
    ensures |t.seats| == |s.seats|
    decreases order
  {
    if order == [] then s
    else
      assert order[0] in order;
      assert forall i :: i in order[1..] ==> i in order;
      StartAll(Start(s, order[0]), order[1..])
  }

  /** Waiting until a process is gone; nothing happens if it already is. */
  ghost function Await(s: State, pid: nat): State {
    if pid in Live(s.log) then Act(s, Gone(pid)) else s
  }

  /** Forking the X server of a seat: the seat starts over. */
  function Fork(s: State, i: nat): State
    requires i < |s.seats|
  {
    State(s.seats[i := Seat(s.next, None, None)], s.log + [ForkX(i, s.next)], s.next + 1)
  }

  /** A greeter exit: wait for the recorded session, kill and reap the X server, fork again. */
  ghost function Restart(s: State, i: nat): State
    requires i < |s.seats|
  {
    var t := if s.seats[i].session.Some? then Await(s, s.seats[i].session.value) else s;
    Fork(Await(Act(t, Kill(i, s.seats[i].x)), s.seats[i].x), i)
  }

  function GreeterEnds(s: State, i: nat): State
    requires i < |s.seats| && s.seats[i].greeter.Some?
  {
    Act(s.(seats := s.seats[i := s.seats[i].(greeter := None)]), GreeterGone(s.seats[i].greeter.value))
  }

  ghost predicate Enabled(s: State, e: Event) {
    match e
    case XReady(order) => forall i :: i in order ==> i < |s.seats|
    case Login(i) => i < |s.seats| && s.seats[i].greeter.Some?
    case GreeterExit(i) => i < |s.seats| && s.seats[i].greeter.Some?
    case Vanish(p) => p in Live(s.log)
  }

  ghost function Step(s: State, e: Event): (t: State)
    requires Enabled(s, e)
  {
    match e
    case XReady(order) => StartAll(s, order)
    case Login(i) =>
      State(s.seats[i := s.seats[i].(session := Some(s.next))], s.log + [ForkSession(i, s.next)], s.next + 1)
    case GreeterExit(i) => Restart(GreeterEnds(s, i), i)
    case Vanish(p) => Act(s, Gone(p))
  }

  /** Start-up forks one X server per seat, in seat order. */
  function Boot(n: nat): (s: State)
    ensures |s.seats| == n && s.next == n + 1
  {
    if n == 0 then State([], [], 1)
    else
      var s := Boot(n - 1);
      State(s.seats + [Seat(s.next, None, None)], s.log + [ForkX(n - 1, s.next)], s.next + 1)
  }

  /** Any sequence of events the environment can produce from a state. */
  ghost predicate Runnable(s: State, es: seq<Event>)
    decreases es
  {
    es != [] ==> Enabled(s, es[0]) && Runnable(Step(s, es[0]), es[1..])
  }

  ghost function Final(s: State, es: seq<Event>): State
    requires Runnable(s, es)
    decreases es
  {
    if es == [] then s else Final(Step(s, es[0]), es[1..])
  }

  // ---------- the invariant ----------

  /** One seat of the machine agrees with what the monitors read from the log. */
  ghost predicate SeatTracks(s: State, i: nat)
    requires i < |s.seats|
  {
    var q := s.seats[i];
    && XOf(s.log, i) == Some(q.x) && LiveX(s.log, i) <= {q.x}
    && LiveGreeters(s.log, i) == (if q.greeter.Some? then {q.greeter.value} else {})
    && SessionOf(s.log, i) == q.session
    && (q.greeter.Some? ==> q.greeter.value < s.next)
    && q.x < s.next && q.session != Some(q.x)
  }

  ghost predicate Tracks(s: State) {
    && Safe(s.log)
    && (forall i :: 0 <= i < |s.seats| ==> SeatTracks(s, i))
    && (forall i, j :: 0 <= i < j < |s.seats| && s.seats[i].greeter.Some? ==> s.seats[i].greeter != s.seats[j].greeter)
    && (forall p :: p in Live(s.log) ==> p < s.next)
  }

  /** At an event boundary a recorded session has its greeter beside it. */
  ghost predicate Settled(s: State) {
    forall i :: 0 <= i < |s.seats| && s.seats[i].session.Some? ==> s.seats[i].greeter.Some?
  }

  lemma Last(log: Log, a: Action)
    ensures (log + [a])[..|log + [a]| - 1] == log && (log + [a])[|log + [a]| - 1] == a
  {
  }

  /** What one more action does to every monitor. */
  lemma Monitors(log: Log, a: Action, s: nat)
    ensures XOf(log + [a], s) == if a.ForkX? && a.seat == s then Some(a.pid) else XOf(log, s)
    ensures LiveX(log + [a], s) ==
      (if a.ForkX? && a.seat == s then LiveX(log, s) + {a.pid}
       else if a.Gone? then LiveX(log, s) - {a.pid} else LiveX(log, s))
    ensures SessionOf(log + [a], s) ==
      (if a.ForkX? && a.seat == s then None
       else if a.ForkSession? && a.seat == s then Some(a.pid) else SessionOf(log, s))
    ensures LiveGreeters(log + [a], s) ==
      (if a.Spawn? && a.seat == s then LiveGreeters(log, s) + {a.exe}
       else if a.GreeterGone? then LiveGreeters(log, s) - {a.exe} else LiveGreeters(log, s))
    ensures Live(log + [a]) ==
      (if a.ForkX? || a.ForkSession? then Live(log) + {a.pid}
       else if a.Gone? then Live(log) - {a.pid} else Live(log))
    ensures Killed(log + [a], s) == (if a.Kill? && a.seat == s then Killed(log, s) + {a.pid} else Killed(log, s))
    ensures Safe(log + [a]) <==> Safe(log) && Allowed(log, a)
  {
    Last(log, a);
  }

  /** A server that was told to stop was told so somewhere. */
  lemma {:induction false} KilledAt(log: Log, s: nat, p: nat) returns (j: nat)
    requires p in Killed(log, s)
    ensures j < |log| && log[j] == Kill(s, p)
  {
    var n := |log| - 1;
    if p in Killed(log[..n], s) {
      j := KilledAt(log[..n], s, p);
    } else {
      j := n;
    }
  }

  lemma {:induction false} LiveXIsLive(log: Log, s: nat)
    ensures LiveX(log, s) <= Live(log)
  {
    if log != [] { LiveXIsLive(log[..|log| - 1], s); }
  }

  lemma StartKeeps(s: State, i: nat)
    requires Tracks(s) && Settled(s) && i < |s.seats|
    ensures Tracks(Start(s, i)) && Settled(Start(s, i))
  {
    var t := Start(s, i);
    if s.seats[i].greeter.None? {
      var a := Spawn(i, s.next);
      assert SeatTracks(s, i);
      forall k | 0 <= k < |s.seats| && s.seats[k].greeter.Some?
        ensures s.seats[k].greeter.value < s.next
      {
        assert SeatTracks(s, k);
      }
      Monitors(s.log, a, i);
      forall j | 0 <= j < |t.seats| ensures SeatTracks(t, j) {
        assert SeatTracks(s, j);
        Monitors(s.log, a, j);
      }
    }
  }

  lemma {:induction false} StartAllKeeps(s: State, order: seq<nat>)
    requires Tracks(s) && Settled(s) && forall i :: i in order ==> i < |s.seats|
    ensures Tracks(StartAll(s, order)) && Settled(StartAll(s, order))
    decreases order
  {
    if order != [] {
      assert order[0] in order;
      assert forall i :: i in order[1..] ==> i in order;
      StartKeeps(s, order[0]);
      StartAllKeeps(Start(s, order[0]), order[1..]);
    }
  }

  lemma LoginKeeps(s: State, i: nat)
    requires Tracks(s) && Settled(s) && i < |s.seats| && s.seats[i].greeter.Some?
    ensures Tracks(Step(s, Login(i))) && Settled(Step(s, Login(i)))
  {
    var t, a := Step(s, Login(i)), ForkSession(i, s.next);
    assert SeatTracks(s, i);
    Monitors(s.log, a, i);
    forall j | 0 <= j < |t.seats| ensures SeatTracks(t, j) {
      assert SeatTracks(s, j);
      Monitors(s.log, a, j);
    }
  }

  lemma GoneKeeps(s: State, p: nat)
    requires Tracks(s) && p in Live(s.log)
    ensures Tracks(Act(s, Gone(p)))
  {
    var t := Act(s, Gone(p));
    Monitors(s.log, Gone(p), 0);
    forall j | 0 <= j < |t.seats| ensures SeatTracks(t, j) {
      assert SeatTracks(s, j);
      Monitors(s.log, Gone(p), j);
    }
  }

  lemma GreeterEndsKeeps(s: State, i: nat)
    requires Tracks(s) && i < |s.seats| && s.seats[i].greeter.Some?
    ensures Tracks(GreeterEnds(s, i))
  {
    var t, a := GreeterEnds(s, i), GreeterGone(s.seats[i].greeter.value);
    assert SeatTracks(s, i);
    assert a.exe in LiveGreeters(s.log, i);
    Monitors(s.log, a, i);
    forall j | 0 <= j < |t.seats| ensures SeatTracks(t, j) {
      assert SeatTracks(s, j);
      Monitors(s.log, a, j);
    }
  }

  lemma AwaitKeeps(s: State, p: nat)
    requires Tracks(s)
    ensures Tracks(Await(s, p)) && p !in Live(Await(s, p).log)
    ensures Await(s, p).seats == s.seats
  {
    if p in Live(s.log) {
      GoneKeeps(s, p);
      Monitors(s.log, Gone(p), 0);
    }
  }

  lemma AwaitKills(s: State, p: nat, i: nat)
    ensures Killed(Await(s, p).log, i) == Killed(s.log, i)
  {
    Monitors(s.log, Gone(p), i);
  }

  lemma KillKeeps(s: State, i: nat)
    requires Tracks(s) && i < |s.seats|
    requires s.seats[i].session.Some? ==> s.seats[i].session.value !in Live(s.log)
    ensures Tracks(Act(s, Kill(i, s.seats[i].x)))
  {
    var a := Kill(i, s.seats[i].x);
    var t := Act(s, a);
    assert SeatTracks(s, i);
    Monitors(s.log, a, i);
    forall j | 0 <= j < |t.seats| ensures SeatTracks(t, j) {
      assert SeatTracks(s, j);
      Monitors(s.log, a, j);
    }
  }

  lemma ForkKeeps(s: State, i: nat)
    requires Tracks(s) && i < |s.seats|
    requires s.seats[i].greeter.None? && s.seats[i].x !in Live(s.log) && s.seats[i].x in Killed(s.log, i)
    ensures Tracks(Fork(s, i))
  {
    var t, a := Fork(s, i), ForkX(i, s.next);
    assert SeatTracks(s, i);
    LiveXIsLive(s.log, i);
    Monitors(s.log, a, i);
    forall j | 0 <= j < |t.seats| ensures SeatTracks(t, j) {
      assert SeatTracks(s, j);
      Monitors(s.log, a, j);
    }
  }

  lemma GreeterExitKeeps(s: State, i: nat)
    requires Tracks(s) && Settled(s) && i < |s.seats| && s.seats[i].greeter.Some?
    ensures Tracks(Step(s, GreeterExit(i))) && Settled(Step(s, GreeterExit(i)))
  {
    hide Tracks, Live, Await;
    var a := GreeterEnds(s, i);
    GreeterEndsKeeps(s, i);
    var b := if a.seats[i].session.Some? then Await(a, a.seats[i].session.value) else a;
    if a.seats[i].session.Some? { AwaitKeeps(a, a.seats[i].session.value); }
    KillKeeps(b, i);
    Monitors(b.log, Kill(i, b.seats[i].x), i);
    AwaitKeeps(Act(b, Kill(i, b.seats[i].x)), b.seats[i].x);
    AwaitKills(Act(b, Kill(i, b.seats[i].x)), b.seats[i].x, i);
    ForkKeeps(Await(Act(b, Kill(i, b.seats[i].x)), b.seats[i].x), i);
  }

  lemma StepKeeps(s: State, e: Event)
    requires Tracks(s) && Settled(s) && Enabled(s, e)
    ensures Tracks(Step(s, e)) && Settled(Step(s, e))
  {
    hide Tracks, Settled, Live, StartAll, Restart;
    match e
    case XReady(order) => StartAllKeeps(s, order);
    case Login(i) => LoginKeeps(s, i);
    case GreeterExit(i) => GreeterExitKeeps(s, i);
    case Vanish(p) =>
      GoneKeeps(s, p);
      SameSeats(s, Act(s, Gone(p)));
  }

  lemma SameSeats(s: State, t: State)
    requires Settled(s) && t.seats == s.seats
    ensures Settled(t)
  {
  }

  /** The log says nothing of seat j. */
  ghost predicate Silent(log: Log, j: nat) {
    && Killed(log, j) == {} && XOf(log, j) == None
    && LiveX(log, j) == {} && LiveGreeters(log, j) == {} && SessionOf(log, j) == None
  }

  lemma {:induction false} BootTracks(n: nat)
    ensures Tracks(Boot(n)) && Settled(Boot(n))
    ensures forall j: nat :: j >= n ==> Silent(Boot(n).log, j)
  {
    if n > 0 {
      BootTracks(n - 1);
      var s := Boot(n - 1);
      hide Boot;
      BootNext(s, Boot(n), n - 1);
    }
  }

  lemma BootNext(s: State, t: State, i: nat)
    requires Tracks(s) && Settled(s) && |s.seats| == i && forall j: nat :: j >= i ==> Silent(s.log, j)
    requires t == State(s.seats + [Seat(s.next, None, None)], s.log + [ForkX(i, s.next)], s.next + 1)
    ensures Tracks(t) && Settled(t) && forall j: nat :: j > i ==> Silent(t.log, j)
  {
    hide XOf, LiveX, LiveGreeters, SessionOf, Killed, Live, Safe;
    var a := ForkX(i, s.next);
    Monitors(s.log, a, i);
    assert Silent(s.log, i);
    forall j: nat | j > i ensures Silent(t.log, j) {
      assert Silent(s.log, j);
      Monitors(s.log, a, j);
    }
    forall j | 0 <= j <= i ensures SeatTracks(t, j) {
      Monitors(s.log, a, j);
      if j < i { assert SeatTracks(s, j); }
    }
  }

  lemma {:induction false} RunKeeps(s: State, es: seq<Event>)
    requires Tracks(s) && Settled(s) && Runnable(s, es)
    ensures Tracks(Final(s, es)) && Settled(Final(s, es)) && |Final(s, es).seats| == |s.seats|
    decreases es
  {
    if es != [] {
      StepKeeps(s, es[0]);
      RunKeeps(Step(s, es[0]), es[1..]);
    }
  }

  lemma {:induction false} RunAppend(s: State, es: seq<Event>, e: Event)
    requires Runnable(s, es) && Enabled(Final(s, es), e)
    ensures Runnable(s, es + [e]) && Final(s, es + [e]) == Step(Final(s, es), e)
    decreases es
  {
    if es == [] {
      assert es + [e] == [e] && [e][1..] == [];
    } else {
      assert (es + [e])[0] == es[0] && (es + [e])[1..] == es[1..] + [e];
      RunAppend(Step(s, es[0]), es[1..], e);
    }
  }

  // ---------- main results ----------

  /** Every action of every run is allowed: X servers are reaped before they are forked
      again, sessions end before their X server is killed, and a greeter is spawned only
      on a seat with no greeter and no recorded session. */
  lemma EveryActionAllowed(n: nat, es: seq<Event>, k: nat)
    requires Runnable(Boot(n), es) && k < |Final(Boot(n), es).log|
    ensures
      var log := Final(Boot(n), es).log;
      Allowed(log[..k], log[k])
  {
    BootTracks(n);
    RunKeeps(Boot(n), es);
    SafeEverywhere(Final(Boot(n), es).log, k);
  }

  /** At every moment of every run, within events too, no two processes are live X servers
      of the same seat and no two are live greeters of the same seat. */
  lemma NeverTwo(n: nat, es: seq<Event>, k: nat, i: nat, p: nat, q: nat)
    requires Runnable(Boot(n), es) && k <= |Final(Boot(n), es).log|
    ensures
      var log := Final(Boot(n), es).log[..k];
      && (p in LiveX(log, i) && q in LiveX(log, i) ==> p == q)
      && (p in LiveGreeters(log, i) && q in LiveGreeters(log, i) ==> p == q)
  {
    BootTracks(n);
    RunKeeps(Boot(n), es);
    SafeNeverTwo(Final(Boot(n), es).log, k, i, p, q);
  }

  lemma {:induction false} SafeNeverTwo(log: Log, k: nat, i: nat, p: nat, q: nat)
    requires Safe(log) && k <= |log|
    ensures p in LiveX(log[..k], i) && q in LiveX(log[..k], i) ==> p == q
    ensures p in LiveGreeters(log[..k], i) && q in LiveGreeters(log[..k], i) ==> p == q
    decreases k
  {
    if k > 0 {
      SafeNeverTwo(log, k - 1, i, p, q);
      SafeEverywhere(log, k - 1);
      assert log[..k] == log[..k - 1] + [log[k - 1]];
      Monitors(log[..k - 1], log[k - 1], i);
    }
  }

  /** Between events, a seat with a recorded session has a live greeter. */
  lemma RecordedSessionHasGreeter(n: nat, es: seq<Event>, i: nat)
    requires Runnable(Boot(n), es) && i < n
    requires SessionOf(Final(Boot(n), es).log, i).Some?
    ensures LiveGreeters(Final(Boot(n), es).log, i) != {}
  {
    BootTracks(n);
    RunKeeps(Boot(n), es);
    assert SeatTracks(Final(Boot(n), es), i);
  }

  /** In every run, a new X server of a seat comes only after the one before it was told to
      stop. */
  lemma KilledBeforeForked(n: nat, es: seq<Event>, k: nat) returns (j: nat)
    requires Runnable(Boot(n), es) && k < |Final(Boot(n), es).log| && Final(Boot(n), es).log[k].ForkX?
    requires XOf(Final(Boot(n), es).log[..k], Final(Boot(n), es).log[k].seat).Some?
    ensures
      var log := Final(Boot(n), es).log;
      j < k && log[j] == Kill(log[k].seat, XOf(log[..k], log[k].seat).value)
  {
    EveryActionAllowed(n, es, k);
    var log := Final(Boot(n), es).log;
    j := KilledAt(log[..k], log[k].seat, XOf(log[..k], log[k].seat).value);
  }

  // ---------- what each event does ----------

  /** The actions of one greeter exit, in order, written out. */
  function ExitActions(i: nat, greeter: nat, session: Option<nat>, sessionLive: bool,
                       x: nat, xLive: bool, p: nat): Log
  {
    [GreeterGone(greeter)]
    + (if session.Some? && sessionLive then [Gone(session.value)] else [])
    + [Kill(i, x)]
    + (if xLive then [Gone(x)] else [])
    + [ForkX(i, p)]
  }

  /** The exit of a greeter: the recorded session is waited for if it is still there, then the
      X server is told to stop, then it is reaped if it was still there, and then a new one is
      forked, which is the seat's one live X server. */
  lemma ExitDoes(s: State, i: nat)
    requires Tracks(s) && Enabled(s, GreeterExit(i))
    ensures
      var q, t := s.seats[i], Step(s, GreeterExit(i));
      && t.log == s.log + ExitActions(i, q.greeter.value, q.session, q.session.Some? && q.session.value in Live(s.log),
                                      q.x, q.x in Live(s.log), s.next)
      && t.log == s.log + [GreeterGone(q.greeter.value)]
                  + (if q.session.Some? && q.session.value in Live(s.log) then [Gone(q.session.value)] else [])
                  + [Kill(i, q.x)] + (if q.x in Live(s.log) then [Gone(q.x)] else []) + [ForkX(i, s.next)]
      && s.next !in Live(s.log) && LiveX(t.log, i) == {s.next} && XOf(t.log, i) == Some(s.next)
      && LiveGreeters(t.log, i) == {} && SessionOf(t.log, i) == None
  {
    hide XOf, LiveX, LiveGreeters, SessionOf, Killed, Live, Safe;
    var q := s.seats[i];
    assert SeatTracks(s, i);
    var a := GreeterEnds(s, i);
    Monitors(s.log, GreeterGone(q.greeter.value), i);
    var b := if q.session.Some? then Await(a, q.session.value) else a;
    if q.session.Some? { Monitors(a.log, Gone(q.session.value), i); }
    var c := Act(b, Kill(i, q.x));
    Monitors(b.log, Kill(i, q.x), i);
    var d := Await(c, q.x);
    Monitors(c.log, Gone(q.x), i);
    LiveXIsLive(d.log, i);
    Monitors(d.log, ForkX(i, s.next), i);
    GreeterExitActions(s, i);
  }

  lemma GreeterExitActions(s: State, i: nat)
    requires Tracks(s) && Enabled(s, GreeterExit(i))
    ensures
      var q, t := s.seats[i], Step(s, GreeterExit(i));
      t.log == s.log + ExitActions(i, q.greeter.value, q.session, q.session.Some? && q.session.value in Live(s.log),
                                   q.x, q.x in Live(s.log), s.next)
  {
    hide XOf, LiveX, LiveGreeters, SessionOf, Killed, Live, Safe;
    var q := s.seats[i];
    assert SeatTracks(s, i);
    Monitors(s.log, GreeterGone(q.greeter.value), i);
    var a := GreeterEnds(s, i);
    var b := if q.session.Some? then Await(a, q.session.value) else a;
    if q.session.Some? { Monitors(a.log, Gone(q.session.value), i); }
    Monitors(b.log, Kill(i, q.x), i);
  }

  /** A login that gets its session forks one new process, which is the seat's session from
      then on; nothing else of the seat changes. */
  lemma LoginForks(s: State, i: nat)
    requires Tracks(s) && Enabled(s, Login(i))
    ensures
      var t := Step(s, Login(i));
      && t.log == s.log + [ForkSession(i, s.next)] && s.next !in Live(s.log)
      && SessionOf(t.log, i) == Some(s.next) && t.seats == s.seats[i := s.seats[i].(session := Some(s.next))]
      && s.next in Live(t.log)
  {
    Monitors(s.log, ForkSession(i, s.next), i);
  }

  /** A process that vanishes is gone, and nothing else changes. */
  lemma VanishForgets(s: State, p: nat)
    requires Enabled(s, Vanish(p))
    ensures
      var t := Step(s, Vanish(p));
      t.log == s.log + [Gone(p)] && t.seats == s.seats && Live(t.log) == Live(s.log) - {p}
  {
  }

  /** X servers being ready: every seat that is tried has exactly one greeter afterwards, the one
      it had or a new one, and no other seat gets or loses one. */
  lemma {:induction false} ReadyServes(s: State, order: seq<nat>, i: nat)
    requires Tracks(s) && Settled(s) && Enabled(s, XReady(order)) && i < |s.seats|
    ensures
      var t := Step(s, XReady(order));
      && (LiveGreeters(s.log, i) != {} || i !in order ==> LiveGreeters(t.log, i) == LiveGreeters(s.log, i))
      && (LiveGreeters(s.log, i) == {} && i in order ==> |LiveGreeters(t.log, i)| == 1)
    decreases order
  {
    hide XOf, LiveX, LiveGreeters, SessionOf, Killed, Live, Safe;
    if order != [] {
      assert order[0] in order;
      assert forall j :: j in order[1..] ==> j in order;
      assert i in order <==> i == order[0] || i in order[1..];
      assert SeatTracks(s, order[0]);
      Monitors(s.log, Spawn(order[0], s.next), i);
      StartKeeps(s, order[0]);
      ReadyServes(Start(s, order[0]), order[1..], i);
    }
  }

  /** A live X server is told to stop before it is waited for. */
  lemma ToldBeforeReaped(s: State, i: nat) returns (j: nat, k: nat)
    requires Tracks(s) && Enabled(s, GreeterExit(i)) && s.seats[i].x in Live(s.log)
    ensures
      var log, x := Step(s, GreeterExit(i)).log, s.seats[i].x;
      && |s.log| <= j < k < |log| && log[j] == Kill(i, x) && log[k] == Gone(x)
      && forall m :: |s.log| <= m < j ==> log[m] != Gone(x)
  {
    hide Live, Step, Tracks;
    ExitDoes(s, i);
    var q := s.seats[i];
    var waited := q.session.Some? && q.session.value in Live(s.log);
    NotItsSession(s, i);
    j := |s.log| + if waited then 2 else 1;
    k := j + 1;
  }

  lemma NotItsSession(s: State, i: nat)
    requires Tracks(s) && i < |s.seats|
    ensures s.seats[i].session != Some(s.seats[i].x)
  {
    hide XOf, LiveX, LiveGreeters, SessionOf, Killed, Live, Safe;
    assert SeatTracks(s, i);
  }

  /** Start-up leaves every seat with one live X server, and no greeter and no session. */
  lemma {:induction false} BootServes(n: nat, i: nat)
    requires i < n
    ensures
      var s := Boot(n);
      && LiveX(s.log, i) == {s.seats[i].x} && XOf(s.log, i) == Some(s.seats[i].x)
      && LiveGreeters(s.log, i) == {} && SessionOf(s.log, i) == None
  {
    hide XOf, LiveX, LiveGreeters, SessionOf, Killed, Live, Safe;
    var s := Boot(n - 1);
    Monitors(s.log, ForkX(n - 1, s.next), i);
    if i < n - 1 {
      BootServes(n - 1, i);
    } else {
      BootTracks(n - 1);
      assert Silent(s.log, i);
    }
  }
}
