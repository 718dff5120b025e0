/** The PAM transactions of the seats: what each wrapper does to a seat's record and which
    library calls it makes, and monitors that say which calls may happen when. */
module PamSpec {
  import opened Wrappers
  import opened Text

  const PAM_SUCCESS: int := 0

  /** A seat's record; handle 0 is NULL. `msgs` is the text collected for the greeter. */
  datatype Pam = Pam(handle: nat, isOpened: bool, last: int, passwd: Option<string>, msgs: string)

  function Blank(handle: nat): Pam {
    Pam(handle, false, 0, None, "")
  }

  /** What a PAM module says in a conversation. */
  datatype Style = EchoOn | EchoOff | ErrorMsg | TextInfo | Unknown

  datatype Message = Message(style: Style, text: string)

  datatype Item = Tty | Ruser

  /** Library calls with their results, and what a login does beside them. */
  datatype Event =
    | Start(handle: nat, seat: nat, user: string)   // a failed start leaves NULL
    | End(handle: nat, status: int)
    | Authenticate(handle: nat, result: int)
    | AcctMgmt(handle: nat, result: int)
    | SetCred(handle: nat, delete: bool, result: int)
    | OpenSession(handle: nat, result: int)
    | CloseSession(handle: nat, result: int)
    | SetItem(handle: nat, kind: Item, value: string, result: int)
    | GetUser(handle: nat, result: int, item: Option<string>)
    | PutEnv(handle: nat, text: string, result: int)
    | Asked(seat: nat, password: string)
    | Converse(seat: nat, heard: seq<Message>, replies: seq<Option<string>>)
    | Check(user: string, session: Option<string>)
    | Run(seat: nat, user: string, command: string, wayland: bool)
    | Status(seat: nat, granted: bool, text: string)

  type Log = seq<Event>

  /** The records, one per seat and absent before its first start, and all calls so far. */
  datatype State = State(pams: seq<Option<Pam>>, log: Log)

  // ---------- monitors ----------

  /** The handles that were started and not ended. */
  ghost function Live(log: Log): set<nat> {
    if log == [] then {}
    else
      var before := Live(log[..|log| - 1]);
      match log[|log| - 1]
      case Start(h, _, _) => if h == 0 then before else before + {h}
      case End(h, _) => before - {h}
      case _ => before
  }

  /** The live handles that were started for seat i. */
  ghost function LiveOf(log: Log, i: nat): set<nat> {
    if log == [] then {}
    else
      var before := LiveOf(log[..|log| - 1], i);
      match log[|log| - 1]
      case Start(h, j, _) => if h == 0 || i != j then before else before + {h}
      case End(h, _) => before - {h}
      case _ => before
  }

  function Only(h: nat): set<nat> {
    if h == 0 then {} else {h}
  }

  ghost predicate Opened(log: Log, h: nat) {
    exists k :: 0 <= k < |log| && log[k].Start? && log[k].handle == h
  }

  /** A new handle is new, and any other call is on NULL or on a live handle. */
  ghost predicate Allowed(log: Log, e: Event) {
    match e
    case Start(h, _, _) => h == 0 || !Opened(log, h)
    case Check(_, _) => true
    case Run(_, _, _, _) => true
    case Status(_, _, _) => true
    case Asked(_, _) => true
    case Converse(_, _, _) => true
    case _ => e.handle == 0 || e.handle in Live(log)
  }

  ghost predicate Safe(log: Log) {
    log == [] || (Safe(log[..|log| - 1]) && Allowed(log[..|log| - 1], log[|log| - 1]))
  }

  function Opens(log: Log): nat {
    if log == [] then 0
    else Opens(log[..|log| - 1]) + if log[|log| - 1].Start? && log[|log| - 1].handle != 0 then 1 else 0
  }

  function Ends(log: Log): nat {
    if log == [] then 0
    else Ends(log[..|log| - 1]) + if log[|log| - 1].End? && log[|log| - 1].handle != 0 then 1 else 0
  }

  lemma {:induction false} LiveOpened(log: Log, h: nat)
    requires h in Live(log)
    ensures h != 0 && Opened(log, h)
  {
    var n := |log| - 1;
    if h in Live(log[..n]) {
      LiveOpened(log[..n], h);
      var k :| 0 <= k < n && log[k].Start? && log[k].handle == h;
    } else {
      assert log[n].Start? && log[n].handle == h;
    }
  }

  /** No handle is lost and none is ended twice, so what is live is the difference. */
  lemma {:induction false} LiveCount(log: Log)
    requires Safe(log)
    ensures Opens(log) - Ends(log) == |Live(log)|
  {
    if log != [] {
      var n := |log| - 1;
      LiveCount(log[..n]);
      if log[n].Start? && log[n].handle != 0 && log[n].handle in Live(log[..n]) {
        LiveOpened(log[..n], log[n].handle);
        assert false;
      }
      if log[n].End? && log[n].handle == 0 && 0 in Live(log[..n]) {
        LiveOpened(log[..n], 0);
        assert false;
      }
    }
  }

  // ---------- what the wrappers do ----------

  predicate HasRecord(s: State, i: nat) {
    i < |s.pams| && s.pams[i].Some?
  }

  function Handle(s: State, i: nat): nat {
    if HasRecord(s, i) then s.pams[i].value.handle else 0
  }

  /** A call on the seat's handle, whose result the record keeps. */
  function Called(s: State, i: nat, e: Event, result: int): State
    requires HasRecord(s, i)
  {
    State(s.pams[i := Some(s.pams[i].value.(last := result))], s.log + [e])
  }

  function Ended(s: State, i: nat): State
    requires HasRecord(s, i)
  {
    var p := s.pams[i].value;
    State(s.pams[i := Some(p.(handle := 0, msgs := ""))], s.log + [End(p.handle, p.last)])
  }

  /** What the library answers when a transaction is started: its handle, or 0 when it
      fails, and the results of setting the two items. */
  datatype Started = Started(handle: nat, tty: int, ruser: int)

  /** The seat's old transaction is ended first. */
  function Cleared(s: State, i: nat): State {
    if Handle(s, i) != 0 then Ended(s, i) else s
  }

  function Begun(s: State, i: nat, user: string, h: nat): State
    requires i < |s.pams|
  {
    State(s.pams[i := Some(Blank(h))], s.log + [Start(h, i, user)])
  }

  /** The items are set one after the other, until one cannot be. */
  function ItemsSet(s: State, i: nat, user: string, tty: string, a: Started): State
    requires HasRecord(s, i)
  {
    if a.handle == 0 then s
    else
      var t := Called(s, i, SetItem(a.handle, Tty, tty, a.tty), a.tty);
      if a.tty != PAM_SUCCESS then t else Called(t, i, SetItem(a.handle, Ruser, user, a.ruser), a.ruser)
  }

  function AfterStart(s: State, i: nat, user: string, tty: string, a: Started): State
    requires i < |s.pams|
  {
    if tty == "" then s else ItemsSet(Begun(Cleared(s, i), i, user, a.handle), i, user, tty, a)
  }

  // ---------- the conversation ----------

  const BREAK := "<br/>"

  /** A hidden prompt is answered with the password, anything else with nothing. */
  function Replies(passwd: Option<string>, ms: seq<Message>): (rs: seq<Option<string>>)
    ensures |rs| == |ms|
  {
    seq(|ms|, k requires 0 <= k < |ms| => if ms[k].style == EchoOff then passwd else None)
  }

  /** The text collected after more messages; one character is not thought worth a break. */
  function Collect(text: string, ms: seq<Message>): string {
    if ms == [] then text
    else
      var before := Collect(text, ms[..|ms| - 1]);
      var m := ms[|ms| - 1];
      if m.style == TextInfo then before + (if |before| > 1 then BREAK else "") + m.text else before
  }

  /** The informative texts, in order. */
  function Infos(ms: seq<Message>): seq<string> {
    if ms == [] then []
    else Infos(ms[..|ms| - 1]) + if ms[|ms| - 1].style == TextInfo then [ms[|ms| - 1].text] else []
  }

  /** Texts with a break between each two. */
  function Joined(ts: seq<string>): string {
    if ts == [] then "" else if |ts| == 1 then ts[0] else Joined(ts[..|ts| - 1]) + BREAK + ts[|ts| - 1]
  }

  lemma {:induction false} JoinedLong(ts: seq<string>)
    requires |ts| >= 2 || (|ts| == 1 && |ts[0]| > 1)
    ensures |Joined(ts)| > 1
  {
    if |ts| > 1 { assert |BREAK| == 5; }
  }

  /** How much collecting falls behind joining. */
  lemma {:induction false} CollectShort(ms: seq<Message>)
    ensures |Collect("", ms)| <= |Joined(Infos(ms))|
    ensures |Infos(ms)| >= 2 && |Infos(ms)[0]| <= 1 ==> |Collect("", ms)| < |Joined(Infos(ms))|
    ensures |Infos(ms)| == 0 ==> Collect("", ms) == ""
    ensures |Infos(ms)| == 1 ==> Collect("", ms) == Infos(ms)[0]
  {
    if ms != [] {
      var ns, m := ms[..|ms| - 1], ms[|ms| - 1];
      CollectShort(ns);
      if m.style == TextInfo {
        assert Infos(ms)[..|Infos(ms)| - 1] == Infos(ns) && |BREAK| == 5;
        var before := Collect("", ns);
        assert |Collect("", ms)| == |before| + (if |before| > 1 then 5 else 0) + |m.text|;
        if Infos(ns) == [] {
          assert before + "" + m.text == m.text;
        }
      } else {
        assert Infos(ms) == Infos(ns);
      }
    }
  }

  /** What a greeter is shown is every informative text with a break between each two, except
      that a first text of at most one character gets no break after it. */
  lemma {:induction false} CollectJoins(ms: seq<Message>)
    ensures Collect("", ms) == Joined(Infos(ms)) <==> |Infos(ms)| <= 1 || |Infos(ms)[0]| > 1
  {
    CollectShort(ms);
    if |Infos(ms)| >= 2 && |Infos(ms)[0]| > 1 {
      CollectLong(ms);
    }
  }

  lemma {:induction false} CollectLong(ms: seq<Message>)
    requires |Infos(ms)| >= 1 && |Infos(ms)[0]| > 1
    ensures Collect("", ms) == Joined(Infos(ms))
  {
    var ns, m := ms[..|ms| - 1], ms[|ms| - 1];
    if m.style != TextInfo {
      assert Infos(ms) == Infos(ns);
      CollectLong(ns);
    } else {
      assert Infos(ms)[..|Infos(ms)| - 1] == Infos(ns);
      CollectShort(ns);
      if |Infos(ns)| >= 1 {
        CollectLong(ns);
        JoinedLong(Infos(ns));
      } else {
        assert "" + "" + m.text == m.text;
      }
    }
  }

  /** The library's conversation with the seat's record. */
  function AfterConv(s: State, i: nat, ms: seq<Message>): State
    requires HasRecord(s, i)
  {
    var p := s.pams[i].value;
    State(s.pams[i := Some(p.(msgs := Collect(p.msgs, ms)))], s.log + [Converse(i, ms, Replies(p.passwd, ms))])
  }

  function AfterPasswdSet(s: State, i: nat, passwd: string): State
    requires HasRecord(s, i)
  {
    State(s.pams[i := Some(s.pams[i].value.(passwd := Some(passwd)))], s.log)
  }

  lemma {:induction false} CollectMore(text: string, a: seq<Message>, b: seq<Message>)
    ensures Collect(Collect(text, a), b) == Collect(text, a + b)
  {
    if b == [] {
      assert a + b == a;
    } else {
      var ms := a + b;
      CollectMore(text, a, b[..|b| - 1]);
      assert ms[..|ms| - 1] == a + b[..|b| - 1];
    }
  }

  /** How an authentication goes: what the library says and decides while it authenticates,
      and then while it checks the account. */
  datatype Verdict = Verdict(conv: seq<Message>, auth: int, checkConv: seq<Message>, acct: int)

  predicate Passes(v: Verdict) {
    v.auth == PAM_SUCCESS && v.acct == PAM_SUCCESS
  }

  /** Everything the library says: it does not check the account of a user it refused. */
  function Said(v: Verdict): seq<Message> {
    if v.auth == PAM_SUCCESS then v.conv + v.checkConv else v.conv
  }

  function AfterVerify(s: State, i: nat, v: Verdict): State
    requires HasRecord(s, i)
  {
    Called(AfterConv(s, i, v.conv), i, Authenticate(Handle(s, i), v.auth), v.auth)
  }

  function AfterAccount(s: State, i: nat, v: Verdict): State
    requires HasRecord(s, i)
  {
    Called(AfterConv(s, i, v.checkConv), i, AcctMgmt(Handle(s, i), v.acct), v.acct)
  }

  function AfterAuthenticate(s: State, i: nat, v: Verdict): State
    requires HasRecord(s, i)
  {
    var t := AfterVerify(s, i, v);
    if v.auth != PAM_SUCCESS then t else AfterAccount(t, i, v)
  }

  /** A failed open ends the transaction, and the record still says it is open. */
  function AfterSessionOpen(s: State, i: nat, cred: int, open: int, delete: int): State
    requires HasRecord(s, i)
  {
    var h := Handle(s, i);
    var t := Called(s, i, SetCred(h, false, cred), cred);
    if cred != PAM_SUCCESS then t
    else
      var u := Called(t, i, OpenSession(h, open), open);
      var v := if open != PAM_SUCCESS then Ended(State(u.pams, u.log + [SetCred(h, true, delete)]), i) else u;
      State(v.pams[i := Some(v.pams[i].value.(isOpened := true))], v.log)
  }

  function AfterSessionClose(s: State, i: nat, close: int, cred: int): State
    requires HasRecord(s, i)
  {
    var h := Handle(s, i);
    var t := Called(s, i, CloseSession(h, close), close);
    if !t.pams[i].value.isOpened && close == PAM_SUCCESS then t
    else
      var u := Called(t, i, SetCred(h, true, cred), cred);
      if cred != PAM_SUCCESS then Ended(u, i) else u
  }

  function AfterGetUser(s: State, i: nat, result: int, user: Option<string>): State
    requires HasRecord(s, i)
  {
    var t := Called(s, i, GetUser(Handle(s, i), result, user), result);
    if result != PAM_SUCCESS then Ended(t, i) else t
  }

  /** What is put into the environment: the text is built in a buffer of 1024 bytes. */
  function EnvText(env: string, value: string): string {
    Snprintf(1024, env + "=" + value)
  }

  function AfterPutEnv(s: State, i: nat, text: string, result: int): State
    requires HasRecord(s, i)
  {
    var t := Called(s, i, PutEnv(Handle(s, i), text, result), result);
    if result != PAM_SUCCESS then Ended(t, i) else t
  }

  /** A wrapper call with the library's answers. */
  datatype Op =
    | OpStart(i: nat, user: string, tty: string, started: Started)
    | OpEnd(i: nat)
    | OpPasswdSet(i: nat, passwd: string)
    | OpAuthenticate(i: nat, verdict: Verdict)
    | OpSessionOpen(i: nat, cred: int, open: int, delete: int)
    | OpSessionClose(i: nat, close: int, cred: int)
    | OpItemSet(i: nat, item: Item, text: string, result: int)
    | OpGetUser(i: nat, result: int, value: Option<string>)
    | OpEnvSet(i: nat, env: string, content: string, result: int)
    | OpConverse(i: nat, conv: seq<Message>)   // the library may speak up at any time

  /** Any call on a seat that was started once; a handle that the library returns is new. */
  ghost predicate Enabled(s: State, op: Op) {
    op.i < |s.pams| &&
    if op.OpStart? then op.started.handle == 0 || !Opened(s.log, op.started.handle) else HasRecord(s, op.i)
  }

  ghost function Do(s: State, op: Op): State
    requires Enabled(s, op)
  {
    match op
    case OpStart(i, user, tty, a) => AfterStart(s, i, user, tty, a)
    case OpEnd(i) => Ended(s, i)
    case OpPasswdSet(i, passwd) => AfterPasswdSet(s, i, passwd)
    case OpAuthenticate(i, v) => AfterAuthenticate(s, i, v)
    case OpSessionOpen(i, cred, open, delete) => AfterSessionOpen(s, i, cred, open, delete)
    case OpSessionClose(i, close, cred) => AfterSessionClose(s, i, close, cred)
    case OpItemSet(i, item, text, r) => Called(s, i, SetItem(Handle(s, i), item, text, r), r)
    case OpGetUser(i, r, user) => AfterGetUser(s, i, r, user)
    case OpEnvSet(i, env, value, r) => AfterPutEnv(s, i, EnvText(env, value), r)
    case OpConverse(i, conv) => AfterConv(s, i, conv)
  }

  // ---------- the invariant ----------

  /** Exactly the handles in the records are live, each in the record of the seat it was
      started for. */
  ghost predicate Inv(s: State) {
    && Safe(s.log)
    && (forall i :: 0 <= i < |s.pams| ==> LiveOf(s.log, i) == Only(Handle(s, i)))
    && (forall h :: h in Live(s.log) ==> exists i :: 0 <= i < |s.pams| && Handle(s, i) == h)
    && (forall i :: 0 <= i < |s.pams| && Handle(s, i) != 0 ==> Handle(s, i) in Live(s.log))
    && (forall i, j :: 0 <= i < j < |s.pams| && Handle(s, i) != 0 ==> Handle(s, i) != Handle(s, j))
  }

  lemma Last(log: Log, e: Event)
    ensures (log + [e])[..|log + [e]| - 1] == log && (log + [e])[|log + [e]| - 1] == e
  {
  }

  lemma CalledKeeps(s: State, i: nat, e: Event, result: int)
    requires Inv(s) && HasRecord(s, i)
    requires !e.Start? && !e.End? && Allowed(s.log, e)
    ensures Inv(Called(s, i, e, result)) && Handle(Called(s, i, e, result), i) == Handle(s, i)
    ensures HasRecord(Called(s, i, e, result), i) && |Called(s, i, e, result).pams| == |s.pams|
  {
    var t := Called(s, i, e, result);
    Last(s.log, e);
    assert forall j :: 0 <= j < |s.pams| ==> Handle(t, j) == Handle(s, j);
    forall h | h in Live(t.log) ensures exists j :: 0 <= j < |t.pams| && Handle(t, j) == h {
      var j :| 0 <= j < |s.pams| && Handle(s, j) == h;
      assert Handle(t, j) == h;
    }
  }

  lemma EndedKeeps(s: State, i: nat)
    requires Inv(s) && HasRecord(s, i)
    ensures Inv(Ended(s, i)) && Handle(Ended(s, i), i) == 0 && HasRecord(Ended(s, i), i)
    ensures |Ended(s, i).pams| == |s.pams|
  {
    var t := Ended(s, i);
    var h := Handle(s, i);
    Last(s.log, End(h, s.pams[i].value.last));
    assert Live(t.log) == Live(s.log) - {h};
    forall j | 0 <= j < |s.pams|
      ensures Handle(t, j) == (if j == i then 0 else Handle(s, j)) && LiveOf(t.log, j) == Only(Handle(t, j)) {
      assert LiveOf(t.log, j) == LiveOf(s.log, j) - {h};
    }
    hide LiveOf;
    forall g | g in Live(t.log) ensures exists j :: 0 <= j < |t.pams| && Handle(t, j) == g {
      var j :| 0 <= j < |s.pams| && Handle(s, j) == g;
      assert Handle(t, j) == g;
    }
  }

  lemma StartedKeeps(s: State, i: nat, h: nat, user: string)
    requires Inv(s) && i < |s.pams| && Handle(s, i) == 0 && (h == 0 || !Opened(s.log, h))
    ensures
      var t := State(s.pams[i := Some(Blank(h))], s.log + [Start(h, i, user)]);
      Inv(t) && Handle(t, i) == h
  {
    var t := State(s.pams[i := Some(Blank(h))], s.log + [Start(h, i, user)]);
    Last(s.log, Start(h, i, user));
    StartedLive(s.log, i, h, user);
    hide Live, LiveOf;
    forall j | 0 <= j < |s.pams|
      ensures Handle(t, j) == (if j == i then h else Handle(s, j)) && LiveOf(t.log, j) == Only(Handle(t, j))
    {
    }
    forall g | g in Live(t.log) ensures exists j :: 0 <= j < |t.pams| && Handle(t, j) == g {
      if g in Live(s.log) {
        LiveOpened(s.log, g);
        var j :| 0 <= j < |s.pams| && Handle(s, j) == g;
        assert Handle(t, j) == g;
      } else {
        assert Handle(t, i) == g;
      }
    }
    forall j | 0 <= j < |s.pams| && Handle(s, j) != 0 ensures Handle(s, j) != h {
      LiveOpened(s.log, Handle(s, j));
    }
  }

  lemma StartedLive(log: Log, i: nat, h: nat, user: string)
    ensures
      var more := log + [Start(h, i, user)];
      && Live(more) == Live(log) + Only(h)
      && forall j: nat :: LiveOf(more, j) == LiveOf(log, j) + if j == i then Only(h) else {}
  {
    Last(log, Start(h, i, user));
  }

  lemma AfterStartKeeps(s: State, i: nat, user: string, tty: string, a: Started)
    requires Inv(s) && i < |s.pams| && (a.handle == 0 || !Opened(s.log, a.handle))
    ensures Inv(AfterStart(s, i, user, tty, a)) && |AfterStart(s, i, user, tty, a).pams| == |s.pams|
    ensures tty != "" ==>
      HasRecord(AfterStart(s, i, user, tty, a), i) && Handle(AfterStart(s, i, user, tty, a), i) == a.handle
  {
    hide Inv, Opened, Safe, Live;
    if tty != "" {
      var t := Cleared(s, i);
      if Handle(s, i) != 0 {
        EndedKeeps(s, i);
        EndOpensNothing(s.log, End(Handle(s, i), s.pams[i].value.last), a.handle);
      }
      StartedKeeps(t, i, a.handle, user);
      ItemsKeep(Begun(t, i, user, a.handle), i, user, tty, a);
    }
  }

  lemma ItemsKeep(s: State, i: nat, user: string, tty: string, a: Started)
    requires Inv(s) && HasRecord(s, i) && Handle(s, i) == a.handle
    ensures
      var t := ItemsSet(s, i, user, tty, a);
      Inv(t) && HasRecord(t, i) && Handle(t, i) == a.handle && |t.pams| == |s.pams|
  {
    hide Inv, Opened, Safe, Live;
    if a.handle != 0 {
      OwnHandle(s, i);
      CalledKeeps(s, i, SetItem(a.handle, Tty, tty, a.tty), a.tty);
      var t := Called(s, i, SetItem(a.handle, Tty, tty, a.tty), a.tty);
      OwnHandle(t, i);
      CalledKeeps(t, i, SetItem(a.handle, Ruser, user, a.ruser), a.ruser);
    }
  }

  lemma EndOpensNothing(log: Log, e: Event, h: nat)
    requires !e.Start?
    ensures Opened(log + [e], h) <==> Opened(log, h)
  {
    if Opened(log + [e], h) {
      var k :| 0 <= k < |log| + 1 && (log + [e])[k].Start? && (log + [e])[k].handle == h;
      assert log[k] == (log + [e])[k];
    }
    if Opened(log, h) {
      var k :| 0 <= k < |log| && log[k].Start? && log[k].handle == h;
      assert (log + [e])[k] == log[k];
    }
  }

  lemma OwnHandle(s: State, i: nat)
    requires Inv(s) && i < |s.pams|
    ensures Handle(s, i) == 0 || Handle(s, i) in Live(s.log)
  {
  }

  /** Every wrapper call keeps the balance, whatever the library answers. */
  lemma DoKeeps(s: State, op: Op)
    requires Inv(s) && Enabled(s, op)
    ensures Inv(Do(s, op)) && |Do(s, op).pams| == |s.pams|
  {
    hide Inv, Opened, Safe, Live;
    var i := op.i;
    var h := Handle(s, i);
    OwnHandle(s, i);
    match op
    case OpStart(i, user, tty, a) => AfterStartKeeps(s, i, user, tty, a);
    case OpEnd(i) => EndedKeeps(s, i);
    case OpPasswdSet(i, passwd) => RecordKeeps(s, i, s.pams[i].value.(passwd := Some(passwd)));
    case OpAuthenticate(i, v) =>
      AuthenticatedKeeps(s, i, v);
      AccountCheckedKeeps(AfterVerify(s, i, v), i, v);
    case OpConverse(i, conv) => ConvKeeps(s, i, conv);
    case OpSessionOpen(i, cred, open, delete) => SessionOpenKeeps(s, i, cred, open, delete);
    case OpSessionClose(i, close, cred) =>
      CalledKeeps(s, i, CloseSession(h, close), close);
      var t := Called(s, i, CloseSession(h, close), close);
      OwnHandle(t, i);
      CalledKeeps(t, i, SetCred(h, true, cred), cred);
      EndedKeeps(Called(t, i, SetCred(h, true, cred), cred), i);
    case OpItemSet(i, kind, text, r) => CalledKeeps(s, i, SetItem(h, kind, text, r), r);
    case OpGetUser(i, r, user) => GetUserKeeps(s, i, r, user);
    case OpEnvSet(i, env, value, r) =>
      var e := PutEnv(h, EnvText(env, value), r);
      CalledKeeps(s, i, e, r);
      EndedKeeps(Called(s, i, e, r), i);
  }

  lemma AuthenticatedKeeps(s: State, i: nat, v: Verdict)
    requires Inv(s) && HasRecord(s, i)
    ensures
      var t := AfterVerify(s, i, v);
      Inv(t) && HasRecord(t, i) && Handle(t, i) == Handle(s, i) && |t.pams| == |s.pams|
  {
    hide Inv, Safe, Live, AfterConv;
    ConvKeeps(s, i, v.conv);
    OwnHandle(AfterConv(s, i, v.conv), i);
    CalledKeeps(AfterConv(s, i, v.conv), i, Authenticate(Handle(s, i), v.auth), v.auth);
  }

  lemma AccountCheckedKeeps(s: State, i: nat, v: Verdict)
    requires Inv(s) && HasRecord(s, i)
    ensures
      var t := AfterAccount(s, i, v);
      Inv(t) && HasRecord(t, i) && Handle(t, i) == Handle(s, i) && |t.pams| == |s.pams|
  {
    hide Inv, Safe, Live, AfterConv;
    ConvKeeps(s, i, v.checkConv);
    OwnHandle(AfterConv(s, i, v.checkConv), i);
    CalledKeeps(AfterConv(s, i, v.checkConv), i, AcctMgmt(Handle(s, i), v.acct), v.acct);
  }

  lemma GetUserKeeps(s: State, i: nat, r: int, user: Option<string>)
    requires Inv(s) && HasRecord(s, i)
    ensures Inv(AfterGetUser(s, i, r, user)) && |AfterGetUser(s, i, r, user).pams| == |s.pams|
    ensures HasRecord(AfterGetUser(s, i, r, user), i)
  {
    OwnHandle(s, i);
    hide Inv, Safe, Live;
    var e := GetUser(Handle(s, i), r, user);
    CalledKeeps(s, i, e, r);
    EndedKeeps(Called(s, i, e, r), i);
  }

  lemma SessionOpenKeeps(s: State, i: nat, cred: int, open: int, delete: int)
    requires Inv(s) && HasRecord(s, i)
    ensures Inv(AfterSessionOpen(s, i, cred, open, delete))
    ensures |AfterSessionOpen(s, i, cred, open, delete).pams| == |s.pams|
  {
    hide Inv, Opened, Safe, Live;
    var h := Handle(s, i);
    OwnHandle(s, i);
    var t := Called(s, i, SetCred(h, false, cred), cred);
    CalledKeeps(s, i, SetCred(h, false, cred), cred);
    if cred == PAM_SUCCESS {
      OwnHandle(t, i);
      var u := Called(t, i, OpenSession(h, open), open);
      CalledKeeps(t, i, OpenSession(h, open), open);
      OwnHandle(u, i);
      if open != PAM_SUCCESS {
        // deleting the credentials leaves the record's result as it was
        assert State(u.pams, u.log + [SetCred(h, true, delete)]) == Called(u, i, SetCred(h, true, delete), open);
        CalledKeeps(u, i, SetCred(h, true, delete), open);
        EndedKeeps(State(u.pams, u.log + [SetCred(h, true, delete)]), i);
        var v := Ended(State(u.pams, u.log + [SetCred(h, true, delete)]), i);
        RecordKeeps(v, i, v.pams[i].value.(isOpened := true));
      } else {
        RecordKeeps(u, i, u.pams[i].value.(isOpened := true));
      }
    }
  }

  lemma ConvKeeps(s: State, i: nat, conv: seq<Message>)
    requires Inv(s) && HasRecord(s, i)
    ensures
      var t := AfterConv(s, i, conv);
      Inv(t) && HasRecord(t, i) && Handle(t, i) == Handle(s, i) && |t.pams| == |s.pams|
  {
    var p := s.pams[i].value;
    var q := p.(msgs := Collect(p.msgs, conv));
    RecordKeeps(s, i, q);
    NotedKeeps(State(s.pams[i := Some(q)], s.log), Converse(i, conv, Replies(p.passwd, conv)));
  }

  /** Events that are not library calls change nothing that is tracked. */
  lemma NotedKeeps(s: State, e: Event)
    requires Inv(s) && (e.Check? || e.Run? || e.Status? || e.Asked? || e.Converse?)
    ensures Inv(State(s.pams, s.log + [e]))
  {
    Last(s.log, e);
    var t := State(s.pams, s.log + [e]);
    assert forall i :: Handle(t, i) == Handle(s, i);
    forall i | 0 <= i < |t.pams| ensures LiveOf(t.log, i) == Only(Handle(t, i)) {
      assert LiveOf(t.log, i) == LiveOf(s.log, i);
    }
    forall h | h in Live(t.log) ensures exists j :: 0 <= j < |t.pams| && Handle(t, j) == h {
      var j :| 0 <= j < |s.pams| && Handle(s, j) == h;
      assert Handle(t, j) == h;
    }
  }

  /** A record may change in anything but its handle. */
  lemma RecordKeeps(s: State, i: nat, p: Pam)
    requires Inv(s) && HasRecord(s, i) && p.handle == Handle(s, i)
    ensures Inv(State(s.pams[i := Some(p)], s.log))
  {
    var t := State(s.pams[i := Some(p)], s.log);
    assert forall j :: 0 <= j < |s.pams| ==> Handle(t, j) == Handle(s, j);
    forall h | h in Live(t.log) ensures exists j :: 0 <= j < |t.pams| && Handle(t, j) == h {
      var j :| 0 <= j < |s.pams| && Handle(s, j) == h;
      assert Handle(t, j) == h;
    }
  }

  // ---------- runs ----------

  function Boot(n: nat): State {
    State(seq(n, _ => None), [])
  }

  ghost predicate Runnable(s: State, ops: seq<Op>)
    decreases |ops|, 0
  {
    ops == [] || (Runnable(s, ops[..|ops| - 1]) && Enabled(Final(s, ops[..|ops| - 1]), ops[|ops| - 1]))
  }

  ghost function Final(s: State, ops: seq<Op>): State
    requires Runnable(s, ops)
    decreases |ops|, 1
  {
    if ops == [] then s else Do(Final(s, ops[..|ops| - 1]), ops[|ops| - 1])
  }

  lemma {:induction false} RunKeeps(n: nat, ops: seq<Op>)
    requires Runnable(Boot(n), ops)
    ensures Inv(Final(Boot(n), ops)) && |Final(Boot(n), ops).pams| == n
  {
    if ops != [] {
      RunKeeps(n, ops[..|ops| - 1]);
      DoKeeps(Final(Boot(n), ops[..|ops| - 1]), ops[|ops| - 1]);
    }
  }

  /** The seats whose record has a handle. */
  function Holding(s: State, k: nat): nat
    requires k <= |s.pams|
  {
    if k == 0 then 0 else Holding(s, k - 1) + if Handle(s, k - 1) != 0 then 1 else 0
  }

  ghost function Handles(s: State, k: nat): (hs: set<nat>)
    requires k <= |s.pams|
  {
    if k == 0 then {} else Handles(s, k - 1) + if Handle(s, k - 1) != 0 then {Handle(s, k - 1)} else {}
  }

  lemma {:induction false} HandlesAre(s: State, k: nat)
    requires k <= |s.pams|
    ensures forall h :: h in Handles(s, k) <==> h != 0 && exists i :: 0 <= i < k && Handle(s, i) == h
  {
    if k > 0 {
      HandlesAre(s, k - 1);
      forall h | h in Handles(s, k) ensures h != 0 && exists i :: 0 <= i < k && Handle(s, i) == h {
        if h in Handles(s, k - 1) {
          var i :| 0 <= i < k - 1 && Handle(s, i) == h;
        } else {
          assert Handle(s, k - 1) == h;
        }
      }
    }
  }

  lemma NewHandle(s: State, k: nat)
    requires Inv(s) && k < |s.pams|
    ensures Handle(s, k) == 0 || Handle(s, k) !in Handles(s, k)
  {
    HandlesAre(s, k);
    hide Handles;
  }

  lemma OneMore(hs: set<nat>, h: nat)
    requires h == 0 || h !in hs
    ensures h != 0 ==> |hs + {h}| == |hs| + 1
    ensures hs + {} == hs
  {
  }

  lemma {:induction false} HoldingCount(s: State, k: nat)
    requires Inv(s) && k <= |s.pams|
    ensures |Handles(s, k)| == Holding(s, k)
  {
    if k > 0 {
      hide Inv, Handle;
      HoldingCount(s, k - 1);
      NewHandle(s, k - 1);
      OneMore(Handles(s, k - 1), Handle(s, k - 1));
      if Handle(s, k - 1) == 0 { assert Handles(s, k) == Handles(s, k - 1) + {}; }
    }
  }

  /** Any sequence of wrapper calls, with any answers, keeps handles started minus handles
      ended equal to the number of seats that hold one; every call is on NULL or on a live
      handle, so none is ended twice. */
  lemma Balance(n: nat, ops: seq<Op>)
    requires Runnable(Boot(n), ops)
    ensures
      var s := Final(Boot(n), ops);
      && Safe(s.log) && |s.pams| == n
      && Opens(s.log) - Ends(s.log) == Holding(s, n)
  {
    var s := Final(Boot(n), ops);
    RunKeeps(n, ops);
    LiveCount(s.log);
    HoldingCount(s, n);
    HandlesAre(s, n);
    forall h | h in Live(s.log) ensures h in Handles(s, n) { LiveOpened(s.log, h); }
    assert Live(s.log) == Handles(s, n);
  }

  /** No seat ever has two live handles. */
  lemma OneHandlePerSeat(n: nat, ops: seq<Op>, i: nat)
    requires Runnable(Boot(n), ops) && i < n
    ensures
      var s := Final(Boot(n), ops);
      i < |s.pams| && LiveOf(s.log, i) == Only(Handle(s, i))
  {
    RunKeeps(n, ops);
  }

  /** A handle has been ended at most once at any point of a safe log. */
  lemma {:induction false} EndedOnce(log: Log, j: nat, k: nat)
    requires Safe(log) && j < k < |log|
    requires log[j].End? && log[k].End? && log[j].handle == log[k].handle != 0
    ensures false
  {
    var n := |log| - 1;
    if k < n {
      EndedOnce(log[..n], j, k);
    } else {
      StaysEnded(log[..n], j);
    }
  }

  lemma {:induction false} StaysEnded(log: Log, j: nat)
    requires Safe(log) && j < |log| && log[j].End? && log[j].handle != 0
    ensures log[j].handle !in Live(log) && Opened(log, log[j].handle)
  {
    var n := |log| - 1;
    if j < n {
      StaysEnded(log[..n], j);
      var k :| 0 <= k < n && log[k].Start? && log[k].handle == log[j].handle;
    } else {
      LiveOpened(log[..n], log[j].handle);
      var k :| 0 <= k < n && log[k].Start? && log[k].handle == log[j].handle;
    }
  }

  /** What the caller of a session open is told: 0 stands for success. */
  function OpenReply(cred: int): int {
    if cred == PAM_SUCCESS then 0 else 1
  }

  /** A reported success is a success exactly when the credentials were refused or the open
      itself succeeded. In the family that is left, every record with a handle is marked as
      opened and its transaction is over. */
  lemma FailedOpenReportsSuccess(s: State, i: nat, cred: int, open: int, delete: int)
    requires HasRecord(s, i) && Handle(s, i) != 0
    ensures
      var t := AfterSessionOpen(s, i, cred, open, delete);
      var reported := OpenReply(cred) == 0;
      && (reported ==> t.pams[i].value.isOpened)
      && ((reported ==> OpenSession(Handle(s, i), PAM_SUCCESS) in t.log[|s.log|..]) <==>
          cred != PAM_SUCCESS || open == PAM_SUCCESS)
      && (reported && Handle(t, i) == 0 <==> cred == PAM_SUCCESS && open != PAM_SUCCESS)
  {
    var h := Handle(s, i);
    var t := AfterSessionOpen(s, i, cred, open, delete);
    if cred == PAM_SUCCESS {
      assert t.log[|s.log|..] == [SetCred(h, false, cred), OpenSession(h, open)]
                                 + if open != PAM_SUCCESS then [SetCred(h, true, delete), End(h, open)] else [];
    }
  }

  /** For one: a session that could not be opened, reported as opened. */
  lemma FailedOpenWitness()
    ensures
      var s := State([Some(Blank(7))], [Start(7, 0, "ann")]);
      var t := AfterSessionOpen(s, 0, PAM_SUCCESS, 14, PAM_SUCCESS);
      OpenReply(PAM_SUCCESS) == 0 && OpenSession(7, PAM_SUCCESS) !in t.log && Handle(t, 0) == 0
  {
  }

  // ---------- the calls of each wrapper, written out ----------

  /** Starting: the old transaction, if any, is ended with its last result, a new one is begun for
      the user, and the terminal and the user are set, the second only when the first could be. */
  function StartEvents(before: Option<Event>, i: nat, user: string, tty: string, a: Started): Log {
    (if before.Some? then [before.value] else [])
    + [Start(a.handle, i, user)]
    + (if a.handle != 0 then [SetItem(a.handle, Tty, tty, a.tty)] else [])
    + (if a.handle != 0 && a.tty == PAM_SUCCESS then [SetItem(a.handle, Ruser, user, a.ruser)] else [])
  }

  function OldEnd(s: State, i: nat): Option<Event> {
    if Handle(s, i) != 0 then Some(End(Handle(s, i), s.pams[i].value.last)) else None
  }

  /** A start, call by call; without a terminal nothing happens. */
  lemma StartCalls(s: State, i: nat, user: string, tty: string, a: Started)
    requires i < |s.pams|
    ensures
      var t := AfterStart(s, i, user, tty, a);
      if tty == "" then t == s
      else
        && t.log == s.log + StartEvents(OldEnd(s, i), i, user, tty, a)
        && t.log == s.log
                    + (if Handle(s, i) != 0 then [End(Handle(s, i), s.pams[i].value.last)] else [])
                    + [Start(a.handle, i, user)]
                    + (if a.handle != 0 then [SetItem(a.handle, Tty, tty, a.tty)] else [])
                    + (if a.handle != 0 && a.tty == PAM_SUCCESS then [SetItem(a.handle, Ruser, user, a.ruser)] else [])
        && HasRecord(t, i) && Handle(t, i) == a.handle
        && t.pams[i].value.passwd == None && t.pams[i].value.msgs == "" && !t.pams[i].value.isOpened
        && t.pams[i].value.last ==
             if a.handle == 0 then PAM_SUCCESS else if a.tty != PAM_SUCCESS then a.tty else a.ruser
  {
  }

  /** Authenticating: the account is checked only after a success, and the password is what
      hidden prompts are answered with in both conversations. */
  function AuthEvents(i: nat, h: nat, passwd: Option<string>, v: Verdict): Log {
    [Converse(i, v.conv, Replies(passwd, v.conv)), Authenticate(h, v.auth)]
    + (if v.auth == PAM_SUCCESS
       then [Converse(i, v.checkConv, Replies(passwd, v.checkConv)), AcctMgmt(h, v.acct)] else [])
  }

  /** An authentication, call by call; the record keeps the result of the last one. */
  lemma AuthenticateCalls(s: State, i: nat, v: Verdict)
    requires HasRecord(s, i)
    ensures
      var h, t := Handle(s, i), AfterAuthenticate(s, i, v);
      && t.log == s.log + AuthEvents(i, h, s.pams[i].value.passwd, v)
      && t.log == s.log + [Converse(i, v.conv, Replies(s.pams[i].value.passwd, v.conv)), Authenticate(h, v.auth)]
                  + (if v.auth == PAM_SUCCESS
                     then [Converse(i, v.checkConv, Replies(s.pams[i].value.passwd, v.checkConv)), AcctMgmt(h, v.acct)]
                     else [])
      && HasRecord(t, i) && Handle(t, i) == h
      && t.pams[i].value.last == if v.auth == PAM_SUCCESS then v.acct else v.auth
  {
    hide Replies, Collect;
  }

  /** A hidden prompt is answered with the password, any other message with nothing. */
  lemma RepliesExact(passwd: Option<string>, ms: seq<Message>, k: nat)
    requires k < |ms|
    ensures Replies(passwd, ms)[k] == match ms[k].style case EchoOff => passwd case _ => None
  {
  }

  /** Ending: one call with the last result, and the text collected is given up. */
  lemma EndCalls(s: State, i: nat)
    requires HasRecord(s, i)
    ensures
      var t := Ended(s, i);
      && t.log == s.log + [End(Handle(s, i), s.pams[i].value.last)]
      && HasRecord(t, i) && Handle(t, i) == 0 && t.pams[i].value.msgs == ""
      && t.pams[i].value.passwd == s.pams[i].value.passwd && t.pams[i].value.isOpened == s.pams[i].value.isOpened
      && forall j :: 0 <= j < |s.pams| && j != i ==> t.pams[j] == s.pams[j]
  {
  }

  /** Opening: credentials are established before the session is opened, and deleted, with the
      transaction ended, when it could not be. */
  lemma SessionOpenCalls(s: State, i: nat, cred: int, open: int, delete: int)
    requires HasRecord(s, i)
    ensures
      var h, t := Handle(s, i), AfterSessionOpen(s, i, cred, open, delete);
      && t.log == s.log + [SetCred(h, false, cred)]
                  + (if cred == PAM_SUCCESS then [OpenSession(h, open)] else [])
                  + (if cred == PAM_SUCCESS && open != PAM_SUCCESS
                     then [SetCred(h, true, delete), End(h, open)] else [])
      && HasRecord(t, i) && Handle(t, i) == if cred == PAM_SUCCESS && open != PAM_SUCCESS then 0 else h
  {
  }

  /** Closing: credentials are deleted, never established, when the session was open or could
      not be closed; the transaction ends only when they cannot be. */
  lemma SessionCloseCalls(s: State, i: nat, close: int, cred: int)
    requires HasRecord(s, i)
    ensures
      var h, t := Handle(s, i), AfterSessionClose(s, i, close, cred);
      var deletes := s.pams[i].value.isOpened || close != PAM_SUCCESS;
      && t.log == s.log + [CloseSession(h, close)]
                  + (if deletes then [SetCred(h, true, cred)] else [])
                  + (if deletes && cred != PAM_SUCCESS then [End(h, cred)] else [])
      && HasRecord(t, i) && Handle(t, i) == if deletes && cred != PAM_SUCCESS then 0 else h
  {
  }

  /** Looking up the user, and setting a variable: a failure ends the transaction. */
  lemma LookupCalls(s: State, i: nat, r: int, user: Option<string>, env: string, value: string)
    requires HasRecord(s, i)
    ensures
      var h := Handle(s, i);
      var ended := if r != PAM_SUCCESS then [End(h, r)] else [];
      && AfterGetUser(s, i, r, user).log == s.log + [GetUser(h, r, user)] + ended
      && AfterPutEnv(s, i, EnvText(env, value), r).log == s.log + [PutEnv(h, EnvText(env, value), r)] + ended
      && Handle(AfterGetUser(s, i, r, user), i) == (if r != PAM_SUCCESS then 0 else h)
      && Handle(AfterPutEnv(s, i, EnvText(env, value), r), i) == if r != PAM_SUCCESS then 0 else h
  {
    hide EnvText;
  }

  /** Each wrapper makes its own call on the seat's handle, with what it was given. */
  lemma DoCalls(s: State, op: Op)
    requires Enabled(s, op)
    ensures
      var t, h := Do(s, op), Handle(s, op.i);
      && s.log <= t.log
      && match op
         case OpStart(i, user, tty, a) => if tty == "" then t == s else Start(a.handle, i, user) in t.log[|s.log|..]
         case OpEnd(i) => t.log == s.log + [End(h, s.pams[i].value.last)]
         case OpPasswdSet(i, passwd) => t.log == s.log && t.pams[i].value.passwd == Some(passwd)
         case OpAuthenticate(i, v) => t.log[|s.log|..][1] == Authenticate(h, v.auth)
         case OpSessionOpen(i, cred, open, delete) => t.log[|s.log|] == SetCred(h, false, cred)
         case OpSessionClose(i, close, cred) => t.log[|s.log|] == CloseSession(h, close)
         case OpItemSet(i, item, text, r) => t.log == s.log + [SetItem(h, item, text, r)]
         case OpGetUser(i, r, user) => t.log[|s.log|] == GetUser(h, r, user)
         case OpEnvSet(i, env, value, r) => t.log[|s.log|] == PutEnv(h, EnvText(env, value), r)
         case OpConverse(i, ms) =>
           && t.pams[i].value.msgs == Collect(s.pams[i].value.msgs, ms)
           && t.log == s.log + [Converse(i, ms, Replies(s.pams[i].value.passwd, ms))]
  {
    hide EnvText, Collect, Replies;
    if op.OpStart? && op.tty != "" {
      var before := OldEnd(s, op.i);
      StartCalls(s, op.i, op.user, op.tty, op.started);
      var es := StartEvents(before, op.i, op.user, op.tty, op.started);
      assert Do(s, op).log[|s.log|..] == es;
      assert es[if before.Some? then 1 else 0] == Start(op.started.handle, op.i, op.user);
    }
  }

  /** A run makes its calls one after the other, and what is logged stays logged. */
  lemma {:induction false} CallByCall(b: State, ops: seq<Op>, k: nat)
    requires Runnable(b, ops) && k < |ops|
    ensures Runnable(b, ops[..k]) && Enabled(Final(b, ops[..k]), ops[k])
    ensures Do(Final(b, ops[..k]), ops[k]).log <= Final(b, ops).log
  {
    var l := |ops| - 1;
    if k < l {
      CallByCall(b, ops[..l], k);
      assert ops[..l][..k] == ops[..k] && ops[..l][k] == ops[k];
      DoCalls(Final(b, ops[..l]), ops[l]);
      hide Do, Enabled;
    }
  }

  /** The text of a variable is its name, a sign and its value, or as much of that as fits: all
      of it exactly when it has at most 1023 characters. */
  lemma EnvTextWhole(env: string, value: string)
    ensures EnvText(env, value) == env + "=" + value <==> |env| + 1 + |value| <= 1023
    ensures EnvText(env, value) <= env + "=" + value
    ensures |env| + 1 + |value| > 1023 ==> |EnvText(env, value)| == 1023
  {
  }
}
