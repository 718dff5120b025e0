/** One authentication request after another, as the calls each makes: what must have
    happened before a session is started, and what a denial leaves behind. */
module LoginSpec {
  import opened Wrappers
  import opened PamSpec
  import Catalogue
  import Text

  // ---------- monitors ----------

  /** How far a seat has come in the request being handled. */
  datatype Phase =
    | Idle
    | Fresh(h: nat)
    | Authenticated(h: nat)
    | Approved(h: nat)
    | Known(h: nat, user: string)

  /** Each phase asks for its call to succeed on the handle of the phase before; ending that
      handle, or answering the request, throws all of it away. */
  function Advance(p: Phase, i: nat, e: Event): Phase {
    match e
    case Start(h, j, _) => if j != i then p else if h == 0 then Idle else Fresh(h)
    case Authenticate(h, r) => if p == Fresh(h) && r == PAM_SUCCESS then Authenticated(h) else p
    case AcctMgmt(h, r) => if p == Authenticated(h) && r == PAM_SUCCESS then Approved(h) else p
    case GetUser(h, r, u) => if p == Approved(h) && r == PAM_SUCCESS && u.Some? then Known(h, u.value) else p
    case End(h, _) => if !p.Idle? && p.h == h then Idle else p
    case Status(_, _, _) => Idle
    case _ => p
  }

  function Progress(log: Log, i: nat): Phase {
    if log == [] then Idle else Advance(Progress(log[..|log| - 1], i), i, log[|log| - 1])
  }

  /** Whose request is being handled, and with what password. */
  function LastAsked(log: Log): Option<(nat, string)> {
    if log == [] then None
    else if log[|log| - 1].Asked? then Some((log[|log| - 1].seat, log[|log| - 1].password))
    else LastAsked(log[..|log| - 1])
  }

  /** The text collected for seat i since the last request came in. */
  function Heard(log: Log, i: nat): string {
    if log == [] then ""
    else
      match log[|log| - 1]
      case Asked(_, _) => ""
      case Converse(j, heard, _) => if i == j then Collect(Heard(log[..|log| - 1], i), heard)
        else Heard(log[..|log| - 1], i)
      case _ => Heard(log[..|log| - 1], i)
  }

  /** Hidden prompts are answered with the password, and nothing else is answered. */
  ghost predicate RepliesTo(heard: seq<Message>, replies: seq<Option<string>>, password: string) {
    && |replies| == |heard|
    && forall k :: 0 <= k < |heard| ==> replies[k] == if heard[k].style == EchoOff then Some(password) else None
  }

  /** A session may start only for the user that the seat's approved handle names; a denial
      may be answered only when the seat has no live handle, and with the text of this request;
      and in a conversation exactly the hidden prompts are answered, with the password that this
      request came with. */
  ghost predicate Fine(log: Log, e: Event) {
    match e
    case Run(i, user, _, _) =>
      && Progress(log, i).Known? && Progress(log, i).user == user
      && LiveOf(log, i) == {Progress(log, i).h}
    case Status(i, granted, text) => granted || (LiveOf(log, i) == {} && text == Heard(log, i))
    case Converse(i, heard, replies) =>
      LastAsked(log).Some? && LastAsked(log).value.0 == i && RepliesTo(heard, replies, LastAsked(log).value.1)
    case _ => true
  }

  ghost predicate Sound(log: Log) {
    log == [] || (Sound(log[..|log| - 1]) && Fine(log[..|log| - 1], log[|log| - 1]))
  }

  lemma {:induction false} SoundEverywhere(log: Log, k: nat)
    requires Sound(log) && k < |log|
    ensures Fine(log[..k], log[k])
  {
    if k < |log| - 1 {
      SoundEverywhere(log[..|log| - 1], k);
      assert log[..|log| - 1][..k] == log[..k];
    }
  }

  /** What it takes to be known, in calls: a start for the seat, then an authenticate, an
      account check and a user look-up that succeed on its handle, with no end of the handle
      and no answered request since the start. */
  ghost predicate Witnessed(log: Log, i: nat, h: nat, user: string, a: nat, b: nat, c: nat, d: nat) {
    && a < b < c < d < |log| && h != 0
    && log[a].Start? && log[a].handle == h && log[a].seat == i
    && log[b] == Authenticate(h, PAM_SUCCESS) && log[c] == AcctMgmt(h, PAM_SUCCESS)
    && log[d] == GetUser(h, PAM_SUCCESS, Some(user))
    && forall k :: a < k < |log| ==> !log[k].Status? && !(log[k].End? && log[k].handle == h)
  }

  lemma {:induction false} KnownWitnessed(log: Log, i: nat) returns (a: nat, b: nat, c: nat, d: nat)
    requires Progress(log, i).Known?
    ensures Witnessed(log, i, Progress(log, i).h, Progress(log, i).user, a, b, c, d)
  {
    var n := |log| - 1;
    if Progress(log[..n], i).Known? {
      a, b, c, d := KnownWitnessed(log[..n], i);
    } else {
      a, b, c := ApprovedWitnessed(log[..n], i);
      d := n;
    }
  }

  lemma {:induction false} ApprovedWitnessed(log: Log, i: nat) returns (a: nat, b: nat, c: nat)
    requires Progress(log, i).Approved?
    ensures
      var h := Progress(log, i).h;
      && a < b < c < |log| && h != 0 && log[a].Start? && log[a].handle == h && log[a].seat == i
      && log[b] == Authenticate(h, PAM_SUCCESS) && log[c] == AcctMgmt(h, PAM_SUCCESS)
      && forall k :: a < k < |log| ==> !log[k].Status? && !(log[k].End? && log[k].handle == h)
  {
    var n := |log| - 1;
    if Progress(log[..n], i).Approved? {
      a, b, c := ApprovedWitnessed(log[..n], i);
    } else {
      a, b := AuthenticatedWitnessed(log[..n], i);
      c := n;
    }
  }

  lemma {:induction false} AuthenticatedWitnessed(log: Log, i: nat) returns (a: nat, b: nat)
    requires Progress(log, i).Authenticated?
    ensures
      var h := Progress(log, i).h;
      && a < b < |log| && h != 0 && log[a].Start? && log[a].handle == h && log[a].seat == i
      && log[b] == Authenticate(h, PAM_SUCCESS)
      && forall k :: a < k < |log| ==> !log[k].Status? && !(log[k].End? && log[k].handle == h)
  {
    var n := |log| - 1;
    if Progress(log[..n], i).Authenticated? {
      a, b := AuthenticatedWitnessed(log[..n], i);
    } else {
      a := FreshWitnessed(log[..n], i);
      b := n;
    }
  }

  lemma {:induction false} FreshWitnessed(log: Log, i: nat) returns (a: nat)
    requires Progress(log, i).Fresh?
    ensures
      var h := Progress(log, i).h;
      && a < |log| && h != 0 && log[a].Start? && log[a].handle == h && log[a].seat == i
      && forall k :: a < k < |log| ==> !log[k].Status? && !(log[k].End? && log[k].handle == h)
  {
    var n := |log| - 1;
    if Progress(log[..n], i) == Progress(log, i) && !(log[n].Start? && log[n].seat == i) {
      a := FreshWitnessed(log[..n], i);
    } else {
      a := n;
    }
  }

  // ---------- one request ----------

  datatype Auth = Auth(id: nat, login: string, password: string, session: Option<string>)

  /** What the library answers during one request, and whether the fork succeeds. */
  datatype Answers = Answers(started: Started, verdict: Verdict, userResult: int, user: Option<string>, forked: bool)

  /** The world around a request: the VTs of the seats, the home directory of every user,
      the session list, and the start-up scripts. */
  datatype World = World(vts: seq<nat>, homes: map<string, string>, list: seq<Catalogue.Xsession>,
                         scripts: Catalogue.Scripts)

  predicate Granted(w: Answers) {
    Passes(w.verdict)
  }

  /** Whether an authenticated request gets as far as a new session process. */
  predicate Launches(a: Auth, w: Answers, world: World) {
    w.user.Some? && w.user.value in world.homes && w.forked
    && Catalogue.Chosen(world.list, a.session, world.homes[w.user.value], world.scripts).0.Some?
  }

  /** Opening the session of an authenticated seat. */
  function AfterLogin(s: State, a: Auth, w: Answers, world: World): State
    requires HasRecord(s, a.id)
  {
    var t := AfterGetUser(s, a.id, w.userResult, w.user);
    if w.user.None? || w.user.value !in world.homes then t
    else
      var user := w.user.value;
      var (cmd, wayland) := Catalogue.Chosen(world.list, a.session, world.homes[user], world.scripts);
      var u := State(t.pams, t.log + [Check(user, a.session)]);
      if cmd.None? || !w.forked then u else State(u.pams, u.log + [Run(a.id, user, cmd.value, wayland)])
  }

  function AfterAuth(s: State, a: Auth, w: Answers, world: World): State
    requires a.id < |s.pams| && a.id < |world.vts|
  {
    var r := State(s.pams, s.log + [Asked(a.id, a.password)]);
    var t := AfterStart(r, a.id, a.login, "tty" + Text.Decimal(world.vts[a.id]), w.started);
    var u := AfterAuthenticate(AfterPasswdSet(t, a.id, a.password), a.id, w.verdict);
    var v := if Granted(w) then AfterLogin(u, a, w, world) else Ended(u, a.id);
    State(v.pams, v.log + [Status(a.id, Granted(w), if Granted(w) then "" else u.pams[a.id].value.msgs)])
  }

  /** A new handle is new; calls on NULL fail; a failed look-up returns nothing. */
  ghost predicate Possible(s: State, a: Auth, w: Answers) {
    && a.id < |s.pams|
    && (w.started.handle == 0 ==> w.verdict.auth != PAM_SUCCESS)
    && (w.started.handle == 0 || !Opened(s.log, w.started.handle))
    && (w.user.Some? ==> w.userResult == PAM_SUCCESS)
  }

  lemma UserFound(s: State, a: Auth, w: Answers)
    requires Possible(s, a, w)
    ensures a.id < |s.pams| && (w.user.Some? ==> w.userResult == PAM_SUCCESS)
  {
  }

  /** Between requests: nothing is pending on any seat. */
  ghost predicate Between(s: State) {
    Inv(s) && Sound(s.log) && forall i :: Progress(s.log, i) == Idle
  }

  lemma Next(log: Log, e: Event, i: nat)
    ensures Progress(log + [e], i) == Advance(Progress(log, i), i, e)
    ensures Sound(log + [e]) <==> Sound(log) && Fine(log, e)
    ensures !e.Asked? ==> LastAsked(log + [e]) == LastAsked(log)
    ensures !e.Asked? && !e.Converse? ==> Heard(log + [e], i) == Heard(log, i)
  {
    Last(log, e);
  }

  lemma StartPhase(s: State, i: nat, user: string, tty: string, a: Started)
    requires Inv(s) && Sound(s.log) && i < |s.pams| && tty != "" && Progress(s.log, i) == Idle
    requires a.handle == 0 || !Opened(s.log, a.handle)
    ensures
      var t := AfterStart(s, i, user, tty, a);
      && Inv(t) && Sound(t.log) && |t.pams| == |s.pams| && HasRecord(t, i) && Handle(t, i) == a.handle
      && Progress(t.log, i) == (if a.handle == 0 then Idle else Fresh(a.handle))
      && LastAsked(t.log) == LastAsked(s.log) && Heard(t.log, i) == Heard(s.log, i) && t.pams[i].value.msgs == ""
  {
    hide Inv, Progress, Sound, Opened, LastAsked, Heard, Cleared, Begun, ItemsSet;
    AfterStartKeeps(s, i, user, tty, a);
    var t := Cleared(s, i);
    ClearedStill(s, i);
    BegunPhase(t, i, user, a.handle);
    ItemsStill(Begun(t, i, user, a.handle), i, user, tty, a);
  }

  lemma ClearedStill(s: State, i: nat)
    requires i < |s.pams| && Progress(s.log, i) == Idle
    ensures |Cleared(s, i).pams| == |s.pams| && Still(s.log, Cleared(s, i).log, i)
  {
    hide Progress, Sound, LastAsked, Heard;
    if Handle(s, i) != 0 {
      Next(s.log, End(Handle(s, i), s.pams[i].value.last), i);
    }
  }

  lemma BegunPhase(s: State, i: nat, user: string, h: nat)
    requires i < |s.pams| && Sound(s.log) && Progress(s.log, i) == Idle
    ensures
      var t := Begun(s, i, user, h);
      && HasRecord(t, i) && |t.pams| == |s.pams| && t.pams[i].value.msgs == ""
      && Sound(t.log) && Progress(t.log, i) == (if h == 0 then Idle else Fresh(h))
      && LastAsked(t.log) == LastAsked(s.log) && Heard(t.log, i) == Heard(s.log, i)
  {
    hide Progress, Sound, LastAsked, Heard;
    Next(s.log, Start(h, i, user), i);
  }

  /** Setting the items leaves the monitors and the collected text alone. */
  lemma ItemsStill(s: State, i: nat, user: string, tty: string, a: Started)
    requires HasRecord(s, i)
    ensures
      var t := ItemsSet(s, i, user, tty, a);
      && HasRecord(t, i) && |t.pams| == |s.pams| && t.pams[i].value.msgs == s.pams[i].value.msgs
      && Still(s.log, t.log, i)
  {
    hide Progress, Sound, LastAsked, Heard;
    var v := Called(s, i, SetItem(a.handle, Tty, tty, a.tty), a.tty);
    Next(s.log, SetItem(a.handle, Tty, tty, a.tty), i);
    Next(v.log, SetItem(a.handle, Ruser, user, a.ruser), i);
  }

  ghost predicate Still(log: Log, more: Log, i: nat) {
    && (Sound(log) ==> Sound(more)) && Progress(more, i) == Progress(log, i)
    && LastAsked(more) == LastAsked(log) && Heard(more, i) == Heard(log, i)
  }

  /** A seat ready to be authenticated with this password, or part of the way through. */
  ghost predicate Primed(s: State, i: nat, passwd: string) {
    && Inv(s) && Sound(s.log) && HasRecord(s, i)
    && s.pams[i].value.passwd == Some(passwd) && LastAsked(s.log) == Some((i, passwd))
    && s.pams[i].value.msgs == Heard(s.log, i)
  }

  lemma ConvPhase(s: State, i: nat, passwd: string, conv: seq<Message>)
    requires Primed(s, i, passwd)
    ensures
      var t := AfterConv(s, i, conv);
      && Inv(t) && Sound(t.log) && HasRecord(t, i) && Handle(t, i) == Handle(s, i) && |t.pams| == |s.pams|
      && t.pams[i].value.msgs == Heard(t.log, i) && Progress(t.log, i) == Progress(s.log, i)
  {
    ConvKeeps(s, i, conv);
    hide Inv, Progress, Sound, LastAsked;
    var e := Converse(i, conv, PamSpec.Replies(Some(passwd), conv));
    Next(s.log, e, i);
    Last(s.log, e);
  }

  lemma AuthenticatedPhase(s: State, i: nat, passwd: string, v: Verdict)
    requires Primed(s, i, passwd)
    ensures
      var t := AfterVerify(s, i, v);
      && Primed(t, i, passwd) && Handle(t, i) == Handle(s, i) && |t.pams| == |s.pams|
      && Progress(t.log, i) == Advance(Progress(s.log, i), i, Authenticate(Handle(s, i), v.auth))
  {
    AuthenticatedKeeps(s, i, v);
    hide Inv, Progress, Sound, LastAsked, Heard, AfterConv;
    ConvPhase(s, i, passwd, v.conv);
    Next(AfterConv(s, i, v.conv).log, Authenticate(Handle(s, i), v.auth), i);
    ConvRecord(s, i, v.conv);
  }

  lemma AccountPhase(s: State, i: nat, passwd: string, v: Verdict)
    requires Primed(s, i, passwd)
    ensures
      var t := AfterAccount(s, i, v);
      && Primed(t, i, passwd) && Handle(t, i) == Handle(s, i) && |t.pams| == |s.pams|
      && Progress(t.log, i) == Advance(Progress(s.log, i), i, AcctMgmt(Handle(s, i), v.acct))
  {
    AccountCheckedKeeps(s, i, v);
    hide Inv, Progress, Sound, LastAsked, Heard, AfterConv;
    ConvPhase(s, i, passwd, v.checkConv);
    Next(AfterConv(s, i, v.checkConv).log, AcctMgmt(Handle(s, i), v.acct), i);
    ConvRecord(s, i, v.checkConv);
  }

  lemma ConvRecord(s: State, i: nat, conv: seq<Message>)
    requires HasRecord(s, i)
    ensures
      var t := AfterConv(s, i, conv);
      && HasRecord(t, i) && t.pams[i].value.passwd == s.pams[i].value.passwd && Handle(t, i) == Handle(s, i)
      && LastAsked(t.log) == LastAsked(s.log)
  {
    Last(s.log, Converse(i, conv, PamSpec.Replies(s.pams[i].value.passwd, conv)));
  }

  lemma AuthenticatePhase(s: State, i: nat, passwd: string, v: Verdict)
    requires Primed(s, i, passwd)
    requires Progress(s.log, i) == if Handle(s, i) == 0 then Idle else Fresh(Handle(s, i))
    requires Handle(s, i) == 0 ==> v.auth != PAM_SUCCESS
    ensures
      var t := AfterAuthenticate(s, i, v);
      && Primed(t, i, passwd) && |t.pams| == |s.pams| && Handle(t, i) == Handle(s, i)
      && (Passes(v) ==> Progress(t.log, i) == Approved(Handle(s, i)) && Handle(s, i) != 0)
  {
    hide Primed, Progress, AfterVerify, AfterAccount;
    PrimedRecord(s, i, passwd);
    AuthenticatedPhase(s, i, passwd, v);
    var t := AfterVerify(s, i, v);
    PrimedRecord(t, i, passwd);
    AccountPhase(t, i, passwd, v);
  }

  lemma PrimedRecord(s: State, i: nat, passwd: string)
    requires Primed(s, i, passwd)
    ensures HasRecord(s, i)
  {
  }

  lemma OwnLive(s: State, i: nat)
    requires Inv(s) && i < |s.pams|
    ensures LiveOf(s.log, i) == Only(Handle(s, i))
  {
  }

  lemma LoginPhase(s: State, a: Auth, w: Answers, world: World)
    requires Inv(s) && Sound(s.log) && HasRecord(s, a.id) && Handle(s, a.id) != 0
    requires Progress(s.log, a.id) == Approved(Handle(s, a.id)) && (w.user.Some? ==> w.userResult == PAM_SUCCESS)
    ensures
      var t := AfterLogin(s, a, w, world);
      Inv(t) && Sound(t.log) && |t.pams| == |s.pams|
  {
    hide Inv, Progress, Sound, Live, Safe, LiveOf, Opened, Catalogue.Chosen;
    var i := a.id;
    var h := Handle(s, i);
    var e := GetUser(h, w.userResult, w.user);
    var t := AfterGetUser(s, i, w.userResult, w.user);
    GetUserKeeps(s, i, w.userResult, w.user);
    OwnHandle(s, i);
    CalledKeeps(s, i, e, w.userResult);
    Next(s.log, e, i);
    if w.userResult != PAM_SUCCESS {
      Next(s.log + [e], End(h, w.userResult), i);
    }
    if w.user.Some? && w.user.value in world.homes {
      var user := w.user.value;
      var u := State(t.pams, t.log + [Check(user, a.session)]);
      NotedKeeps(t, Check(user, a.session));
      Next(t.log, Check(user, a.session), i);
      var (cmd, wayland) := Catalogue.Chosen(world.list, a.session, world.homes[user], world.scripts);
      if cmd.Some? && w.forked {
        OwnLive(u, i);
        NotedKeeps(u, Run(i, user, cmd.value, wayland));
        Next(u.log, Run(i, user, cmd.value, wayland), i);
      }
    }
  }

  /** One request, with any answers: the records stay balanced, the log stays sound, and
      nothing is left pending; a denial leaves the seat without a handle. */
  lemma AuthKeeps(s: State, a: Auth, w: Answers, world: World)
    requires Between(s) && Possible(s, a, w) && a.id < |world.vts|
    ensures
      var t := AfterAuth(s, a, w, world);
      && Between(t) && |t.pams| == |s.pams|
      && (!Granted(w) ==> Handle(t, a.id) == 0)
  {
    var i := a.id;
    var tty := "tty" + Text.Decimal(world.vts[i]);
    var r := State(s.pams, s.log + [Asked(i, a.password)]);
    AskedPhase(s, i, a.password, w.started.handle);
    hide Inv, Progress, Sound, Live, Safe, LiveOf, Opened, LastAsked, Heard;
    var t := AfterStart(r, i, a.login, tty, w.started);
    StartPhase(r, i, a.login, tty, w.started);
    RecordKeeps(t, i, t.pams[i].value.(passwd := Some(a.password)));
    var p := AfterPasswdSet(t, i, a.password);
    var u := AfterAuthenticate(p, i, w.verdict);
    AuthenticatePhase(p, i, a.password, w.verdict);
    hide AfterStart, AfterAuthenticate, AfterPasswdSet;
    if Granted(w) {
      LoginPhase(u, a, w, world);
      Answered(AfterLogin(u, a, w, world), i, true, "");
    } else {
      DeniedPhase(u, i);
    }
  }

  lemma DeniedPhase(u: State, i: nat)
    requires Inv(u) && Sound(u.log) && HasRecord(u, i) && u.pams[i].value.msgs == Heard(u.log, i)
    ensures
      var v := Ended(u, i);
      var t := State(v.pams, v.log + [Status(i, false, u.pams[i].value.msgs)]);
      Between(t) && Handle(t, i) == 0 && |t.pams| == |u.pams|
  {
    hide Inv, Sound, LiveOf, Heard, Between, Progress;
    EndedKeeps(u, i);
    Next(u.log, End(Handle(u, i), u.pams[i].value.last), i);
    OwnLive(Ended(u, i), i);
    Answered(Ended(u, i), i, false, u.pams[i].value.msgs);
  }

  lemma AskedPhase(s: State, i: nat, password: string, h: nat)
    requires Between(s)
    ensures
      var r := State(s.pams, s.log + [Asked(i, password)]);
      && Inv(r) && Sound(r.log) && Progress(r.log, i) == Idle
      && LastAsked(r.log) == Some((i, password)) && Heard(r.log, i) == ""
      && (Opened(r.log, h) <==> Opened(s.log, h))
  {
    hide Inv, Sound, Progress, Opened, LastAsked, Heard;
    var e := Asked(i, password);
    NotedKeeps(s, e);
    Next(s.log, e, i);
    AskedMonitors(s.log, i, password);
    EndOpensNothing(s.log, e, h);
  }

  lemma AskedMonitors(log: Log, i: nat, password: string)
    ensures LastAsked(log + [Asked(i, password)]) == Some((i, password)) && Heard(log + [Asked(i, password)], i) == ""
  {
    Last(log, Asked(i, password));
  }

  lemma Answered(s: State, i: nat, granted: bool, text: string)
    requires Inv(s) && Sound(s.log) && (granted || (LiveOf(s.log, i) == {} && text == Heard(s.log, i)))
    ensures Between(State(s.pams, s.log + [Status(i, granted, text)]))
  {
    var e := Status(i, granted, text);
    NotedKeeps(s, e);
    forall j ensures Progress(s.log + [e], j) == Idle {
      Next(s.log, e, j);
    }
    Next(s.log, e, i);
  }

  /** The text of a denial is what the library said during this request, and nothing older. */
  lemma DeniedText(s: State, a: Auth, w: Answers, world: World)
    requires a.id < |s.pams| && a.id < |world.vts| && !Granted(w)
    ensures
      var t := AfterAuth(s, a, w, world);
      t.log[|t.log| - 1] == Status(a.id, false, Collect("", Said(w.verdict)))
  {
    hide Collect;
    var r := State(s.pams, s.log + [Asked(a.id, a.password)]);
    var tty := "tty" + Text.Decimal(world.vts[a.id]);
    NoTextYet(r, a.id, a.login, tty, w.started);
    var p := AfterPasswdSet(AfterStart(r, a.id, a.login, tty, w.started), a.id, a.password);
    TextCollected(p, a.id, w.verdict);
    hide AfterStart, AfterAuthenticate;
  }

  lemma NoTextYet(s: State, i: nat, user: string, tty: string, a: Started)
    requires i < |s.pams| && tty != ""
    ensures HasRecord(AfterStart(s, i, user, tty, a), i) && AfterStart(s, i, user, tty, a).pams[i].value.msgs == ""
  {
  }

  lemma TextCollected(s: State, i: nat, v: Verdict)
    requires HasRecord(s, i)
    ensures
      var t := AfterAuthenticate(s, i, v);
      HasRecord(t, i) && t.pams[i].value.msgs == Collect(s.pams[i].value.msgs, Said(v))
  {
    hide Collect, Replies;
    CollectMore(s.pams[i].value.msgs, v.conv, v.checkConv);
  }

  /** How many replies were sent. */
  function Sent(log: Log): nat {
    if log == [] then 0 else Sent(log[..|log| - 1]) + if log[|log| - 1].Status? then 1 else 0
  }

  lemma CountNext(log: Log, e: Event)
    ensures Sent(log + [e]) == Sent(log) + if e.Status? then 1 else 0
  {
    Last(log, e);
  }

  // ---------- runs ----------

  datatype Request = Request(auth: Auth, answers: Answers, world: World)

  ghost predicate Runnable(n: nat, rs: seq<Request>)
    decreases |rs|, 0
  {
    rs == [] ||
    (var r := rs[|rs| - 1];
     && Runnable(n, rs[..|rs| - 1])
     && Possible(Final(n, rs[..|rs| - 1]), r.auth, r.answers) && r.auth.id < |r.world.vts|)
  }

  ghost function Final(n: nat, rs: seq<Request>): State
    requires Runnable(n, rs)
    decreases |rs|, 1
  {
    if rs == [] then Boot(n)
    else var r := rs[|rs| - 1]; AfterAuth(Final(n, rs[..|rs| - 1]), r.auth, r.answers, r.world)
  }

  lemma {:induction false} RunKeeps(n: nat, rs: seq<Request>)
    requires Runnable(n, rs)
    ensures Between(Final(n, rs)) && |Final(n, rs).pams| == n
  {
    if rs != [] {
      var r := rs[|rs| - 1];
      RunKeeps(n, rs[..|rs| - 1]);
      AuthKeeps(Final(n, rs[..|rs| - 1]), r.auth, r.answers, r.world);
    }
  }

  /** The states that some run of requests on some number of seats leads to. */
  ghost predicate Reachable(s: State) {
    exists n: nat, rs :: Runnable(n, rs) && s == Final(n, rs)
  }

  lemma ReachableSound(s: State, k: nat)
    requires Reachable(s) && k < |s.log|
    ensures Fine(s.log[..k], s.log[k])
  {
    var n: nat, rs :| Runnable(n, rs) && s == Final(n, rs);
    RunKeeps(n, rs);
    SoundEverywhere(s.log, k);
  }

  /** In any run of requests on any number of seats, a session is started only after, within
      the same request and on one handle of that seat which is its only live one, a successful
      authenticate and a successful account check, and as the user that handle names. */
  lemma EveryRunAuthenticated(s: State, k: nat) returns (h: nat, a: nat, b: nat, c: nat, d: nat)
    requires Reachable(s) && k < |s.log| && s.log[k].Run?
    ensures Witnessed(s.log[..k], s.log[k].seat, h, s.log[k].user, a, b, c, d)
    ensures LiveOf(s.log[..k], s.log[k].seat) == {h}
  {
    ReachableSound(s, k);
    h := Progress(s.log[..k], s.log[k].seat).h;
    a, b, c, d := KnownWitnessed(s.log[..k], s.log[k].seat);
  }

  /** No denial is ever answered while the seat has a live handle, and its text is what the
      library said for that seat since the request came in. */
  lemma EveryDenialEnds(s: State, k: nat)
    requires Reachable(s) && k < |s.log| && s.log[k].Status? && !s.log[k].granted
    ensures LiveOf(s.log[..k], s.log[k].seat) == {}
    ensures s.log[k].text == Heard(s.log[..k], s.log[k].seat)
  {
    ReachableSound(s, k);
  }

  /** In any run, whatever the library asks for, exactly the hidden prompts are answered, with
      the password that came with the request being handled, for the seat that made it. */
  lemma EveryReplyOwn(s: State, k: nat, j: nat)
    requires Reachable(s) && k < |s.log| && s.log[k].Converse? && j < |s.log[k].heard|
    ensures LastAsked(s.log[..k]).Some? && LastAsked(s.log[..k]).value.0 == s.log[k].seat
    ensures |s.log[k].replies| == |s.log[k].heard|
    ensures s.log[k].replies[j] ==
      if s.log[k].heard[j].style == EchoOff then Some(LastAsked(s.log[..k]).value.1) else None
  {
    ReachableSound(s, k);
  }

  lemma CalledQuiet(s: State, i: nat, e: Event, r: int)
    requires HasRecord(s, i) && !e.Status?
    ensures Sent(Called(s, i, e, r).log) == Sent(s.log)
  {
    CountNext(s.log, e);
  }

  lemma EndedQuiet(s: State, i: nat)
    requires HasRecord(s, i)
    ensures Sent(Ended(s, i).log) == Sent(s.log)
  {
    CountNext(s.log, End(Handle(s, i), s.pams[i].value.last));
  }

  lemma StartQuiet(s: State, i: nat, user: string, tty: string, a: Started)
    requires i < |s.pams| && tty != ""
    ensures
      var t := AfterStart(s, i, user, tty, a);
      HasRecord(t, i) && Sent(t.log) == Sent(s.log)
  {
    hide Sent;
    if Handle(s, i) != 0 { EndedQuiet(s, i); }
    var t := Cleared(s, i);
    CountNext(t.log, Start(a.handle, i, user));
    var u := Begun(t, i, user, a.handle);
    CalledQuiet(u, i, SetItem(a.handle, Tty, tty, a.tty), a.tty);
    var v := Called(u, i, SetItem(a.handle, Tty, tty, a.tty), a.tty);
    CalledQuiet(v, i, SetItem(a.handle, Ruser, user, a.ruser), a.ruser);
  }

  lemma ConvQuiet(s: State, i: nat, conv: seq<Message>)
    requires HasRecord(s, i)
    ensures
      var t := AfterConv(s, i, conv);
      HasRecord(t, i) && Handle(t, i) == Handle(s, i) && Sent(t.log) == Sent(s.log)
  {
    CountNext(s.log, Converse(i, conv, PamSpec.Replies(s.pams[i].value.passwd, conv)));
  }

  lemma AuthenticateQuiet(s: State, i: nat, v: Verdict)
    requires HasRecord(s, i)
    ensures
      var t := AfterAuthenticate(s, i, v);
      HasRecord(t, i) && Sent(t.log) == Sent(s.log)
  {
    hide Sent, AfterConv;
    ConvQuiet(s, i, v.conv);
    CalledQuiet(AfterConv(s, i, v.conv), i, Authenticate(Handle(s, i), v.auth), v.auth);
    var t := AfterVerify(s, i, v);
    ConvQuiet(t, i, v.checkConv);
    CalledQuiet(AfterConv(t, i, v.checkConv), i, AcctMgmt(Handle(t, i), v.acct), v.acct);
  }

  lemma LoginQuiet(s: State, a: Auth, w: Answers, world: World)
    requires HasRecord(s, a.id)
    ensures Sent(AfterLogin(s, a, w, world).log) == Sent(s.log)
  {
    hide Sent, Catalogue.Chosen;
    var e := GetUser(Handle(s, a.id), w.userResult, w.user);
    CalledQuiet(s, a.id, e, w.userResult);
    EndedQuiet(Called(s, a.id, e, w.userResult), a.id);
    var t := AfterGetUser(s, a.id, w.userResult, w.user);
    if w.user.Some? && w.user.value in world.homes {
      var (cmd, wayland) := Catalogue.Chosen(world.list, a.session, world.homes[w.user.value], world.scripts);
      CountNext(t.log, Check(w.user.value, a.session));
      if cmd.Some? {
        CountNext(t.log + [Check(w.user.value, a.session)], Run(a.id, w.user.value, cmd.value, wayland));
      }
    }
  }

  /** Every request is answered exactly once, and the answer comes last. */
  lemma AnsweredOnce(s: State, a: Auth, w: Answers, world: World)
    requires a.id < |s.pams| && a.id < |world.vts|
    ensures
      var t := AfterAuth(s, a, w, world);
      && Sent(t.log) == Sent(s.log) + 1
      && t.log[|t.log| - 1].Status? && t.log[|t.log| - 1].seat == a.id && t.log[|t.log| - 1].granted == Granted(w)
  {
    hide Sent;
    var i := a.id;
    var h := w.started.handle;
    var r := State(s.pams, s.log + [Asked(i, a.password)]);
    CountNext(s.log, Asked(i, a.password));
    var t := AfterStart(r, i, a.login, "tty" + Text.Decimal(world.vts[i]), w.started);
    StartQuiet(r, i, a.login, "tty" + Text.Decimal(world.vts[i]), w.started);
    var p := AfterPasswdSet(t, i, a.password);
    AuthenticateQuiet(p, i, w.verdict);
    var u := AfterAuthenticate(p, i, w.verdict);
    hide AfterStart, AfterAuthenticate;
    if Granted(w) {
      LoginQuiet(u, a, w, world);
      CountNext(AfterLogin(u, a, w, world).log, Status(i, true, ""));
    } else {
      EndedQuiet(u, i);
      CountNext(Ended(u, i).log, Status(i, false, u.pams[i].value.msgs));
    }
  }

  /** So a run answers each of its requests once. */
  lemma {:induction false} RunAnswersAll(n: nat, rs: seq<Request>)
    requires Runnable(n, rs)
    ensures Sent(Final(n, rs).log) == |rs|
  {
    if rs != [] {
      var r := rs[|rs| - 1];
      RunKeeps(n, rs[..|rs| - 1]);
      RunAnswersAll(n, rs[..|rs| - 1]);
      hide AfterAuth;
      AnsweredOnce(Final(n, rs[..|rs| - 1]), r.auth, r.answers, r.world);
    }
  }

  // ---------- a request, written out ----------

  /** The state when the verdict is in. */
  function AtVerdict(s: State, a: Auth, w: Answers, world: World): State
    requires a.id < |s.pams| && a.id < |world.vts|
  {
    var r := State(s.pams, s.log + [Asked(a.id, a.password)]);
    var t := AfterStart(r, a.id, a.login, "tty" + Text.Decimal(world.vts[a.id]), w.started);
    AfterAuthenticate(AfterPasswdSet(t, a.id, a.password), a.id, w.verdict)
  }

  lemma AtVerdictLog(s: State, a: Auth, w: Answers, world: World)
    requires a.id < |s.pams| && a.id < |world.vts|
    ensures
      var tty := "tty" + Text.Decimal(world.vts[a.id]);
      var u := AtVerdict(s, a, w, world);
      && u.log == s.log + [Asked(a.id, a.password)] + StartEvents(OldEnd(s, a.id), a.id, a.login, tty, w.started)
                  + AuthEvents(a.id, w.started.handle, Some(a.password), w.verdict)
      && HasRecord(u, a.id) && Handle(u, a.id) == w.started.handle
  {
    hide StartEvents, AuthEvents, AfterStart, AfterAuthenticate;
    var r := State(s.pams, s.log + [Asked(a.id, a.password)]);
    var tty := "tty" + Text.Decimal(world.vts[a.id]);
    assert OldEnd(r, a.id) == OldEnd(s, a.id);
    StartCalls(r, a.id, a.login, tty, w.started);
    var p := AfterPasswdSet(AfterStart(r, a.id, a.login, tty, w.started), a.id, a.password);
    AuthenticateCalls(p, a.id, w.verdict);
  }

  /** Everything up to the verdict, call by call: the request as it came, a transaction for the
      login on the seat's terminal, and the verdict of the library. */
  lemma RequestCalls(s: State, a: Auth, w: Answers, world: World)
    requires a.id < |s.pams| && a.id < |world.vts|
    ensures
      var tty := "tty" + Text.Decimal(world.vts[a.id]);
      s.log + [Asked(a.id, a.password)] + StartEvents(OldEnd(s, a.id), a.id, a.login, tty, w.started)
        + AuthEvents(a.id, w.started.handle, Some(a.password), w.verdict)
      <= AfterAuth(s, a, w, world).log
  {
    AtVerdictLog(s, a, w, world);
    var u := AtVerdict(s, a, w, world);
    LoginAppends(u, a, w, world);
    hide AfterStart, AfterAuthenticate, AfterLogin, StartEvents, AuthEvents;
  }

  lemma LoginAppends(s: State, a: Auth, w: Answers, world: World)
    requires HasRecord(s, a.id)
    ensures s.log <= AfterLogin(s, a, w, world).log
  {
    hide Catalogue.Chosen;
  }

  /** How a request ends. With both verdicts a success, an account for the user that the library
      names, a command and a fork, the history is told of the session asked for and a process
      is started with the chosen command; without a command or a fork, only the history is told;
      without an account, neither. It is granted exactly when both verdicts are a success. */
  lemma RequestEnds(s: State, a: Auth, w: Answers, world: World)
    requires a.id < |s.pams| && a.id < |world.vts| && (w.user.Some? ==> w.userResult == PAM_SUCCESS)
    ensures
      var log := AfterAuth(s, a, w, world).log;
      var n := |log|;
      var passed := w.verdict.auth == PAM_SUCCESS && w.verdict.acct == PAM_SUCCESS;
      && n - 1 > |s.log| && log[n - 1].Status? && log[n - 1].seat == a.id && log[n - 1].granted == passed
      && (!passed ==> log[n - 2].End? && log[n - 2].handle == w.started.handle)
      && (passed && w.user.Some? && w.user.value in world.homes ==>
            var (cmd, wayland) := Catalogue.Chosen(world.list, a.session, world.homes[w.user.value], world.scripts);
            var told := [Check(w.user.value, a.session)];
            var ran := if cmd.Some? && w.forked then [Run(a.id, w.user.value, cmd.value, wayland)] else [];
            EndsWith(log, [GetUser(w.started.handle, PAM_SUCCESS, w.user)] + told + ran + [Status(a.id, true, "")]))
      && (passed && (w.user.None? || w.user.value !in world.homes) ==>
            !log[n - 2].Run? && !log[n - 2].Check? && log[n - 1] == Status(a.id, true, ""))
  {
    hide StartEvents, AuthEvents, Catalogue.Chosen, EndsWith;
    AtVerdictLog(s, a, w, world);
    var u := AtVerdict(s, a, w, world);
    if Passes(w.verdict) {
      LoginEnds(u, a, w, world);
      hide AfterStart, AfterAuthenticate, AfterLogin;
      if w.user.Some? && w.user.value in world.homes {
        var (cmd, wayland) := Catalogue.Chosen(world.list, a.session, world.homes[w.user.value], world.scripts);
        var end := [GetUser(w.started.handle, PAM_SUCCESS, w.user)] + [Check(w.user.value, a.session)]
                   + (if cmd.Some? && w.forked then [Run(a.id, w.user.value, cmd.value, wayland)] else []);
        Ends(u.log, end, Status(a.id, true, ""));
      }
    } else {
      hide AfterStart, AfterAuthenticate, AfterLogin;
    }
  }

  lemma Ends(log: Log, end: Log, e: Event)
    ensures EndsWith(log + end + [e], end + [e])
  {
    assert log + end + [e] == log + (end + [e]);
  }

  ghost predicate EndsWith(log: Log, end: Log) {
    |end| <= |log| && log[|log| - |end|..] == end
  }

  lemma LoginEnds(s: State, a: Auth, w: Answers, world: World)
    requires HasRecord(s, a.id) && (w.user.Some? ==> w.userResult == PAM_SUCCESS)
    ensures
      var h, t := Handle(s, a.id), AfterLogin(s, a, w, world);
      && |t.log| > 0
      && (if w.user.Some? && w.user.value in world.homes then
            var (cmd, wayland) := Catalogue.Chosen(world.list, a.session, world.homes[w.user.value], world.scripts);
            t.log == s.log + ([GetUser(h, PAM_SUCCESS, w.user)] + [Check(w.user.value, a.session)]
                              + if cmd.Some? && w.forked then [Run(a.id, w.user.value, cmd.value, wayland)] else [])
          else !t.log[|t.log| - 1].Run? && !t.log[|t.log| - 1].Check?)
  {
    hide Catalogue.Chosen;
    if w.user.Some? && w.user.value in world.homes {
      var (cmd, wayland) := Catalogue.Chosen(world.list, a.session, world.homes[w.user.value], world.scripts);
      var g, c := [GetUser(Handle(s, a.id), PAM_SUCCESS, w.user)], [Check(w.user.value, a.session)];
      var r := if cmd.Some? && w.forked then [Run(a.id, w.user.value, cmd.value, wayland)] else [];
      assert AfterLogin(s, a, w, world).log == s.log + g + c + r;
      assert s.log + g + c + r == s.log + (g + c + r);
    }
  }

  /** What the state machine's two conditions mean: a session process is started just before the
      answer exactly when the request is granted and gets as far as a session. */
  lemma LaunchesExactly(s: State, a: Auth, w: Answers, world: World)
    requires a.id < |s.pams| && a.id < |world.vts| && (w.user.Some? ==> w.userResult == PAM_SUCCESS)
    ensures
      var log := AfterAuth(s, a, w, world).log;
      |log| >= |s.log| + 2 && (Granted(w) && Launches(a, w, world) <==> log[|log| - 2].Run?)
  {
    RequestEnds(s, a, w, world);
    hide AfterAuth, Catalogue.Chosen, EndsWith;
    if Passes(w.verdict) && w.user.Some? && w.user.value in world.homes {
      var (cmd, wayland) := Catalogue.Chosen(world.list, a.session, world.homes[w.user.value], world.scripts);
      var ran := if cmd.Some? && w.forked then [Run(a.id, w.user.value, cmd.value, wayland)] else [];
      LastButOne(AfterAuth(s, a, w, world).log, [GetUser(w.started.handle, PAM_SUCCESS, w.user)]
                 + [Check(w.user.value, a.session)] + ran + [Status(a.id, true, "")]);
    }
  }

  lemma LastButOne(log: Log, end: Log)
    requires EndsWith(log, end) && |end| >= 2
    ensures |log| >= 2 && log[|log| - 2] == end[|end| - 2]
  {
  }
}
