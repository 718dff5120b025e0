/** From the click on a greeter to the command that runs. */
module EndToEnd {
  import opened Wrappers
  import opened Lists
  import opened Text
  import opened Catalogue
  import opened Protocol
  import GreeterSpec
  import PamSpec
  import LoginSpec

  /** What the daemon tells the greeters about its catalogue. */
  function Offer(l: seq<Xsession>): seq<GreeterSpec.Session> {
    seq(|l|, i requires 0 <= i < |l| => GreeterSpec.Session(l[i].name, l[i].icon))
  }

  /** In every run of the daemon and its greeters, a request that is handled names exactly
      one entry of the catalogue, and gets that entry's command and kind, which are those of
      the first scanned file of that name. */
  lemma HandledRequestResolves(fs: seq<File>, l: seq<Xsession>, n: Net, k: nat, home: string,
                               sc: Scripts) returns (i: nat)
    requires CatalogueOf(fs, l) && n.list == Offer(l) && Reachable(n) && k < |n.handled|
    ensures
      var name := n.handled[k].session;
      && i < |l| && l[i].name == name && (forall j :: 0 <= j < |l| && l[j].name == name ==> j == i)
      && Chosen(l, Some(name), home, sc) == (Some(l[i].command), l[i].wayland)
      && FirstUsable(fs, name).Some? && Usable(FirstUsable(fs, name).value)
      && l[i] == Entry(FirstUsable(fs, name).value)
  {
    RequestsNameSessions(n, k);
    var name := n.handled[k].session;
    var o :| 0 <= o < |Offer(l)| && Offer(l)[o].name == name;
    i := o;
    assert l[i].name == name;
    FirstFinds(Names(l), name, i);
    var p := Position(l, Some(name));
    assert p == i;
    assert Made(fs, l[i]);
  }

  /** A name gets a catalogue entry exactly when the catalogue has it; any other gets a
      start-up script or nothing, and is never taken for a Wayland session. */
  lemma OnlyListedNamesResolve(fs: seq<File>, l: seq<Xsession>, session: Option<string>, home: string, sc: Scripts)
    requires CatalogueOf(fs, l)
    ensures (session.Some? && HasName(l, session.value)) <==> Position(l, session) < |l|
    ensures !(session.Some? && HasName(l, session.value)) ==>
      Chosen(l, session, home, sc) == (Fallback(home, sc), false)
  {
    if session.Some? && HasName(l, session.value) {
      var i :| 0 <= i < |l| && l[i].name == session.value;
      FirstFinds(Names(l), session.value, i);
    }
  }

  /** The daemon's view of a greeter's request: nothing of it is lost on the way. */
  function Received(a: GreeterSpec.Auth): LoginSpec.Auth {
    LoginSpec.Auth(a.id, a.login, a.password, Some(a.session))
  }

  /** What a request may do: transactions are for its seat, its login and that seat's terminal,
      hidden prompts are answered with its password and others not at all, the history is told of
      the session asked for, and a session is the chosen one, for the user the library names. */
  ghost predicate Belongs(e: PamSpec.Event, a: LoginSpec.Auth, w: LoginSpec.Answers, world: LoginSpec.World)
    requires a.id < |world.vts|
  {
    match e
    case Asked(seat, password) => seat == a.id && password == a.password
    case Start(_, seat, user) => seat == a.id && user == a.login
    case SetItem(_, kind, value, _) =>
      value == if kind == PamSpec.Tty then "tty" + Decimal(world.vts[a.id]) else a.login
    case Converse(seat, heard, replies) => seat == a.id && LoginSpec.RepliesTo(heard, replies, a.password)
    case Run(seat, user, command, wayland) =>
      && seat == a.id && w.user == Some(user) && user in world.homes
      && (Some(command), wayland) == Chosen(world.list, a.session, world.homes[user], world.scripts)
    case Check(user, session) => w.user == Some(user) && user in world.homes && session == a.session
    case Status(seat, granted, _) =>
      seat == a.id && granted == (w.verdict.auth == PamSpec.PAM_SUCCESS && w.verdict.acct == PamSpec.PAM_SUCCESS)
    case _ => true
  }

  /** Everything the daemon logs for a request belongs to it. */
  lemma EverythingBelongs(s: PamSpec.State, a: LoginSpec.Auth, w: LoginSpec.Answers, world: LoginSpec.World, k: nat)
    requires a.id < |s.pams| && a.id < |world.vts|
    requires |s.log| <= k < |LoginSpec.AfterAuth(s, a, w, world).log|
    ensures Belongs(LoginSpec.AfterAuth(s, a, w, world).log[k], a, w, world)
  {
    hide Chosen, Decimal;
    var tty := "tty" + Decimal(world.vts[a.id]);
    var r := PamSpec.State(s.pams, s.log + [PamSpec.Asked(a.id, a.password)]);
    StartBelongs(r, a, w, world, tty, k);
    var t := PamSpec.AfterStart(r, a.id, a.login, tty, w.started);
    var p := PamSpec.AfterPasswdSet(t, a.id, a.password);
    AuthenticationBelongs(p, a, w, world, k);
    var u := PamSpec.AfterAuthenticate(p, a.id, w.verdict);
    LoginBelongs(u, a, w, world, k);
    hide PamSpec.AfterStart, PamSpec.AfterAuthenticate, LoginSpec.AfterLogin, Belongs;
    StatusBelongs(a, w, world);
    EndBelongs(u, a, w, world);
  }

  lemma LoginBelongs(s: PamSpec.State, a: LoginSpec.Auth, w: LoginSpec.Answers, world: LoginSpec.World, k: nat)
    requires PamSpec.HasRecord(s, a.id) && a.id < |world.vts|
    requires k < |s.log| ==> Belongs(s.log[k], a, w, world)
    ensures
      var t := LoginSpec.AfterLogin(s, a, w, world);
      |s.log| <= |t.log| && (k < |t.log| ==> Belongs(t.log[k], a, w, world))
  {
    hide Chosen;
  }

  lemma StatusBelongs(a: LoginSpec.Auth, w: LoginSpec.Answers, world: LoginSpec.World)
    requires a.id < |world.vts|
    ensures forall text :: Belongs(PamSpec.Status(a.id, LoginSpec.Granted(w), text), a, w, world)
  {
  }

  lemma EndBelongs(s: PamSpec.State, a: LoginSpec.Auth, w: LoginSpec.Answers, world: LoginSpec.World)
    requires a.id < |world.vts|
    ensures forall h, last :: Belongs(PamSpec.End(h, last), a, w, world)
  {
  }

  lemma StartBelongs(s: PamSpec.State, a: LoginSpec.Auth, w: LoginSpec.Answers, world: LoginSpec.World, tty: string,
                     k: nat)
    requires a.id < |s.pams| && a.id < |world.vts| && tty == "tty" + Decimal(world.vts[a.id])
    requires k < |s.log| ==> Belongs(s.log[k], a, w, world)
    ensures
      var t := PamSpec.AfterStart(s, a.id, a.login, tty, w.started);
      PamSpec.HasRecord(t, a.id) && |s.log| <= |t.log| && (k < |t.log| ==> Belongs(t.log[k], a, w, world))
  {
    hide Chosen;
  }

  lemma AuthenticationBelongs(s: PamSpec.State, a: LoginSpec.Auth, w: LoginSpec.Answers, world: LoginSpec.World, k: nat)
    requires PamSpec.HasRecord(s, a.id) && s.pams[a.id].value.passwd == Some(a.password) && a.id < |world.vts|
    requires k < |s.log| ==> Belongs(s.log[k], a, w, world)
    ensures
      var t := PamSpec.AfterAuthenticate(s, a.id, w.verdict);
      PamSpec.HasRecord(t, a.id) && |s.log| <= |t.log| && (k < |t.log| ==> Belongs(t.log[k], a, w, world))
  {
    hide Chosen, PamSpec.Collect;
  }

  /** From a greeter's request, through the daemon, to a process: on the greeter's seat, for the
      user that the library names, the command of the first scanned file of the name asked for. */
  lemma RequestLaunchesFirstFile(fs: seq<File>, n: Net, j: nat, s: PamSpec.State, w: LoginSpec.Answers,
                                 world: LoginSpec.World, k: nat)
    requires CatalogueOf(fs, world.list) && n.list == Offer(world.list) && Reachable(n) && j < |n.handled|
    requires n.handled[j].id < |s.pams| && n.handled[j].id < |world.vts|
    requires |s.log| <= k < |LoginSpec.AfterAuth(s, Received(n.handled[j]), w, world).log|
    requires LoginSpec.AfterAuth(s, Received(n.handled[j]), w, world).log[k].Run?
    ensures
      var e := LoginSpec.AfterAuth(s, Received(n.handled[j]), w, world).log[k];
      var f := FirstUsable(fs, n.handled[j].session);
      && e.seat == n.handled[j].id && w.user == Some(e.user)
      && f.Some? && Usable(f.value) && f.value.desktop.value.name == n.handled[j].session
      && f.value.desktop.value.command == Some(e.command) && e.wayland == Contains(f.value.path, MARK)
  {
    hide LoginSpec.AfterAuth, CatalogueOf, Contains, Reachable;
    var a := Received(n.handled[j]);
    var e := LoginSpec.AfterAuth(s, a, w, world).log[k];
    EverythingBelongs(s, a, w, world, k);
    var i := HandledRequestResolves(fs, world.list, n, j, world.homes[e.user], world.scripts);
    FirstUsableNamed(fs, n.handled[j].session);
  }

  /** From the keyboard to the library: a request that is handled was submitted at its greeter,
      and all that it makes the daemon do is for what was typed there. The transaction is for the
      login typed, every hidden prompt gets the password typed and nothing else is answered, on
      the seat of that greeter, and the history is told of the session chosen there. */
  lemma TypedAtTheGreeter(config: Config, list: seq<GreeterSpec.Session>, es: seq<Event>, j: nat,
                          s: PamSpec.State, w: LoginSpec.Answers, world: LoginSpec.World, k: nat)
    returns (at: nat)
    requires Runnable(Boot(config, list), es) && j < |Final(Boot(config, list), es).handled|
    requires
      var r := Final(Boot(config, list), es).handled[j];
      && r.id < |s.pams| && r.id < |world.vts|
      && |s.log| <= k < |LoginSpec.AfterAuth(s, Received(r), w, world).log|
    ensures
      var n := Final(Boot(config, list), es);
      var e := LoginSpec.AfterAuth(s, Received(n.handled[j]), w, world).log[k];
      && j < |n.askers| && at < |es| && es[at].Act? && es[at].c == n.askers[j] && es[at].action.Submit?
      && Runnable(Boot(config, list), es[..at]) && es[at].c in Final(Boot(config, list), es[..at]).conns
      && var g := Final(Boot(config, list), es[..at]).conns[es[at].c].greeter;
         && g.session.Some?
         && (e.Start? ==> e.seat == g.id && e.user == es[at].action.host)
         && (e.Converse? ==> e.seat == g.id && LoginSpec.RepliesTo(e.heard, e.replies, es[at].action.password))
         && (e.Check? ==> e.session == Some(g.session.value.name))
         && (e.Run? ==> e.seat == g.id)
  {
    hide LoginSpec.AfterAuth, Final, Runnable, LoginSpec.RepliesTo;
    var b := Boot(config, list);
    var n := Final(b, es);
    RequestsAreTyped(b, es);
    var r := n.handled[j];
    assert Typed(b, es, n.askers[j], r);
    at :| SubmittedAt(b, es, at, n.askers[j], r);
    EverythingBelongs(s, Received(r), w, world, k);
  }
}
