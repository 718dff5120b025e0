/** What a greeter remembers and how it reacts to the server and to its user. */
module GreeterSpec {
  import opened Wrappers
  import opened Lists

  /** A session as it is sent: its command stays with the server. */
  datatype Session = Session(name: string, icon: Option<string>)

  datatype User = User(login: string, session: Option<string>)

  /** A greeter's state; `id` is the seat it was started for, `auth` the registered callback, 0
      for NULL, and `made` how many callbacks were ever made. */
  datatype Greeter = Greeter(id: nat, xsessions: seq<Session>, users: seq<User>, session: Option<Session>,
                             waiting: bool, auth: nat, authList: seq<nat>, made: nat,
                             error: bool, reqPasswd: bool, autoselect: bool, exited: bool)

  /** A login request on the wire. */
  datatype Auth = Auth(id: nat, login: string, password: string, session: string)

  datatype Msg =
    | Pid
    | Actions
    | Xsessions(list: seq<Session>)
    | Conf(reqPasswd: bool, autoselect: bool)
    | Users(users: seq<User>)
    | Pools
    | Status(granted: bool)

  /** What the user of a greeter may do: edit the login or leave it, click a session, or ask
      to be let in. */
  datatype Action =
    | Edit
    | GuessFor(user: string)
    | Click(k: nat)
    | Submit(host: string, password: string)

  function Fresh(id: nat): Greeter {
    Greeter(id, [], [], None, false, 0, [], 0, false, false, true, false)
  }

  // ---------- choosing a session ----------

  function Head<T>(l: seq<T>): Option<T> {
    if l == [] then None else Some(l[0])
  }

  function Names(l: seq<Session>): seq<string> {
    seq(|l|, i requires 0 <= i < |l| => l[i].name)
  }

  /** The first session of that name, or the length of the list. */
  function Named(l: seq<Session>, name: string): (k: nat)
    ensures k <= |l| && (k < |l| ==> l[k].name == name)
  {
    First(Names(l), name)
  }

  /** The session with that name, or the head of the list. */
  function Pick(l: seq<Session>, name: Option<string>): Option<Session> {
    if name.Some? && Named(l, name.value) < |l| then Some(l[Named(l, name.value)]) else Head(l)
  }

  /** A choice always comes from the list, there is one unless the list is empty, and a name
      that the list has is the name that is chosen. */
  lemma PickFromList(l: seq<Session>, name: Option<string>)
    ensures Pick(l, name).Some? <==> l != []
    ensures Pick(l, name).Some? ==> Pick(l, name).value in l
    ensures
      if name.Some? && exists i :: 0 <= i < |l| && l[i].name == name.value
      then Pick(l, name).Some? && Pick(l, name).value.name == name.value
      else Pick(l, name) == if l == [] then None else Some(l[0])
  {
    if name.Some? && exists i :: 0 <= i < |l| && l[i].name == name.value {
      var i :| 0 <= i < |l| && l[i].name == name.value;
      FirstFinds(Names(l), name.value, i);
    }
  }

  function Logins(users: seq<User>): seq<string> {
    seq(|users|, i requires 0 <= i < |users| => users[i].login)
  }

  /** The session the named user is remembered with. */
  function Remembered(users: seq<User>, login: string): Option<string> {
    var k := First(Logins(users), login);
    if k < |users| then users[k].session else None
  }

  function SessionSet(g: Greeter, name: Option<string>): Greeter {
    g.(session := Pick(g.xsessions, name))
  }

  function Guess(g: Greeter, user: string): Greeter {
    SessionSet(g, Remembered(g.users, user))
  }

  // ---------- reactions ----------

  function OnXsessions(g: Greeter, l: seq<Session>): Greeter {
    g.(session := Head(l), xsessions := l)
  }

  function OnUsers(g: Greeter, us: seq<User>): Greeter {
    var h := g.(users := us);
    if us != [] && g.autoselect then Guess(h, us[0].login) else h
  }

  function Without(l: seq<nat>, x: nat): seq<nat> {
    if l == [] then [] else if l[0] == x then l[1..] else [l[0]] + Without(l[1..], x)
  }

  /** An answer: the first registered callback stops the waiting and unregisters. */
  function OnStatus(g: Greeter, granted: bool): Greeter {
    var h := if g.authList != [] && g.waiting
             then g.(waiting := false, auth := 0, authList := Without(g.authList, g.auth), error := g.error || !granted)
             else g;
    h.(exited := g.exited || granted)
  }

  function React(g: Greeter, m: Msg): Greeter {
    match m
    case Xsessions(l) => OnXsessions(g, l)
    case Users(us) => OnUsers(g, us)
    case Conf(r, a) => g.(reqPasswd := r, autoselect := a)
    case Status(granted) => OnStatus(g, granted)
    case _ => g
  }

  /** Whether a request passes the greeter's checks. */
  predicate Complete(g: Greeter, host: string, password: string) {
    host != "" && (g.reqPasswd ==> password != "") && g.session.Some? && g.session.value.name != ""
  }

  function Submitted(g: Greeter, host: string, password: string): (Greeter, Option<Auth>) {
    if !Complete(g, host, password) then (g.(error := true), None)
    else
      var h := if g.auth == 0 then g.(auth := g.made + 1, authList := g.authList + [g.made + 1], made := g.made + 1)
        else g;
      (h.(waiting := true), Some(Auth(g.id, host, password, g.session.value.name)))
  }

  function Do(g: Greeter, a: Action): (Greeter, Option<Auth>) {
    match a
    case Edit => (g.(error := false), None)
    case GuessFor(user) => (Guess(g, user), None)
    case Click(k) => (if k < |g.xsessions| then g.(session := Some(g.xsessions[k])) else g, None)
    case Submit(host, password) => Submitted(g, host, password)
  }

  // ---------- what every greeter keeps ----------

  /** Waiting, having a callback, and having exactly that one registered, are one thing. */
  ghost predicate Handshake(g: Greeter) {
    && (g.waiting <==> g.auth != 0)
    && g.authList == (if g.auth == 0 then [] else [g.auth])
    && g.auth <= g.made
  }

  /** The chosen session is in the list, and there is one unless the list is empty. */
  ghost predicate Chosen(g: Greeter) {
    (g.session.Some? <==> g.xsessions != []) && (g.session.Some? ==> g.session.value in g.xsessions)
  }

  /** What every reaction keeps and what the messages change. */
  ghost predicate Reacted(g: Greeter, m: Msg, h: Greeter) {
    && Handshake(h) && Chosen(h) && h.id == g.id
    && h.waiting == (g.waiting && !m.Status?)
    && h.xsessions == (if m.Xsessions? then m.list else g.xsessions)
    && (h.exited <==> g.exited || m == Status(true))
    && h.users == (if m.Users? then m.users else g.users)
    && h.reqPasswd == (if m.Conf? then m.reqPasswd else g.reqPasswd)
    && h.autoselect == (if m.Conf? then m.autoselect else g.autoselect)
    && (h.error <==> g.error || (m == Status(false) && g.waiting))
    && (m.Xsessions? && m.list != [] ==> h.session == Some(m.list[0]))
    && (!m.Xsessions? && !(m.Users? && m.users != [] && g.autoselect) ==> h.session == g.session)
  }

  lemma StatusKeeps(g: Greeter, granted: bool)
    requires Handshake(g) && Chosen(g)
    ensures Reacted(g, Status(granted), OnStatus(g, granted))
  {
    if g.authList != [] { assert Without(g.authList, g.auth) == []; }
  }

  lemma UsersKeep(g: Greeter, us: seq<User>)
    requires Handshake(g) && Chosen(g)
    ensures Reacted(g, Users(us), OnUsers(g, us))
  {
    if us != [] {
      GuessKeeps(g.(users := us), us[0].login);
      hide Handshake, Chosen, Pick, Remembered;
    }
  }

  lemma GuessKeeps(g: Greeter, user: string)
    requires Handshake(g)
    ensures Handshake(Guess(g, user)) && Chosen(Guess(g, user))
    ensures Guess(g, user) == g.(session := Guess(g, user).session)
  {
    PickFromList(g.xsessions, Remembered(g.users, user));
    hide Pick, Remembered;
  }

  lemma ReactKeeps(g: Greeter, m: Msg)
    requires Handshake(g) && Chosen(g)
    ensures Reacted(g, m, React(g, m))
  {
    match m
    case Status(granted) => StatusKeeps(g, granted);
    case Users(us) => UsersKeep(g, us);
    case Xsessions(l) => XsessionsKeep(g, l);
    case _ => hide OnStatus, OnUsers, OnXsessions, Handshake, Chosen;
  }

  lemma XsessionsKeep(g: Greeter, l: seq<Session>)
    requires Handshake(g)
    ensures Reacted(g, Xsessions(l), OnXsessions(g, l))
  {
  }

  lemma DoKeeps(g: Greeter, a: Action)
    requires Handshake(g) && Chosen(g)
    ensures
      var (h, sent) := Do(g, a);
      && Handshake(h) && Chosen(h) && h.xsessions == g.xsessions && h.id == g.id && h.exited == g.exited
      && h.users == g.users && h.reqPasswd == g.reqPasswd && h.autoselect == g.autoselect
      && (sent.Some? ==> h.waiting && Choice(g.xsessions, sent.value.session) && sent.value.id == g.id)
      && (sent.None? ==> h.waiting == g.waiting)
  {
    match a
    case GuessFor(user) => GuessKeeps(g, user); hide Guess, Handshake, Chosen;
    case Submit(host, password) => SubmitKeeps(g, host, password); hide Submitted, Handshake, Chosen, Choice;
    case _ => hide Guess, Submitted;
  }

  lemma SubmitKeeps(g: Greeter, host: string, password: string)
    requires Handshake(g) && Chosen(g)
    ensures
      var (h, sent) := Submitted(g, host, password);
      && Handshake(h) && Chosen(h) && h.xsessions == g.xsessions && h.id == g.id && h.exited == g.exited
      && h.users == g.users && h.reqPasswd == g.reqPasswd && h.autoselect == g.autoselect
      && (sent.Some? ==> h.waiting && Choice(g.xsessions, sent.value.session) && sent.value.id == g.id)
      && (sent.None? ==> h.waiting == g.waiting)
  {
  }

  /** A request is sent exactly when there is a login, a password if one is required, and a
      chosen session with a name; it carries the seat, the login and the password as typed, and
      the name that is chosen. Otherwise an error is shown and nothing else happens. */
  lemma SubmitSends(g: Greeter, host: string, password: string)
    ensures
      var (h, sent) := Do(g, Submit(host, password));
      && (sent.Some? <==>
            host != "" && (g.reqPasswd ==> password != "") && g.session.Some? && g.session.value.name != "")
      && (sent.Some? ==>
            && sent.value.login == host && sent.value.password == password
            && sent.value.id == g.id && sent.value.session == g.session.value.name && h.error == g.error)
      && (sent.None? ==> h == g.(error := true))
  {
  }

  /** A click chooses the session clicked, and editing takes an error away; neither sends. */
  lemma ClickChooses(g: Greeter, k: nat)
    requires k < |g.xsessions|
    ensures Do(g, Click(k)) == (g.(session := Some(g.xsessions[k])), None)
    ensures Do(g, Edit) == (g.(error := false), None)
  {
  }

  /** A guess chooses the session that the first user of that login is remembered with, when
      the list has it, and the first of the list when it does not, or there is no such user. */
  lemma GuessChooses(g: Greeter, user: string, k: nat)
    requires k <= |g.users| && (k < |g.users| ==> g.users[k].login == user)
    requires forall i :: 0 <= i < k ==> g.users[i].login != user
    ensures
      var h := Do(g, GuessFor(user)).0;
      if k < |g.users| && g.users[k].session.Some?
         && exists i :: 0 <= i < |g.xsessions| && g.xsessions[i].name == g.users[k].session.value
      then h.session.Some? && h.session.value.name == g.users[k].session.value
      else h.session == if g.xsessions == [] then None else Some(g.xsessions[0])
  {
    FirstIs(Logins(g.users), user, k);
    PickFromList(g.xsessions, Remembered(g.users, user));
  }

  /** A name that a session of the list has, and not an empty one. */
  ghost predicate Choice(l: seq<Session>, name: string) {
    name != "" && exists i :: 0 <= i < |l| && l[i].name == name
  }
}
