/** The greeter's code: its login form, its lists, and its end of the connection. */
module Greeter {
  import opened Wrappers
  import opened Lists
  import opened GreeterSpec

  class Client {
    const id: nat
    var xsessions: seq<Session>
    var users: seq<User>
    var session: Option<Session>
    var waiting: bool
    var auth: nat
    var authList: seq<nat>
    var made: nat
    var error: bool
    var reqPasswd: bool
    var autoselect: bool
    var exited: bool

    ghost function Now(): GreeterSpec.Greeter
      reads this
    {
      GreeterSpec.Greeter(id, xsessions, users, session, waiting, auth, authList, made, error, reqPasswd,
                          autoselect, exited)
    }

    constructor (id: nat)
      ensures Now() == Fresh(id)
    {
      this.id := id;
      xsessions, users, session, waiting, auth, authList, made := [], [], None, false, 0, [], 0;
      error, reqPasswd, autoselect, exited := false, false, true, false;
    }

    /** Select the session of that name, or the first one. */
    method SetSession(name: Option<string>)
      modifies this
      ensures Now() == SessionSet(old(Now()), name)
    {
      var found := false;
      var k := 0;
      if name.Some? {
        while k < |xsessions|
          invariant k <= |xsessions| && Now() == old(Now())
          invariant forall i :: 0 <= i < k ==> xsessions[i].name != name.value
        {
          if xsessions[k].name == name.value {
            break;
          }
          k := k + 1;
        }
        FirstIs(Names(xsessions), name.value, k);
        found := k < |xsessions|;
      }
      if found {
        session := Some(xsessions[k]);
      } else if xsessions != [] {
        session := Some(xsessions[0]);
      } else {
        session := None;
      }
    }

    /** Select the session the user is remembered with. */
    method XsessionGuess(user: string)
      modifies this
      ensures Now() == Guess(old(Now()), user)
    {
      for k := 0 to |users|
        invariant Now() == old(Now())
        invariant forall i :: 0 <= i < k ==> users[i].login != user
      {
        if users[k].login == user {
          FirstIs(Logins(users), user, k);
          SetSession(users[k].session);
          return;
        }
      }
      FirstIs(Logins(users), user, |users|);
      SetSession(None);
    }

    method XsessionsSet(l: seq<Session>)
      modifies this
      ensures Now() == OnXsessions(old(Now()), l)
    {
      session := if l == [] then None else Some(l[0]);
      xsessions := l;
    }

    /** Take over the users; when configured, the first of them is filled in. */
    method UsersSet(us: seq<User>)
      modifies this
      ensures Now() == OnUsers(old(Now()), us)
    {
      users := us;
      if us != [] && autoselect {
        XsessionGuess(us[0].login);
      }
    }

    method AuthCbAdd() returns (cb: nat)
      modifies this
      ensures cb == old(made) + 1
      ensures Now() == old(Now()).(authList := old(authList) + [cb], made := cb)
    {
      made := made + 1;
      cb := made;
      authList := authList + [cb];
    }

    method AuthCbDel(cb: nat)
      modifies this
      ensures Now() == old(Now()).(authList := Without(old(authList), cb))
    {
      authList := Without(authList, cb);
    }

    /** The login form's answer callback. */
    method AuthCb(granted: bool)
      modifies this
      ensures Now() ==
        if old(waiting)
        then old(Now()).(waiting := false, auth := 0, authList := Without(old(authList), old(auth)),
                              error := old(error) || !granted)
        else old(Now())
    {
      if waiting {
        waiting := false;
        AuthCbDel(auth);
        auth := 0;
        if !granted {
          error := true;
        }
      }
    }

    /** Call every registered callback, though each may unregister itself, then leave when
        access was granted. */
    method ConnectAuth(granted: bool)
      modifies this
      ensures Now() == OnStatus(old(Now()), granted)
    {
      var l := authList;
      while l != []
        invariant Now() == if l == authList == old(authList) then old(Now())
          else OnStatus(old(Now()), granted).(exited := old(exited))
        invariant l != old(authList) || authList == old(authList)
        decreases |l|
      {
        l := l[1..];
        AuthCb(granted);
      }
      if granted {
        exited := true;
      }
    }

    method ReadCb(m: Msg)
      modifies this
      ensures Now() == React(old(Now()), m)
    {
      match m {
        case Status(granted) => ConnectAuth(granted);
        case Xsessions(l) => XsessionsSet(l);
        case Users(us) => UsersSet(us);
        case Conf(r, a) => reqPasswd, autoselect := r, a;
        case Pid =>
        case Actions =>
        case Pools =>
      }
    }

    /** Check the form and send a request. */
    method CheckAuth(host: string, password: string) returns (sent: Option<Auth>)
      modifies this
      ensures (Now(), sent) == Submitted(old(Now()), host, password)
    {
      if host == "" {
        error := true;
        return None;
      }
      if reqPasswd && password == "" {
        error := true;
        return None;
      }
      if session.None? || (session.Some? && session.value.name == "") {
        error := true;
        return None;
      }
      waiting := true;
      if auth == 0 {
        auth := AuthCbAdd();
      }
      return Some(Auth(id, host, password, session.value.name));
    }

    method Clicked(k: nat)
      requires k < |xsessions|
      modifies this
      ensures Now() == Do(old(Now()), Click(k)).0
    {
      session := Some(xsessions[k]);
    }

    method EntryChanged()
      modifies this
      ensures Now() == Do(old(Now()), Edit).0
    {
      if error {
        error := false;
      }
    }
  }
}
