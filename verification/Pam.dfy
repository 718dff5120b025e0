/** The wrappers around the PAM library, one record per seat. What the library answers is a
    parameter of each call. */
module Pam {
  import opened Wrappers
  import opened PamSpec
  import opened Text

  class Pams {
    var pams: seq<Option<PamSpec.Pam>>
    ghost var log: Log   // the library calls so far

    ghost function Now(): State
      reads this
    {
      State(pams, log)
    }

    constructor (count: nat)
      ensures Now() == Boot(count)
    {
      pams := seq(count, _ => None);
      log := [];
    }

    /** Report a result: 0 for success and 1 for anything else. */
    method ResultCheck(last: int) returns (r: int)
      ensures r == 0 <==> last == PAM_SUCCESS
    {
      r := if last == PAM_SUCCESS then 0 else 1;
    }

    method End(id: nat)
      requires HasRecord(Now(), id)
      modifies this
      ensures Now() == Ended(old(Now()), id)
    {
      var p := pams[id].value;
      log := log + [PamSpec.End(p.handle, p.last)];
      pams := pams[id := Some(p.(handle := 0, msgs := ""))];
    }

    method ItemSet(id: nat, kind: Item, value: string, result: int) returns (r: int)
      requires HasRecord(Now(), id)
      modifies this
      ensures Now() == Called(old(Now()), id, SetItem(Handle(old(Now()), id), kind, value, result), result)
      ensures r == 0 <==> result == PAM_SUCCESS
    {
      var p := pams[id].value;
      log := log + [SetItem(p.handle, kind, value, result)];
      pams := pams[id := Some(p.(last := result))];
      r := if result != PAM_SUCCESS then 1 else 0;
    }

    /** Begin a transaction, ending the seat's old one first. */
    method Start(id: nat, tty: string, user: string, a: Started) returns (r: int)
      requires id < |pams|
      modifies this
      ensures Now() == AfterStart(old(Now()), id, user, tty, a)
      ensures r == 0 <==> tty != "" && a.handle != 0 && a.tty == PAM_SUCCESS && a.ruser == PAM_SUCCESS
    {
      if tty == "" {
        return 1;
      }
      if pams[id].Some? && pams[id].value.handle != 0 {
        End(id);
      }
      pams := pams[id := Some(Blank(a.handle))];
      log := log + [PamSpec.Start(a.handle, id, user)];
      if a.handle == 0 {
        return 1;
      }
      var s := ItemSet(id, Tty, tty, a.tty);
      if s != 0 {
        return 1;
      }
      s := ItemSet(id, Ruser, user, a.ruser);
      if s != 0 {
        return 1;
      }
      return 0;
    }

    /** The conversation function: answer every hidden prompt with the password, and collect
        the informative texts. */
    method Conv(id: nat, msg: seq<Message>) returns (resp: seq<Option<string>>)
      requires HasRecord(Now(), id)
      modifies this
      ensures Now() == AfterConv(old(Now()), id, msg)
      ensures resp == Replies(old(pams)[id].value.passwd, msg)
    {
      resp := [];
      for i := 0 to |msg|
        invariant HasRecord(Now(), id) && log == old(log)
        invariant pams ==
          old(pams)[id := Some(old(pams)[id].value.(msgs := Collect(old(pams)[id].value.msgs, msg[..i])))]
        invariant |resp| == i && forall k :: 0 <= k < i ==>
          resp[k] == if msg[k].style == EchoOff then old(pams)[id].value.passwd else None
      {
        assert msg[..i + 1][..i] == msg[..i];
        var p := pams[id].value;
        match msg[i].style {
          case EchoOff => resp := resp + [p.passwd];
          case TextInfo =>
            resp := resp + [None];
            var text := p.msgs;
            if |text| > 1 {
              text := text + BREAK;
            } else {
              text := text + "";
            }
            pams := pams[id := Some(p.(msgs := text + msg[i].text))];
          case _ => resp := resp + [None];
        }
      }
      assert msg[..|msg|] == msg;
      assert resp == Replies(old(pams)[id].value.passwd, msg);
      log := log + [Converse(id, msg, resp)];
    }

    method PasswdSet(id: nat, passwd: string) returns (r: int)
      requires HasRecord(Now(), id)
      modifies this
      ensures r == 0 && Now() == AfterPasswdSet(old(Now()), id, passwd)
    {
      pams := pams[id := Some(pams[id].value.(passwd := Some(passwd)))];
      return 0;
    }

    /** Authenticate, then check the account; the library may converse during both. */
    method Authenticate(id: nat, v: Verdict) returns (r: int)
      requires HasRecord(Now(), id)
      modifies this
      ensures Now() == AfterAuthenticate(old(Now()), id, v)
      ensures r == 0 <==> Passes(v)
    {
      hide Collect, Replies;
      var replies := Conv(id, v.conv);
      pams := pams[id := Some(pams[id].value.(last := v.auth))];
      log := log + [PamSpec.Authenticate(pams[id].value.handle, v.auth)];
      r := ResultCheck(v.auth);
      if r != 0 {
        return 1;
      }
      replies := Conv(id, v.checkConv);
      pams := pams[id := Some(pams[id].value.(last := v.acct))];
      log := log + [AcctMgmt(pams[id].value.handle, v.acct)];
      r := ResultCheck(v.acct);
      if r != 0 {
        return 1;
      }
      return 0;
    }

    method SessionOpen(id: nat, cred: int, open: int, delete: int) returns (r: int)
      requires HasRecord(Now(), id)
      modifies this
      ensures Now() == AfterSessionOpen(old(Now()), id, cred, open, delete)
      ensures r == OpenReply(cred)
      ensures (r == 0 ==> open == PAM_SUCCESS) <==> (cred != PAM_SUCCESS || open == PAM_SUCCESS)
    {
      pams := pams[id := Some(pams[id].value.(last := cred))];
      log := log + [SetCred(pams[id].value.handle, false, cred)];
      r := ResultCheck(cred);
      if r != 0 {
        return 1;
      }
      pams := pams[id := Some(pams[id].value.(last := open))];
      log := log + [OpenSession(pams[id].value.handle, open)];
      if pams[id].value.last != PAM_SUCCESS {
        log := log + [SetCred(pams[id].value.handle, true, delete)];
        End(id);
      }
      pams := pams[id := Some(pams[id].value.(isOpened := true))];
      return 0;
    }

    method SessionClose(id: nat, close: int, cred: int)
      requires HasRecord(Now(), id)
      modifies this
      ensures Now() == AfterSessionClose(old(Now()), id, close, cred)
    {
      pams := pams[id := Some(pams[id].value.(last := close))];
      log := log + [CloseSession(pams[id].value.handle, close)];
      if pams[id].value.isOpened || pams[id].value.last != PAM_SUCCESS {
        pams := pams[id := Some(pams[id].value.(last := cred))];
        log := log + [SetCred(pams[id].value.handle, true, cred)];
        if pams[id].value.last != PAM_SUCCESS {
          End(id);
        }
      }
    }

    /** The user of the transaction, after whatever its modules made of it. */
    method ItemGetUser(id: nat, result: int, item: Option<string>) returns (data: Option<string>)
      requires HasRecord(Now(), id) && (item.Some? ==> result == PAM_SUCCESS)
      modifies this
      ensures Now() == AfterGetUser(old(Now()), id, result, item)
      ensures data == item
    {
      var p := pams[id].value;
      log := log + [GetUser(p.handle, result, item)];
      pams := pams[id := Some(p.(last := result))];
      if result != PAM_SUCCESS {
        End(id);
      }
      data := item;
    }

    /** Set a variable, when there are both a name and a value. */
    method EnvSet(id: nat, env: Option<string>, value: Option<string>, result: int) returns (r: int)
      requires HasRecord(Now(), id)
      modifies this
      ensures Now() ==
        if env.Some? && value.Some? then AfterPutEnv(old(Now()), id, EnvText(env.value, value.value), result)
          else old(Now())
      ensures r == 0 <==> env.Some? && value.Some? && result == PAM_SUCCESS
    {
      if env.None? || value.None? {
        return 1;
      }
      var buf := Snprintf(1024, env.value + "=" + value.value);
      var p := pams[id].value;
      log := log + [PutEnv(p.handle, buf, result)];
      pams := pams[id := Some(p.(last := result))];
      if result != PAM_SUCCESS {
        End(id);
        return 1;
      }
      return 0;
    }
  }
}
