/** The daemon's handling of an authentication request. */
module Login {
  import opened Wrappers
  import opened PamSpec
  import opened LoginSpec
  import Pam
  import Catalogue
  import Text

  class Server {
    const pams: Pam.Pams
    const catalogue: Catalogue.SessionList
    const vts: seq<nat>
    const homes: map<string, string>
    const scripts: Catalogue.Scripts
    var pids: seq<nat>   // the recorded session of each seat, 0 for none

    ghost function Surroundings(): World
      reads this, catalogue
    {
      World(vts, homes, catalogue.xsessions, scripts)
    }

    ghost predicate Valid()
      reads this, pams
    {
      |pams.pams| == |vts| == |pids|
    }

    constructor (vts: seq<nat>, homes: map<string, string>, scripts: Catalogue.Scripts,
                 catalogue: Catalogue.SessionList)
      ensures Valid() && pams.Now() == Boot(|vts|) && this.catalogue == catalogue
      ensures this.vts == vts && this.homes == homes && this.scripts == scripts
    {
      this.vts, this.homes, this.scripts, this.catalogue := vts, homes, scripts, catalogue;
      pids := seq(|vts|, _ => 0);
      pams := new Pam.Pams(|vts|);
    }

    /** Begin a transaction and authenticate; a failed start is noticed only by the library
        refusing the calls that follow. */
    method Authenticate(id: nat, login: string, password: string, w: Answers) returns (auth: bool)
      requires Valid() && id < |vts|
      modifies pams
      ensures Valid() && auth == Granted(w) && HasRecord(pams.Now(), id)
      ensures
        var t := AfterStart(old(pams.Now()), id, login, "tty" + Text.Decimal(vts[id]), w.started);
        HasRecord(t, id) && pams.Now() == AfterAuthenticate(AfterPasswdSet(t, id, password), id, w.verdict)
    {
      var r := pams.Start(id, "tty" + Text.Decimal(vts[id]), login, w.started);
      r := pams.PasswdSet(id, password);
      auth := r == 0;
      if auth {
        r := pams.Authenticate(id, w.verdict);
        auth := r == 0;
      }
    }

    /** The account behind the transaction's user. */
    method SessionOpen(id: nat, w: Answers) returns (user: Option<string>)
      requires Valid() && HasRecord(pams.Now(), id) && (w.user.Some? ==> w.userResult == PAM_SUCCESS)
      modifies pams
      ensures pams.Now() == AfterGetUser(old(pams.Now()), id, w.userResult, w.user)
      ensures user == if w.user.Some? && w.user.value in homes then w.user else None
    {
      var name := pams.ItemGetUser(id, w.userResult, w.user);
      if name.Some? && name.value in homes {
        return name;
      }
      return None;
    }

    /** Fork the session; the parent records its pid. */
    method SessionRun(id: nat, user: string, command: string, wayland: bool, forked: bool, pid: nat)
      requires Valid() && id < |vts|
      modifies this, pams
      ensures Valid()
      ensures pams.pams == old(pams.pams)
      ensures pams.log == if forked then old(pams.log) + [Run(id, user, command, wayland)] else old(pams.log)
      ensures pids == if forked then old(pids)[id := pid] else old(pids)
    {
      if forked {
        pams.log := pams.log + [Run(id, user, command, wayland)];
        pids := pids[id := pid];
      }
    }

    /** Open the session the user asked for. */
    method SessionLogin(a: Auth, w: Answers, pid: nat) returns (started: bool)
      requires Valid() && HasRecord(pams.Now(), a.id) && (w.user.Some? ==> w.userResult == PAM_SUCCESS)
      modifies this, pams
      ensures Valid()
      ensures pams.Now() == AfterLogin(old(pams.Now()), a, w, old(Surroundings()))
      ensures pids == if Launches(a, w, old(Surroundings())) then old(pids)[a.id := pid] else old(pids)
    {
      var user := SessionOpen(a.id, w);
      if user.None? {
        return false;
      }
      pams.log := pams.log + [Check(user.value, a.session)];
      var cmd := catalogue.FindCommand(homes[user.value], a.session, scripts);
      if cmd.None? {
        return false;
      }
      var wayland := catalogue.IsWayland(a.session);
      Kind(a.session, homes[user.value]);
      SessionRun(a.id, user.value, cmd.value, wayland, w.forked, pid);
      return true;
    }

    lemma Kind(session: Option<string>, home: string)
      ensures
        var k := Catalogue.Position(catalogue.xsessions, session);
        Catalogue.Chosen(catalogue.xsessions, session, home, scripts).1 ==
          (k < |catalogue.xsessions| && catalogue.xsessions[k].wayland)
    {
    }

    /** Handle a request and answer it, a denial with the collected text. */
    method ReadAuth(a: Auth, w: Answers, pid: nat) returns (granted: bool, msgs: string)
      requires Valid() && Between(pams.Now()) && Possible(pams.Now(), a, w)
      modifies this, pams
      ensures Valid() && Between(pams.Now())
      ensures pams.Now() == AfterAuth(old(pams.Now()), a, w, old(Surroundings()))
      ensures pids == if Granted(w) && Launches(a, w, old(Surroundings())) then old(pids)[a.id := pid] else old(pids)
      ensures granted == Granted(w)
      ensures (!granted ==> Handle(pams.Now(), a.id) == 0 && msgs == Collect("", Said(w.verdict)))
    {
      hide Between, Possible, AfterLogin, Collect, Ended, AfterStart, AfterAuthenticate, Launches;
      UserFound(pams.Now(), a, w);
      AuthKeeps(pams.Now(), a, w, Surroundings());
      if !Granted(w) { DeniedText(pams.Now(), a, w, Surroundings()); }
      pams.log := pams.log + [Asked(a.id, a.password)];
      granted := Authenticate(a.id, a.login, a.password, w);
      msgs := "";
      if granted {
        var started := SessionLogin(a, w, pid);
      } else {
        msgs := pams.pams[a.id].value.msgs;
        pams.End(a.id);
      }
      pams.log := pams.log + [Status(a.id, granted, msgs)];
    }
  }
}
