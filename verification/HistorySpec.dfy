/** What the login history means: the list that is shown and saved, the map it stands for,
    and what a run of session requests makes of both. */
module HistorySpec {
  import opened Wrappers
  import opened Lists

  /** One remembered user, as saved: login, session, and whether sessions are remembered. */
  datatype Saved = Saved(login: string, session: Option<string>, remember: bool)

  /** One history check: a user asks for a session, or for none. */
  datatype Request = Request(login: string, session: Option<string>)

  type History = seq<Saved>

  ghost predicate Distinct(h: History) {
    forall i, j :: 0 <= i < j < |h| ==> h[i].login != h[j].login
  }

  function Logged(h: History): seq<string> {
    seq(|h|, i requires 0 <= i < |h| => h[i].login)
  }

  /** The first entry of a login, or the length of the list. */
  function Find(h: History, login: string): (k: nat)
    ensures k <= |h| && (k < |h| ==> h[k].login == login)
  {
    First(Logged(h), login)
  }

  // ---------- one check ----------

  /** An entry whose session was requested once more. An entry without a session never gets
      one, and a null request takes the session away. */
  function Updated(e: Saved, session: Option<string>): Saved {
    if !e.remember || e.session.None? then e else e.(session := session)
  }

  function After(h: History, r: Request): History {
    var k := Find(h, r.login);
    if k == |h| then h + [Saved(r.login, r.session, true)] else h[k := Updated(h[k], r.session)]
  }

  /** Whether the check asks for the history to be written. */
  predicate Dirties(h: History, r: Request) {
    var k := Find(h, r.login);
    k == |h| || (h[k].remember && h[k].session.Some? && r.session.Some? && h[k].session != r.session)
  }

  /** Whether the check takes a remembered session away. */
  predicate Erases(h: History, r: Request) {
    var k := Find(h, r.login);
    k < |h| && h[k].remember && h[k].session.Some? && r.session.None?
  }

  lemma AfterKeeps(h: History, r: Request)
    requires Distinct(h)
    ensures Distinct(After(h, r)) && |h| <= |After(h, r)|
    ensures forall i :: 0 <= i < |h| ==>
      After(h, r)[i] == if h[i].login == r.login then Updated(h[i], r.session) else h[i]
  {
    var k := Find(h, r.login);
    forall i | 0 <= i < |h| && i != k ensures h[i].login != r.login {
      if i < k { FirstSkips(Logged(h), r.login, i); }
    }
  }

  /** A login that the history does not have is remembered at its end, with the session asked for. */
  lemma NewLogin(h: History, r: Request)
    requires forall i :: 0 <= i < |h| ==> h[i].login != r.login
    ensures After(h, r) == h + [Saved(r.login, r.session, true)] && Dirties(h, r) && !Erases(h, r)
  {
    FirstIs(Logged(h), r.login, |h|);
  }

  /** A check asks for the history to be written exactly when it adds an entry or gives one
      another session, and erases exactly when it takes a session away. */
  lemma DirtiesExactly(h: History, r: Request)
    requires Distinct(h)
    ensures
      var g := After(h, r);
      && |h| <= |g|
      && (Dirties(h, r) <==>
            |g| > |h| || exists i :: 0 <= i < |h| && g[i].session != h[i].session && g[i].session.Some?)
      && (Erases(h, r) <==> exists i :: 0 <= i < |h| && g[i].session != h[i].session && g[i].session.None?)
  {
    AfterKeeps(h, r);
    var k, g := Find(h, r.login), After(h, r);
    hide Distinct;
    if k < |h| {
      assert g[k] == Updated(h[k], r.session);
      assert forall i :: 0 <= i < |h| && i != k ==> g[i] == h[i];
    }
  }

  // ---------- runs of checks ----------

  function Ran(h: History, rs: seq<Request>): History {
    if rs == [] then h else After(Ran(h, rs[..|rs| - 1]), rs[|rs| - 1])
  }

  predicate Dirty(h: History, rs: seq<Request>) {
    rs != [] && (Dirty(h, rs[..|rs| - 1]) || Dirties(Ran(h, rs[..|rs| - 1]), rs[|rs| - 1]))
  }

  predicate Erased(h: History, rs: seq<Request>) {
    rs != [] && (Erased(h, rs[..|rs| - 1]) || Erases(Ran(h, rs[..|rs| - 1]), rs[|rs| - 1]))
  }

  lemma RanNone(h: History)
    ensures Ran(h, []) == h && !Dirty(h, [])
  {
  }

  lemma RanAppend(h: History, rs: seq<Request>, r: Request)
    ensures Ran(h, rs + [r]) == After(Ran(h, rs), r)
    ensures Dirty(h, rs + [r]) == (Dirty(h, rs) || Dirties(Ran(h, rs), r))
  {
    var qs := rs + [r];
    assert qs[..|qs| - 1] == rs;
  }

  // ---------- the map ----------

  type Memory = map<string, (Option<string>, bool)>

  function Memo(e: Saved): (Option<string>, bool) {
    (e.session, e.remember)
  }

  /** What each login of the list is remembered with. */
  function MapOf(h: History): Memory {
    map login | login in Logged(h) :: var k := Find(h, login); if k < |h| then Memo(h[k]) else (None, false)
  }

  /** The check as a map update. */
  function MapAfter(m: Memory, r: Request): Memory {
    if r.login !in m then m[r.login := (r.session, true)]
    else if m[r.login].1 && m[r.login].0.Some? then m[r.login := (r.session, true)]
    else m
  }

  function MapRan(m: Memory, rs: seq<Request>): Memory {
    if rs == [] then m else MapAfter(MapRan(m, rs[..|rs| - 1]), rs[|rs| - 1])
  }

  lemma MapHolds(h: History, i: nat)
    requires Distinct(h) && i < |h|
    ensures h[i].login in MapOf(h) && MapOf(h)[h[i].login] == Memo(h[i])
  {
    FirstIs(Logged(h), h[i].login, i);
    assert Logged(h)[i] == h[i].login;
  }

  ghost predicate Holds(h: History, m: Memory, i: nat)
    requires i < |h|
  {
    h[i].login in m && m[h[i].login] == Memo(h[i])
  }

  /** The map of a list is the only one that holds its entries and nothing else. */
  lemma MapIs(h: History, m: Memory)
    requires Distinct(h) && (forall i :: 0 <= i < |h| ==> Holds(h, m, i)) && m.Keys <= set login | login in Logged(h)
    ensures MapOf(h) == m
  {
    hide Memo;
    forall login | login in MapOf(h) ensures login in m && m[login] == MapOf(h)[login] {
      var i :| 0 <= i < |h| && Logged(h)[i] == login;
      assert Holds(h, m, i);
      MapHolds(h, i);
    }
    assert MapOf(h).Keys == m.Keys;
  }

  /** The list agrees with the map update, step by step. */
  lemma AfterRefines(h: History, r: Request)
    requires Distinct(h)
    ensures MapOf(After(h, r)) == MapAfter(MapOf(h), r)
  {
    hide MapOf, Distinct;
    var k, g, m := Find(h, r.login), After(h, r), MapAfter(MapOf(h), r);
    AfterKeeps(h, r);
    MapKeys(h);
    if k < |h| { MapHolds(h, k); } else { NotLogged(h, r.login); }
    forall i | 0 <= i < |g| ensures Holds(g, m, i) {
      if i < |h| { MapHolds(h, i); }
    }
    forall login | login in m ensures login in Logged(g) {
      if login == r.login {
        assert Logged(g)[k] == login;
      } else {
        var i :| 0 <= i < |h| && Logged(h)[i] == login;
        assert Logged(g)[i] == login;
      }
    }
    MapIs(g, m);
  }

  lemma MapKeys(h: History)
    ensures forall login :: login in MapOf(h) <==> login in Logged(h)
  {
  }

  lemma NotLogged(h: History, login: string)
    requires Find(h, login) == |h|
    ensures login !in Logged(h)
  {
    forall i | 0 <= i < |h| ensures Logged(h)[i] != login { FirstSkips(Logged(h), login, i); }
  }

  /** The entries of h are the first of g, in their places, and remember as they did. */
  ghost predicate Extends(h: History, g: History) {
    |h| <= |g| && forall i :: 0 <= i < |h| ==> g[i].login == h[i].login && g[i].remember == h[i].remember
  }

  /** No entry differs whose login is not among those of the requests. */
  ghost predicate OnlyAsked(h: History, g: History, rs: seq<Request>) {
    |h| <= |g| && forall i :: 0 <= i < |h| && g[i] != h[i] ==> exists j :: 0 <= j < |rs| && rs[j].login == h[i].login
  }

  lemma StepExtends(h: History, g: History, rs: seq<Request>, r: Request)
    requires Distinct(g) && Extends(h, g) && OnlyAsked(h, g, rs)
    ensures Extends(h, After(g, r)) && OnlyAsked(h, After(g, r), rs + [r])
  {
    AfterKeeps(g, r);
    hide After, Distinct;
    var f, qs := After(g, r), rs + [r];
    forall i | 0 <= i < |h| && f[i] != h[i] ensures exists j :: 0 <= j < |qs| && qs[j].login == h[i].login {
      if g[i] != h[i] {
        var j :| 0 <= j < |rs| && rs[j].login == h[i].login;
        assert qs[j].login == h[i].login;
      } else {
        assert qs[|rs|].login == h[i].login;
      }
    }
  }

  /** Over any run of checks the list is the map: logins stay distinct, entries keep their
      places, and only the logins that were checked can change. */
  lemma {:induction false} RunRefines(h: History, rs: seq<Request>)
    requires Distinct(h)
    ensures Distinct(Ran(h, rs)) && Extends(h, Ran(h, rs)) && OnlyAsked(h, Ran(h, rs), rs)
    ensures MapOf(Ran(h, rs)) == MapRan(MapOf(h), rs)
  {
    if rs != [] {
      hide Distinct, Extends, OnlyAsked, After, MapOf, MapAfter;
      var n := |rs| - 1;
      RunRefines(h, rs[..n]);
      AfterKeeps(Ran(h, rs[..n]), rs[n]);
      AfterRefines(Ran(h, rs[..n]), rs[n]);
      StepExtends(h, Ran(h, rs[..n]), rs[..n], rs[n]);
      assert rs[..n] + [rs[n]] == rs;
    }
  }

  /** The requests of one user. */
  function Of(rs: seq<Request>, login: string): seq<Option<string>> {
    if rs == [] then []
    else Of(rs[..|rs| - 1], login) + if rs[|rs| - 1].login == login then [rs[|rs| - 1].session] else []
  }

  /** What an entry shows after its user's requests: nothing once a request was null, else
      the last request. */
  function Recalled(e: Saved, qs: seq<Option<string>>): Option<string> {
    if !e.remember || e.session.None? || qs == [] then e.session
    else if None in qs then None
    else qs[|qs| - 1]
  }

  /** An entry's session after any run depends on that user's requests alone. */
  lemma {:induction false} RunRecalls(h: History, rs: seq<Request>, i: nat)
    requires Distinct(h) && i < |h|
    ensures i < |Ran(h, rs)| && Ran(h, rs)[i] == h[i].(session := Recalled(h[i], Of(rs, h[i].login)))
  {
    if rs != [] {
      hide Distinct, OnlyAsked, After, MapOf, MapRan, Recalled, Updated;
      var n := |rs| - 1;
      RunRecalls(h, rs[..n], i);
      RunRefines(h, rs[..n]);
      AfterKeeps(Ran(h, rs[..n]), rs[n]);
      RecallMore(h[i], Of(rs[..n], h[i].login), rs[n].session);
    }
  }

  lemma RecallMore(e: Saved, qs: seq<Option<string>>, q: Option<string>)
    ensures Updated(e.(session := Recalled(e, qs)), q) == e.(session := Recalled(e, qs + [q]))
    ensures qs + [] == qs
  {
  }

  // ---------- persistence ----------

  /** Losing a session that the write-back flag does not notice. */
  ghost predicate OnlyErased(h: History, g: History) {
    |h| == |g| && forall i :: 0 <= i < |h| ==> g[i] == h[i] || g[i] == h[i].(session := None)
  }

  lemma {:induction false} CleanRun(h: History, rs: seq<Request>)
    requires Distinct(h) && !Dirty(h, rs)
    ensures OnlyErased(h, Ran(h, rs))
    ensures Ran(h, rs) == h <==> !Erased(h, rs)
  {
    if rs != [] {
      var n := |rs| - 1;
      var g := Ran(h, rs[..n]);
      hide Distinct, MapOf, MapRan, OnlyAsked;
      CleanRun(h, rs[..n]);
      RunRefines(h, rs[..n]);
      AfterKeeps(g, rs[n]);
      var k := Find(g, rs[n].login);
      if Erases(g, rs[n]) {
        assert After(g, rs[n])[k].session.None? && h[k].session.Some?;
      } else {
        assert Updated(g[k], rs[n].session) == g[k];
        assert After(g, rs[n]) == g;
      }
    }
  }

  /** What the file holds after shutdown. */
  function Kept(h: History, rs: seq<Request>): History {
    if Dirty(h, rs) then Ran(h, rs) else h
  }

  /** The next start reads back the final history, unless a session was taken away and
      nothing else was written: then, and only then, it reads the old one. */
  lemma KeptIsFinal(h: History, rs: seq<Request>)
    requires Distinct(h)
    ensures Kept(h, rs) == Ran(h, rs) <==> Dirty(h, rs) || !Erased(h, rs)
  {
    if !Dirty(h, rs) { CleanRun(h, rs); }
  }

  lemma {:induction false} NamedRunErasesNothing(h: History, rs: seq<Request>)
    requires forall j :: 0 <= j < |rs| ==> rs[j].session.Some?
    ensures !Erased(h, rs)
  {
    if rs != [] { NamedRunErasesNothing(h, rs[..|rs| - 1]); }
  }

  /** With a session named in every request nothing is lost. */
  lemma NamedRunIsKept(h: History, rs: seq<Request>)
    requires Distinct(h) && forall j :: 0 <= j < |rs| ==> rs[j].session.Some?
    ensures Kept(h, rs) == Ran(h, rs) && (Dirty(h, rs) || Ran(h, rs) == h)
  {
    NamedRunErasesNothing(h, rs);
    KeptIsFinal(h, rs);
  }

  /** Erasures alone are lost: every session that was taken away comes back at the next start,
      and that happens in no other run. */
  lemma ErasureIsLost(h: History, rs: seq<Request>)
    requires Distinct(h)
    ensures Kept(h, rs) != Ran(h, rs) <==> !Dirty(h, rs) && Erased(h, rs)
    ensures Kept(h, rs) != Ran(h, rs) ==> Kept(h, rs) == h && OnlyErased(h, Ran(h, rs))
  {
    KeptIsFinal(h, rs);
    if !Dirty(h, rs) { CleanRun(h, rs); }
  }

  /** For one: a single null request. */
  lemma ErasureWitness()
    ensures
      var h := [Saved("ann", Some("Xfce"), true)];
      var rs := [Request("ann", None)];
      Ran(h, rs) == [Saved("ann", None, true)] && Kept(h, rs) == h
  {
    var h := [Saved("ann", Some("Xfce"), true)];
    FirstIs(Logged(h), "ann", 0);
    assert Ran(h, []) == h;
    assert [Request("ann", None)][..0] == [];
  }

  // ---------- the users the greeters are offered ----------

  /** An accepted user shows the history's entry when it had one at start-up, and otherwise
      an entry of its own that no check ever changes. */
  function Offered(start: History, now: History, login: string): Saved {
    var k := Find(start, login);
    if k < |start| && k < |now| then now[k] else Saved(login, None, true)
  }

  /** What a user is offered after any run of checks. */
  lemma OfferedAfterRun(h: History, rs: seq<Request>, login: string)
    requires Distinct(h)
    ensures
      var now := Ran(h, rs);
      var k := Find(h, login);
      Offered(h, now, login) ==
        if k < |h| then h[k].(session := Recalled(h[k], Of(rs, login))) else Saved(login, None, true)
  {
    if Find(h, login) < |h| { RunRecalls(h, rs, Find(h, login)); }
  }
}
