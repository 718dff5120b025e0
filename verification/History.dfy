/** The daemon's history: two lists over login records in a heap of their own, some records
    on both lists and some on one. `calloc` and `free` are explicit, a record can be read or
    freed only while it is live, and every string in it is a counted reference. */
module History {
  import opened Wrappers
  import opened Text
  import opened Stringshare
  import opened HistorySpec
  import opened Lists
  import Strtok

  datatype Login = Login(login: Ptr, session: Ptr, imagePath: Ptr, imageGroup: Ptr, bgPath: Ptr, bgGroup: Ptr,
                         remember: bool)

  /** Records by address; a freed one is None. Addresses are not reused. */
  type Heap = seq<Option<Login>>

  /** A record as it is written to the history file. */
  datatype Stored = Stored(saved: Saved, imagePath: Option<string>, imageGroup: Option<string>,
                           bgPath: Option<string>, bgGroup: Option<string>)

  // ---------- string references held by records ----------

  function Held(r: Login): multiset<Ptr> {
    Ref(r.login) + Ref(r.session) + Ref(r.imagePath) + Ref(r.imageGroup) + Ref(r.bgPath) + Ref(r.bgGroup)
  }

  function HeldBy(slot: Option<Login>): multiset<Ptr> {
    if slot.Some? then Held(slot.value) else multiset{}
  }

  function Total(heap: Heap): multiset<Ptr> {
    if heap == [] then multiset{} else Total(heap[..|heap| - 1]) + HeldBy(heap[|heap| - 1])
  }

  predicate Live(heap: Heap, p: nat) {
    p < |heap| && heap[p].Some?
  }

  lemma {:induction false} TotalUpdate(heap: Heap, p: nat, slot: Option<Login>)
    requires p < |heap|
    ensures Total(heap[p := slot]) + HeldBy(heap[p]) == Total(heap) + HeldBy(slot)
  {
    hide HeldBy;
    var n := |heap| - 1;
    var g := heap[p := slot];
    if p == n {
      assert g[..n] == heap[..n];
    } else {
      TotalUpdate(heap[..n], p, slot);
      assert g[..n] == heap[..n][p := slot];
      Swap(Total(g[..n]), Total(heap[..n]), HeldBy(heap[p]), HeldBy(slot), HeldBy(heap[n]));
    }
  }

  lemma Swap(a: multiset<Ptr>, b: multiset<Ptr>, x: multiset<Ptr>, y: multiset<Ptr>, z: multiset<Ptr>)
    requires a + x == b + y
    ensures (a + z) + x == (b + z) + y
  {
    assert (a + z) + x == (a + x) + z;
    assert (b + z) + y == (b + y) + z;
  }

  lemma TotalAppend(heap: Heap, slot: Option<Login>)
    ensures Total(heap + [slot]) == Total(heap) + HeldBy(slot)
  {
    var g := heap + [slot];
    assert g[..|g| - 1] == heap;
  }

  lemma TotalHas(heap: Heap, p: nat)
    requires Live(heap, p)
    ensures Held(heap[p].value) <= Total(heap)
  {
    hide Held;
    TotalUpdate(heap, p, None);
    assert Total(heap[p := None]) + Held(heap[p].value) == Total(heap);
  }

  lemma {:induction false} AllFreed(heap: Heap)
    requires forall p :: 0 <= p < |heap| ==> heap[p].None?
    ensures Total(heap) == multiset{}
  {
    if heap != [] { AllFreed(heap[..|heap| - 1]); }
  }

  /** Every reference is accounted for: those of the live records, and `others`. */
  ghost predicate Owned(heap: Heap, pool: Pool, others: multiset<Ptr>) {
    Good(pool) && pool.refs == others + Total(heap)
  }

  // ---------- what records show ----------

  function At(heap: Heap, p: nat): Login {
    if Live(heap, p) then heap[p].value else Login(0, 0, 0, 0, 0, 0, false)
  }

  function Show(pool: Pool, r: Login): Saved {
    Saved(if r.login in pool.text then pool.text[r.login] else "", Str(pool, r.session), r.remember)
  }

  function Whole(pool: Pool, r: Login): Stored {
    Stored(Show(pool, r), Str(pool, r.imagePath), Str(pool, r.imageGroup), Str(pool, r.bgPath), Str(pool, r.bgGroup))
  }

  function View(heap: Heap, pool: Pool, list: seq<nat>): History {
    seq(|list|, i requires 0 <= i < |list| => Show(pool, At(heap, list[i])))
  }

  function Logins(file: seq<Stored>): History {
    seq(|file|, i requires 0 <= i < |file| => file[i].saved)
  }

  lemma Counted(heap: Heap, pool: Pool, others: multiset<Ptr>, p: nat)
    requires Owned(heap, pool, others) && Live(heap, p)
    ensures
      var r := heap[p].value;
      && (r.login == 0 || r.login in pool.text) && (r.session == 0 || r.session in pool.text)
      && (r.imagePath == 0 || r.imagePath in pool.text) && (r.bgPath == 0 || r.bgPath in pool.text)
      && (r.imageGroup == 0 || r.imageGroup in pool.text) && (r.bgGroup == 0 || r.bgGroup in pool.text)
  {
    hide Held, Total;
    TotalHas(heap, p);
    HeldHas(heap[p].value);
    assert Held(heap[p].value) <= pool.refs;
  }

  lemma HeldHas(r: Login)
    ensures
      && (r.login == 0 || r.login in Held(r)) && (r.session == 0 || r.session in Held(r))
      && (r.imagePath == 0 || r.imagePath in Held(r)) && (r.bgPath == 0 || r.bgPath in Held(r))
      && (r.imageGroup == 0 || r.imageGroup in Held(r)) && (r.bgGroup == 0 || r.bgGroup in Held(r))
  {
  }

  /** The fields that users see are as they were. */
  ghost predicate Keeps(heap: Heap, g: Heap, p: nat) {
    Live(heap, p) ==>
      && Live(g, p) && g[p].value.login == heap[p].value.login && g[p].value.session == heap[p].value.session
      && g[p].value.remember == heap[p].value.remember
  }

  /** A record that was not written shows what it showed. */
  lemma Untouched(heap: Heap, pool: Pool, others: multiset<Ptr>, heap': Heap, pool': Pool, others': multiset<Ptr>,
                  p: nat)
    requires Owned(heap, pool, others) && Owned(heap', pool', others') && Agree(pool, pool')
    requires Live(heap, p) && Keeps(heap, heap', p)
    ensures Show(pool', At(heap', p)) == Show(pool, At(heap, p))
  {
    Counted(heap, pool, others, p);
    Counted(heap', pool', others', p);
  }

  /** The records of a list as they are written to the file. */
  function Files(heap: Heap, pool: Pool, list: seq<nat>): seq<Stored> {
    seq(|list|, i requires 0 <= i < |list| => Whole(pool, At(heap, list[i])))
  }

  /** A record that was not touched is still written as it was. */
  lemma StillWhole(heap: Heap, pool: Pool, others: multiset<Ptr>, heap': Heap, pool': Pool, others': multiset<Ptr>,
                   p: nat)
    requires Owned(heap, pool, others) && Owned(heap', pool', others') && Agree(pool, pool')
    requires Live(heap, p) && p < |heap'| && heap'[p] == heap[p]
    ensures Whole(pool', At(heap', p)) == Whole(pool, At(heap, p))
  {
    Counted(heap, pool, others, p);
    Counted(heap', pool', others', p);
    OwnedMeans(heap, pool, others);
    OwnedMeans(heap', pool', others');
    NoNull(pool);
    NoNull(pool');
    hide Owned, Good;
  }

  lemma AppendFiles(heap: Heap, pool: Pool, others: multiset<Ptr>, r: Login, g: Heap, q: Pool, others': multiset<Ptr>,
                    list: seq<nat>)
    requires Owned(heap, pool, others) && Owned(g, q, others') && Grows(pool, q) && AllLive(heap, list)
    requires g == heap + [Some(r)]
    ensures Files(g, q, list + [|heap|]) == Files(heap, pool, list) + [Whole(q, r)]
  {
    hide Owned, Grows, Agree, Whole;
    GrowsAgree(pool, q);
    forall i | 0 <= i < |list| ensures Whole(q, At(g, list[i])) == Whole(pool, At(heap, list[i])) {
      StillWhole(heap, pool, others, g, q, others', list[i]);
    }
    assert At(g, |heap|) == r;
  }

  lemma FilesShow(heap: Heap, pool: Pool, list: seq<nat>)
    ensures Logins(Files(heap, pool, list)) == View(heap, pool, list)
  {
  }

  /** Pointers and the strings they were interned for. */
  ghost predicate Interned(pool: Pool, xs: seq<Ptr>, ss: seq<Option<string>>) {
    |xs| == |ss| && forall j :: 0 <= j < |xs| ==> Str(pool, xs[j]) == ss[j] && (xs[j] == 0 <==> ss[j].None?)
  }

  lemma InternedMore(p: Pool, q: Pool, xs: seq<Ptr>, ss: seq<Option<string>>, x: Ptr, s: Option<string>)
    requires Good(p) && Good(q) && Interned(p, xs, ss) && Grows(p, q) && Str(q, x) == s && (x == 0 <==> s.None?)
    ensures Interned(q, xs + [x], ss + [s])
  {
    hide Good, Grows, Str;
    forall j | 0 <= j < |xs| + 1
      ensures Str(q, (xs + [x])[j]) == (ss + [s])[j] && ((xs + [x])[j] == 0 <==> (ss + [s])[j].None?)
    {
      if j < |xs| {
        assert (xs + [x])[j] == xs[j] && (ss + [s])[j] == ss[j];
        GrowsKeeps(p, q, xs[j]);
      }
    }
  }

  // ---------- the two lists ----------

  ghost predicate AllLive(heap: Heap, list: seq<nat>) {
    forall i :: 0 <= i < |list| ==> Live(heap, list[i]) && heap[list[i]].value.login != 0
  }

  ghost predicate Listed(heap: Heap, list: seq<nat>) {
    AllLive(heap, list) && NoRepeats(list)
  }

  ghost predicate NoRepeats<T>(list: seq<T>) {
    forall i, j :: 0 <= i < j < |list| ==> list[i] != list[j]
  }

  /** Nothing leaks: every live record is on a list. */
  ghost predicate Covered(heap: Heap, history: seq<nat>, lusers: seq<nat>) {
    forall p: nat :: Live(heap, p) ==> p in history || p in lusers
  }

  /** Where an accepted user's record is: the history's own record when the history had the
      login at start-up, otherwise a record on no history list. */
  ghost predicate UserAt(start: History, name: string, p: nat, heap: Heap, pool: Pool, history: seq<nat>) {
    var k := Find(start, name);
    if k < |start| then k < |history| && p == history[k]
    else
      && p !in history && Live(heap, p) && heap[p].value.login != 0
      && Show(pool, heap[p].value) == Saved(name, None, true)
  }

  ghost predicate Users(start: History, names: seq<string>, lusers: seq<nat>, heap: Heap, pool: Pool,
                        history: seq<nat>) {
    && |lusers| == |names| && |start| <= |history|
    && forall j :: 0 <= j < |names| ==> UserAt(start, names[j], lusers[j], heap, pool, history)
  }

  /** A record is on the users' list twice exactly where a user of the history is. */
  ghost predicate Twins(start: History, names: seq<string>, lusers: seq<nat>) {
    && |lusers| == |names|
    && forall i, j :: 0 <= i < j < |lusers| ==> (lusers[i] == lusers[j] <==> Twin(start, names[i], names[j]))
  }

  predicate Twin(start: History, m: string, n: string) {
    m == n && Find(start, m) < |start|
  }

  /** Every reference is counted, and the two lists hold every record there is. */
  ghost predicate Ledger(start: History, names: seq<string>, lusers: seq<nat>, heap: Heap, pool: Pool,
                         others: multiset<Ptr>, history: seq<nat>) {
    && Owned(heap, pool, others)
    && Listed(heap, history) && AllLive(heap, lusers) && Covered(heap, history, lusers)
    && Users(start, names, lusers, heap, pool, history) && Twins(start, names, lusers)
  }

  /** No user that the history has is accepted twice. */
  ghost predicate SharedOnce(start: History, names: seq<string>) {
    forall i, j :: 0 <= i < j < |names| ==> !Twin(start, names[i], names[j])
  }

  /** The users' list holds no record twice if and only if no user of the history is accepted
      twice. */
  lemma SharedTwice(start: History, names: seq<string>, lusers: seq<nat>)
    requires Twins(start, names, lusers)
    ensures NoRepeats(lusers) <==> SharedOnce(start, names)
  {
    hide Twin;
    if !SharedOnce(start, names) {
      var i, j :| 0 <= i < j < |names| && Twin(start, names[i], names[j]);
      assert lusers[i] == lusers[j];
    }
  }

  /** For one: a user of the history on two lines of the password file. */
  lemma TwiceAccepted()
    ensures
      var start := [Saved("ann", Some("Xfce"), true)];
      !SharedOnce(start, Accepted(["ann:x:1000:", "ann:x:1000:"]))
  {
    var line, start := "ann:x:1000:", [Saved("ann", Some("Xfce"), true)];
    AnnAccepted();
    hide AcceptedUser, Accepted, Twin;
    AcceptedSplit([line], [line]);
    AcceptedOne(line);
    assert [line] + [line] == [line, line] && ["ann"] + ["ann"] == ["ann", "ann"];
    AnnTwin(start);
    assert Twin(start, ["ann", "ann"][0], ["ann", "ann"][1]);
  }

  lemma AnnTwin(start: History)
    requires start == [Saved("ann", Some("Xfce"), true)]
    ensures Twin(start, "ann", "ann")
  {
    FirstIs(Logged(start), "ann", 0);
  }

  lemma AnnAccepted()
    ensures AcceptedUser("ann:x:1000:") == Some("ann")
  {
    hide AcceptedUser;
    Thousand();
    UserLine("ann", "x", 1000, "");
    assert "ann" + ":" + "x" + ":" + "1000" + ":" + "" == "ann:x:1000:";
  }

  lemma Thousand()
    ensures Decimal(1000) == "1000"
  {
    assert Decimal(1) == "1";
    assert Decimal(10) == "10";
    assert Decimal(100) == "100";
  }

  // ---------- the password file ----------

  /** The user of a line: its first token, when there is a third one and it is a user's id. */
  function AcceptedUser(line: string): Option<string> {
    var ts := Strtok.Tokens(line, ':');
    if |ts| >= 3 && 999 < Atoi(ts[2]) < 65534 then Some(ts[0]) else None
  }

  function Accepted(lines: seq<string>): seq<string> {
    if lines == [] then []
    else
      var u := AcceptedUser(lines[|lines| - 1]);
      Accepted(lines[..|lines| - 1]) + if u.Some? then [u.value] else []
  }

  /** A line of words with a decimal id in the third place is accepted exactly when the id is
      that of a user, whatever follows. */
  lemma UserLine(name: string, pw: string, uid: nat, rest: string)
    requires Strtok.IsWord(name, ':') && Strtok.IsWord(pw, ':')
    ensures AcceptedUser(name + ":" + pw + ":" + Decimal(uid) + ":" + rest) ==
      if 1000 <= uid <= 65533 then Some(name) else None
  {
    hide Strtok.TokensFrom, Decimal, Atoi;
    var line := name + ":" + pw + ":" + Decimal(uid) + ":" + rest;
    var t0 := rest + ['\0'];
    var t1 := Decimal(uid) + [':'] + t0;
    var t2 := pw + [':'] + t1;
    assert line + ['\0'] == name + [':'] + t2;
    DigitsAreWord(uid);
    Strtok.FirstToken(Decimal(uid), t0, ':');
    Strtok.FirstToken(pw, t1, ':');
    Strtok.FirstToken(name, t2, ':');
    var more := Strtok.TokensFrom(t0, ':', 0);
    assert Strtok.Tokens(line, ':') == [name] + ([pw] + ([Decimal(uid)] + more));
    AtoiUndoesDecimal(uid, []);
    assert Decimal(uid) + [] == Decimal(uid);
  }

  lemma DigitsAreWord(n: nat)
    ensures Strtok.IsWord(Decimal(n), ':')
  {
    var s := Decimal(n);
    hide Decimal;
    assert forall i :: 0 <= i < |s| ==> IsDigit(s[i]);
  }

  /** A line with fewer than three tokens names nobody. */
  lemma ShortLine(line: string)
    requires |Strtok.Tokens(line, ':')| < 3
    ensures AcceptedUser(line) == None
  {
  }

  /** Line by line, in order. */
  lemma {:induction false} AcceptedSplit(a: seq<string>, b: seq<string>)
    ensures Accepted(a + b) == Accepted(a) + Accepted(b)
  {
    hide AcceptedUser;
    if b == [] {
      assert a + b == a;
    } else {
      var u := AcceptedUser(b[|b| - 1]);
      var last := if u.Some? then [u.value] else [];
      AcceptedSplit(a, b[..|b| - 1]);
      assert (a + b)[..|a + b| - 1] == a + b[..|b| - 1];
      assert Accepted(a + b) == Accepted(a + b[..|b| - 1]) + last;
      assert Accepted(b) == Accepted(b[..|b| - 1]) + last;
    }
  }

  lemma AcceptedOne(line: string)
    ensures Accepted([line]) == if AcceptedUser(line).Some? then [AcceptedUser(line).value] else []
  {
    hide AcceptedUser;
    assert [line][..0] == [];
  }

  lemma AcceptedNext(lines: seq<string>, i: nat)
    requires i < |lines|
    ensures Accepted(lines[..i + 1]) ==
      if AcceptedUser(lines[i]).Some? then Accepted(lines[..i]) + [AcceptedUser(lines[i]).value]
        else Accepted(lines[..i])
  {
    assert lines[..i + 1][..i] == lines[..i];
  }

  /** Three `strtok_r` calls over one line. */
  method ParseLine(line: string) returns (user: Option<string>)
    ensures user == AcceptedUser(line)
  {
    hide Strtok.StrtokR, Strtok.TokensFrom;
    var buf := line + ['\0'];
    Strtok.StrtokCuts(buf, 0, ':');
    var c := Strtok.StrtokR(buf, 0, ':');
    if !c.found {
      return None;
    }
    var u := c.token;
    Strtok.StrtokCuts(c.buf, c.save, ':');
    Strtok.CutKeepsToken(c.buf, c.save, ':', u);
    var d := Strtok.StrtokR(c.buf, c.save, ':');
    Strtok.StrtokCuts(d.buf, d.save, ':');
    Strtok.CutKeepsToken(d.buf, d.save, ':', u);
    var e := Strtok.StrtokR(d.buf, d.save, ':');
    if !e.found {
      return None;
    }
    var uid := Atoi(CString(e.buf, e.token));
    if uid > 999 && uid < 65534 {
      return Some(CString(e.buf, u));
    }
    return None;
  }

  // ---------- lemmas about single writes ----------

  /** The references when a record is rewritten: `come` are the new ones in it, `gone` the
      ones to drop. */
  lemma RewriteShare(heap: Heap, pool: Pool, others: multiset<Ptr>, p: nat, s: Login, come: multiset<Ptr>,
                     gone: multiset<Ptr>)
    requires Owned(heap, pool, others) && Live(heap, p)
    requires Held(heap[p].value) + come == Held(s) + gone
    ensures pool.refs + come == others + Total(heap[p := Some(s)]) + gone
  {
    hide Held, Total, Good;
    var o := Held(heap[p].value);
    TotalUpdate(heap, p, Some(s));
    var t, u := Total(heap), Total(heap[p := Some(s)]);
    assert u + o == t + Held(s);
    Balance(t, u, o, Held(s), come, gone);
    Regroup(others, t, come);
    Regroup(others, u, gone);
  }

  lemma HeldSession(r: Login, x: Ptr)
    ensures Held(r) + Ref(x) == Held(r.(session := x)) + Ref(r.session)
  {
  }

  lemma HeldImage(r: Login)
    ensures Held(r) + Ref(0) == Held(r.(imagePath := 0)) + Ref(r.imagePath)
  {
  }

  lemma HeldBackground(r: Login)
    ensures Held(r) + Ref(0) == Held(r.(bgPath := 0)) + Ref(r.bgPath)
  {
  }

  lemma Balance(t: multiset<Ptr>, u: multiset<Ptr>, o: multiset<Ptr>, n: multiset<Ptr>, come: multiset<Ptr>,
                gone: multiset<Ptr>)
    requires u + o == t + n && o + come == n + gone
    ensures t + come == u + gone
  {
    forall x ensures (t + come)[x] == (u + gone)[x] {
      assert (u + o)[x] == (t + n)[x] && (o + come)[x] == (n + gone)[x];
    }
  }

  lemma Regroup(a: multiset<Ptr>, b: multiset<Ptr>, c: multiset<Ptr>)
    ensures a + b + c == a + (b + c)
  {
  }

  lemma HeldChain(a: multiset<Ptr>, r: Login)
    ensures a + Held(r) ==
      a + Ref(r.login) + Ref(r.session) + Ref(r.imagePath) + Ref(r.imageGroup) + Ref(r.bgPath) + Ref(r.bgGroup)
  {
    hide Ref;
  }

  lemma Began(heap: Heap, pool: Pool, others: multiset<Ptr>, history: seq<nat>)
    requires Owned(heap, pool, others) && Listed(heap, history) && Covered(heap, history, [])
    ensures Ledger(View(heap, pool, history), [], [], heap, pool, others, history)
  {
    hide Owned, Show;
  }

  lemma NothingOwned(heap: Heap, pool: Pool)
    requires heap == [] && Good(pool)
    ensures Owned(heap, pool, pool.refs)
  {
  }

  lemma ReadNothing(heap: Heap, pool: Pool)
    requires heap == []
    ensures Listed(heap, []) && Covered(heap, [], []) && Files(heap, pool, []) == []
  {
  }

  lemma OwnedMeans(heap: Heap, pool: Pool, others: multiset<Ptr>)
    requires Owned(heap, pool, others)
    ensures Good(pool) && pool.refs == others + Total(heap)
  {
  }

  lemma OwnedIs(heap: Heap, pool: Pool, others: multiset<Ptr>)
    requires Good(pool) && pool.refs == others + Total(heap)
    ensures Owned(heap, pool, others)
  {
  }

  lemma SetShow(heap: Heap, before: Pool, mid: Pool, g: Heap, after: Pool, others: multiset<Ptr>, p: nat, x: Ptr)
    requires Live(heap, p) && g == heap[p := Some(heap[p].value.(session := x))] && heap[p].value.login != 0
    requires Owned(heap, before, others) && Good(mid) && Owned(g, after, others) && Grows(before, mid)
    requires Grows(after, mid)
    ensures Show(after, g[p].value) == Show(before, heap[p].value).(session := Str(mid, x))
  {
    Counted(heap, before, others, p);
    Counted(g, after, others, p);
    hide Held, Total;
  }

  lemma ListedLive(heap: Heap, list: seq<nat>)
    requires Listed(heap, list)
    ensures AllLive(heap, list)
  {
  }

  lemma WholeIs(pool: Pool, r: Login, s: Stored)
    requires r.remember == s.saved.remember
    requires Interned(pool, [r.login, r.session, r.imagePath, r.imageGroup, r.bgPath, r.bgGroup],
                      [Some(s.saved.login), s.saved.session, s.imagePath, s.imageGroup, s.bgPath, s.bgGroup])
    ensures r.login != 0 && Whole(pool, r) == s
  {
    var xs := [r.login, r.session, r.imagePath, r.imageGroup, r.bgPath, r.bgGroup];
    assert xs[0] == r.login && xs[1] == r.session && xs[2] == r.imagePath;
    assert xs[3] == r.imageGroup && xs[4] == r.bgPath && xs[5] == r.bgGroup;
  }

  /** The view after one record was rewritten. */
  lemma RewriteView(heap: Heap, pool: Pool, others: multiset<Ptr>, p: nat, r: Login, q: Pool, list: seq<nat>, k: nat)
    requires Owned(heap, pool, others) && Live(heap, p) && Agree(pool, q)
    requires Owned(heap[p := Some(r)], q, others)
    requires Listed(heap, list) && k < |list| && list[k] == p
    ensures View(heap[p := Some(r)], q, list) == View(heap, pool, list)[k := Show(q, r)]
  {
    var g := heap[p := Some(r)];
    forall i | 0 <= i < |list|
      ensures View(g, q, list)[i] == View(heap, pool, list)[k := Show(q, r)][i]
    {
      if i != k { Untouched(heap, pool, others, g, q, others, list[i]); }
    }
  }

  /** Views survive any change that leaves their records alone. */
  lemma SameView(heap: Heap, pool: Pool, others: multiset<Ptr>, g: Heap, q: Pool, others': multiset<Ptr>,
                 list: seq<nat>)
    requires Owned(heap, pool, others) && Owned(g, q, others') && Agree(pool, q) && AllLive(heap, list)
    requires forall i :: 0 <= i < |list| ==> Keeps(heap, g, list[i])
    ensures AllLive(g, list) && View(g, q, list) == View(heap, pool, list)
  {
    forall i | 0 <= i < |list| ensures View(g, q, list)[i] == View(heap, pool, list)[i] {
      Untouched(heap, pool, others, g, q, others', list[i]);
    }
  }

  /** A new record at the end of a list. */
  lemma AppendView(heap: Heap, pool: Pool, others: multiset<Ptr>, r: Login, g: Heap, q: Pool, others': multiset<Ptr>,
                   list: seq<nat>)
    requires Owned(heap, pool, others) && Owned(g, q, others') && Grows(pool, q) && Listed(heap, list)
    requires g == heap + [Some(r)] && r.login != 0
    ensures Listed(g, list + [|heap|])
    ensures View(g, q, list + [|heap|]) == View(heap, pool, list) + [Show(q, r)]
  {
    hide Owned, Good, Total, Grows, Show, Agree;
    GrowsAgree(pool, q);
    assert forall i :: 0 <= i < |list| ==> Live(heap, list[i]);
    SameView(heap, pool, others, g, q, others', list);
    assert At(g, |heap|) == r;
    ListedAppend(heap, list, r);
  }

  lemma ListedAppend(heap: Heap, list: seq<nat>, r: Login)
    requires Listed(heap, list) && r.login != 0
    ensures Listed(heap + [Some(r)], list + [|heap|])
  {
    assert forall i :: 0 <= i < |list| ==> Live(heap, list[i]);
  }

  /** The users' records survive changes to history records and additions to the history. */
  lemma UsersStay(start: History, names: seq<string>, lusers: seq<nat>, heap: Heap, pool: Pool, others: multiset<Ptr>,
                  history: seq<nat>,
                  g: Heap, q: Pool, others': multiset<Ptr>, history': seq<nat>)
    requires Users(start, names, lusers, heap, pool, history)
    requires Owned(heap, pool, others) && Owned(g, q, others') && Agree(pool, q)
    requires history <= history'
    requires forall p: nat :: p !in history ==> Keeps(heap, g, p)
    requires forall i :: |history| <= i < |history'| ==> history'[i] >= |heap|
    ensures Users(start, names, lusers, g, q, history')
  {
    forall j | 0 <= j < |names| ensures UserAt(start, names[j], lusers[j], g, q, history') {
      assert UserAt(start, names[j], lusers[j], heap, pool, history);
      if Find(start, names[j]) == |start| {
        var p := lusers[j];
        assert Keeps(heap, g, p);
        Untouched(heap, pool, others, g, q, others', p);
        forall i | 0 <= i < |history'| ensures history'[i] != p {
          if i < |history| { assert history[i] in history; }
        }
      }
    }
  }

  /** The state of the lists after the record at place i of the history changed its session. */
  lemma Rewritten(start: History, names: seq<string>, lusers: seq<nat>, heap: Heap, pool: Pool, others: multiset<Ptr>,
                  history: seq<nat>,
                  g: Heap, q: Pool, i: nat, r: Login)
    requires Ledger(start, names, lusers, heap, pool, others, history)
    requires Owned(g, q, others) && Agree(pool, q)
    requires i < |history| && g == heap[history[i] := Some(r)] && r.login == heap[history[i]].value.login
    ensures Ledger(start, names, lusers, g, q, others, history)
    ensures View(g, q, history) == View(heap, pool, history)[i := Show(q, r)]
  {
    hide Owned, View, Show, Agree, Users;
    var p := history[i];
    assert p in history;
    forall x: nat | x !in history ensures Keeps(heap, g, x) {}
    UsersStay(start, names, lusers, heap, pool, others, history, g, q, others, history);
    RewriteView(heap, pool, others, p, r, q, history, i);
    forall x: nat | Live(g, x) ensures x in history || x in lusers { assert Live(heap, x); }
  }

  lemma CoveredAppend(heap: Heap, g: Heap, history: seq<nat>, lusers: seq<nat>)
    requires Covered(heap, history, lusers) && |g| == |heap| + 1 && heap <= g
    ensures Covered(g, history + [|heap|], lusers)
  {
    forall x: nat | Live(g, x) ensures x in history + [|heap|] || x in lusers {
      if x < |heap| {
        assert Live(heap, x);
      } else {
        assert (history + [|heap|])[|history|] == x;
      }
    }
  }

  /** The state of the lists after a new record at the end of the history. */
  lemma Appended(start: History, names: seq<string>, lusers: seq<nat>, heap: Heap, pool: Pool, others: multiset<Ptr>,
                 history: seq<nat>,
                 r: Login, g: Heap, q: Pool)
    requires Ledger(start, names, lusers, heap, pool, others, history)
    requires Owned(g, q, others) && Grows(pool, q)
    requires g == heap + [Some(r)] && r.login != 0
    ensures Ledger(start, names, lusers, g, q, others, history + [|heap|])
    ensures View(g, q, history + [|heap|]) == View(heap, pool, history) + [Show(q, r)]
  {
    hide Owned, Users, Covered, Show, Held, Good;
    var longer := history + [|heap|];
    GrowsAgree(pool, q);
    hide Grows, Agree;
    assert forall i :: 0 <= i < |heap| ==> g[i] == heap[i];
    forall x: nat | x !in history ensures Keeps(heap, g, x) {}
    UsersStay(start, names, lusers, heap, pool, others, history, g, q, others, longer);
    AppendView(heap, pool, others, r, g, q, others, history);
    CoveredAppend(heap, g, history, lusers);
  }

  /** Changes that users cannot see. */
  lemma SameFaces(start: History, names: seq<string>, lusers: seq<nat>, heap: Heap, pool: Pool, others: multiset<Ptr>,
                  history: seq<nat>,
                  g: Heap, q: Pool, others': multiset<Ptr>)
    requires Ledger(start, names, lusers, heap, pool, others, history)
    requires Owned(g, q, others') && Agree(pool, q)
    requires forall x: nat :: Keeps(heap, g, x)
    requires forall x: nat :: Live(g, x) ==> Live(heap, x)
    ensures Ledger(start, names, lusers, g, q, others', history)
    ensures View(g, q, history) == View(heap, pool, history)
  {
    SameView(heap, pool, others, g, q, others', history);
    SameView(heap, pool, others, g, q, others', lusers);
    UsersStay(start, names, lusers, heap, pool, others, history, g, q, others', history);
  }

  lemma OtherReferences(start: History, names: seq<string>, lusers: seq<nat>, heap: Heap, pool: Pool,
                        others: multiset<Ptr>, history: seq<nat>,
                        q: Pool, others': multiset<Ptr>)
    requires Ledger(start, names, lusers, heap, pool, others, history)
    requires Owned(heap, q, others') && Agree(pool, q)
    ensures Ledger(start, names, lusers, heap, q, others', history)
    ensures View(heap, q, history) == View(heap, pool, history)
  {
    forall x: nat ensures Keeps(heap, heap, x) {}
    SameFaces(start, names, lusers, heap, pool, others, history, heap, q, others');
  }

  /** One more user, who has a record in the history. */
  lemma SharedUser(start: History, names: seq<string>, lusers: seq<nat>, heap: Heap, pool: Pool,
                   others: multiset<Ptr>, history: seq<nat>, n: string)
    requires Ledger(start, names, lusers, heap, pool, others, history)
    requires Find(start, n) < |start|
    ensures Ledger(start, names + [n], lusers + [history[Find(start, n)]], heap, pool, others, history)
  {
    var p := history[Find(start, n)];
    MoreUsers(start, names, lusers, heap, pool, history, n, p);
    forall x: nat | Live(heap, x) ensures x in history || x in lusers + [p] {}
  }

  /** One more user, who gets a record of their own. */
  lemma SeparateUser(start: History, names: seq<string>, lusers: seq<nat>, heap: Heap, pool: Pool,
                     others: multiset<Ptr>, history: seq<nat>, n: string,
                     r: Login, g: Heap, q: Pool)
    requires Ledger(start, names, lusers, heap, pool, others, history)
    requires Find(start, n) == |start|
    requires Owned(g, q, others) && Grows(pool, q) && g == heap + [Some(r)] && r.login != 0
    requires Show(q, r) == Saved(n, None, true)
    ensures Ledger(start, names + [n], lusers + [|heap|], g, q, others, history)
    ensures View(g, q, history) == View(heap, pool, history)
  {
    hide Owned, Covered, Show;
    GrowsAgree(pool, q);
    hide Grows, Agree;
    forall x: nat ensures Keeps(heap, g, x) {}
    SameView(heap, pool, others, g, q, others, history);
    SameView(heap, pool, others, g, q, others, lusers);
    UsersStay(start, names, lusers, heap, pool, others, history, g, q, others, history);
    assert forall j :: 0 <= j < |lusers| ==> Live(heap, lusers[j]);
    assert UserAt(start, n, |heap|, g, q, history);
    MoreUsers(start, names, lusers, g, q, history, n, |heap|);
    CoveredUser(heap, g, history, lusers);
  }

  lemma CoveredUser(heap: Heap, g: Heap, history: seq<nat>, lusers: seq<nat>)
    requires Covered(heap, history, lusers) && |g| == |heap| + 1 && heap <= g
    ensures Covered(g, history, lusers + [|heap|])
  {
    forall x: nat | Live(g, x) ensures x in history || x in lusers + [|heap|] {
      if x < |heap| {
        assert Live(heap, x);
      } else {
        assert (lusers + [|heap|])[|lusers|] == x;
      }
    }
  }

  /** One more user on the list, whose record is already there exactly when it is shared with
      an earlier one. */
  lemma MoreUsers(start: History, names: seq<string>, lusers: seq<nat>, heap: Heap, pool: Pool, history: seq<nat>,
                  n: string, p: nat)
    requires Users(start, names, lusers, heap, pool, history) && UserAt(start, n, p, heap, pool, history)
    requires Listed(heap, history) && AllLive(heap, lusers) && Twins(start, names, lusers)
    requires Find(start, n) == |start| ==> p !in lusers
    ensures Users(start, names + [n], lusers + [p], heap, pool, history)
    ensures AllLive(heap, lusers + [p]) && Twins(start, names + [n], lusers + [p])
  {
    hide Show;
    var ns, us := names + [n], lusers + [p];
    forall j | 0 <= j < |ns| ensures UserAt(start, ns[j], us[j], heap, pool, history) {
      if j < |names| { assert ns[j] == names[j] && us[j] == lusers[j]; }
    }
    forall j | 0 <= j < |lusers| ensures lusers[j] == p <==> Twin(start, names[j], n) {
      assert UserAt(start, names[j], lusers[j], heap, pool, history);
      if Find(start, n) < |start| { assert p in history; }
    }
    MoreTwins(start, names, lusers, n, p);
  }

  lemma MoreTwins(start: History, names: seq<string>, lusers: seq<nat>, n: string, p: nat)
    requires Twins(start, names, lusers)
    requires forall j :: 0 <= j < |lusers| ==> (lusers[j] == p <==> Twin(start, names[j], n))
    ensures Twins(start, names + [n], lusers + [p])
  {
    hide Twin;
    var ns, us := names + [n], lusers + [p];
    forall i, j | 0 <= i < j < |us| ensures us[i] == us[j] <==> Twin(start, ns[i], ns[j]) {
      assert us[i] == lusers[i] && ns[i] == names[i];
      if j < |lusers| { assert us[j] == lusers[j] && ns[j] == names[j]; }
    }
  }

  /** A picture is missing when there is a path to it and no file. */
  predicate Missing(pool: Pool, x: Ptr, present: set<string>) {
    x in pool.text && pool.text[x] !in present
  }

  /** No path in the record leads nowhere. */
  ghost predicate Pictured(heap: Heap, pool: Pool, present: set<string>, p: nat) {
    Live(heap, p) && !Missing(pool, heap[p].value.imagePath, present) && !Missing(pool, heap[p].value.bgPath, present)
  }

  ghost predicate AllPictured(heap: Heap, pool: Pool, present: set<string>, list: seq<nat>) {
    forall j :: 0 <= j < |list| ==> Pictured(heap, pool, present, list[j])
  }

  /** Paths may be cleared, not changed. */
  ghost predicate Slims(heap: Heap, g: Heap, p: nat) {
    Live(heap, p) ==>
      && Live(g, p)
      && (g[p].value.imagePath == 0 || g[p].value.imagePath == heap[p].value.imagePath)
      && (g[p].value.bgPath == 0 || g[p].value.bgPath == heap[p].value.bgPath)
  }

  lemma StillPictured(heap: Heap, pool: Pool, others: multiset<Ptr>, g: Heap, q: Pool, others': multiset<Ptr>,
                      present: set<string>, list: seq<nat>)
    requires Owned(heap, pool, others) && Owned(g, q, others') && Agree(pool, q)
    requires AllPictured(heap, pool, present, list)
    requires forall p: nat :: Slims(heap, g, p)
    ensures AllPictured(g, q, present, list)
  {
    hide Owned, Agree, Missing, Pictured, Slims;
    forall j | 0 <= j < |list| ensures Pictured(g, q, present, list[j]) {
      assert Pictured(heap, pool, present, list[j]) && Slims(heap, g, list[j]);
      OnePictured(heap, pool, others, g, q, others', present, list[j]);
    }
  }

  lemma OnePictured(heap: Heap, pool: Pool, others: multiset<Ptr>, g: Heap, q: Pool, others': multiset<Ptr>,
                    present: set<string>, p: nat)
    requires Owned(heap, pool, others) && Owned(g, q, others') && Agree(pool, q)
    requires Pictured(heap, pool, present, p) && Slims(heap, g, p)
    ensures Pictured(g, q, present, p)
  {
    hide Owned, Good;
    OwnedMeans(g, q, others');
    Counted(heap, pool, others, p);
    NoNull(q);
  }

  lemma StillThere(p: Pool, q: Pool, x: Ptr)
    requires Grows(p, q) && x in p.text
    ensures x in q.text
  {
  }

  /** A null pointer is nothing more to count, and nothing to read. */
  lemma NoReference(q: Pool)
    requires Good(q)
    ensures q.refs + Ref(0) == q.refs && Str(q, 0) == None
  {
  }

  lemma NoNull(q: Pool)
    requires Good(q)
    ensures 0 !in q.text
  {
  }

  lemma LongerHeap(heap: Heap, g: Heap)
    requires heap <= g
    ensures forall p: nat :: Slims(heap, g, p)
  {
  }

  lemma AllAndOne(heap: Heap, pool: Pool, present: set<string>, list: seq<nat>, p: nat)
    requires AllPictured(heap, pool, present, list) && Pictured(heap, pool, present, p)
    ensures AllPictured(heap, pool, present, list + [p])
  {
  }

  /** The state of the loop over the accepted users: the names and records listed once the
      current user is done, the interned names still waiting and their text, the references of
      others, the files there are, and the records whose pictures were looked at. */
  datatype Work = Work(names: seq<string>, users: seq<nat>, rest: seq<Ptr>, todo: seq<string>, base: multiset<Ptr>,
                       present: set<string>, done: seq<nat>)

  /** Interned names that are still to be turned into users. */
  ghost predicate Awaiting(lu: seq<Ptr>, names: seq<string>, pool: Pool) {
    |lu| == |names| && forall j :: 0 <= j < |lu| ==> lu[j] in pool.text && pool.text[lu[j]] == names[j]
  }

  lemma SameLength(lu: seq<Ptr>, names: seq<string>, pool: Pool)
    requires Awaiting(lu, names, pool)
    ensures |lu| == |names|
  {
  }

  lemma NoneAwaiting(pool: Pool)
    ensures Awaiting([], Accepted([]), pool)
  {
  }

  lemma OneMoreAwaiting(lu: seq<Ptr>, names: seq<string>, pool: Pool, q: Pool, x: Ptr, n: string)
    requires Awaiting(lu, names, pool) && Grows(pool, q) && Str(q, x) == Some(n) && x != 0
    ensures Awaiting(lu + [x], names + [n], q) && multiset(lu + [x]) == multiset(lu) + Ref(x)
  {
    forall j | 0 <= j < |lu| + 1 ensures (lu + [x])[j] in q.text && q.text[(lu + [x])[j]] == (names + [n])[j] {
      if j < |lu| { assert (lu + [x])[j] == lu[j] && (names + [n])[j] == names[j]; }
    }
  }

  lemma OneMore(heap: Heap, pool: Pool, others: multiset<Ptr>, q: Pool, x: Ptr)
    requires Owned(heap, pool, others) && Good(q) && q.refs == pool.refs + Ref(x)
    ensures Owned(heap, q, others + Ref(x))
  {
    hide Total, Ref, Good;
  }

  ghost predicate MidwayAt(w: Work, start: History, heap: Heap, pool: Pool, others: multiset<Ptr>, history: seq<nat>) {
    && Ledger(start, w.names, w.users, heap, pool, others, history)
    && others == w.base + multiset(w.rest) && Awaiting(w.rest, w.todo, pool)
    && AllPictured(heap, pool, w.present, w.done)
  }

  /** Clearing a path, whichever it is, keeps the loop going. */
  lemma PathCleared(w: Work, start: History, heap: Heap, pool: Pool, others: multiset<Ptr>, history: seq<nat>, p: nat,
                    r: Login, q: Pool)
    requires MidwayAt(w, start, heap, pool, others, history) && Live(heap, p)
    requires r == heap[p].value.(imagePath := 0) || r == heap[p].value.(bgPath := 0)
    requires Owned(heap[p := Some(r)], q, others) && Grows(q, pool)
    ensures MidwayAt(w, start, heap[p := Some(r)], q, others, history)
    ensures View(heap[p := Some(r)], q, history) == View(heap, pool, history)
  {
    hide Owned, Users, Covered, Listed, Grows, Awaiting, AllPictured;
    PictureCleared(start, w.names, w.users, heap, pool, others, history, p, r, q);
    ShrinksAgree(pool, q);
    StillPictured(heap, pool, others, heap[p := Some(r)], q, others, w.present, w.done);
    StillAwaiting(w.rest, w.todo, pool, heap[p := Some(r)], q, w.base, multiset(w.rest));
  }

  /** The path that is cleared, and the references without it. */
  lemma PathShare(heap: Heap, pool: Pool, others: multiset<Ptr>, p: nat, s: Login, x: Ptr)
    requires Owned(heap, pool, others) && Live(heap, p)
    requires
      var r := heap[p].value;
      (s == r.(imagePath := 0) && x == r.imagePath) || (s == r.(bgPath := 0) && x == r.bgPath)
    ensures pool.refs == others + Total(heap[p := Some(s)]) + Ref(x)
  {
    hide Owned, Total, Held;
    HeldImage(heap[p].value);
    HeldBackground(heap[p].value);
    RewriteShare(heap, pool, others, p, s, Ref(0), Ref(x));
    assert Ref(0) == multiset{} && pool.refs + multiset{} == pool.refs;
  }

  lemma PathGuard(heap: Heap, pool: Pool, others: multiset<Ptr>, p: nat, present: set<string>)
    requires Owned(heap, pool, others) && Live(heap, p)
    ensures
      var r := heap[p].value;
      && Good(pool)
      && (r.imagePath == 0 || r.imagePath in pool.text) && (r.bgPath == 0 || r.bgPath in pool.text)
      && !Missing(pool, 0, present)
  {
    Counted(heap, pool, others, p);
    OwnedMeans(heap, pool, others);
    NoNull(pool);
  }

  lemma ShrinksAgree(p: Pool, q: Pool)
    requires Grows(q, p)
    ensures Agree(p, q)
  {
  }

  lemma MidwayStart(names: seq<string>, all: seq<string>, lusers: seq<nat>, lu: seq<Ptr>, base: multiset<Ptr>,
                    present: set<string>,
                    start: History, heap: Heap, pool: Pool, others: multiset<Ptr>, history: seq<nat>)
    requires Ledger(start, names, lusers, heap, pool, others, history) && lusers == []
    requires others == base + multiset(lu) && Awaiting(lu, all, pool)
    ensures MidwayAt(Work(names, lusers, lu, all, base, present, lusers), start, heap, pool, others, history)
  {
    hide Ledger, Awaiting;
  }

  lemma MidwayOwned(w: Work, start: History, heap: Heap, pool: Pool, others: multiset<Ptr>, history: seq<nat>)
    requires MidwayAt(w, start, heap, pool, others, history)
    ensures Owned(heap, pool, others)
  {
    hide Owned, Listed, Covered, Users, Awaiting, AllPictured;
  }

  lemma MidwayParts(w: Work, start: History, heap: Heap, pool: Pool, others: multiset<Ptr>, history: seq<nat>)
    requires MidwayAt(w, start, heap, pool, others, history)
    ensures Ledger(start, w.names, w.users, heap, pool, others, history)
    ensures others == w.base + multiset(w.rest) && Awaiting(w.rest, w.todo, pool)
    ensures AllPictured(heap, pool, w.present, w.done)
  {
    hide Ledger, Awaiting, AllPictured;
  }

  /** A record whose pictures are there joins those that are done. */
  lemma RecordListed(w: Work, start: History, heap: Heap, pool: Pool, others: multiset<Ptr>, history: seq<nat>, p: nat)
    requires MidwayAt(w, start, heap, pool, others, history) && Pictured(heap, pool, w.present, p)
    ensures MidwayAt(w.(done := w.done + [p]), start, heap, pool, others, history)
  {
    hide Ledger, Awaiting, AllPictured, Pictured;
    AllAndOne(heap, pool, w.present, w.done, p);
  }

  lemma MidwayEnd(w: Work, start: History, heap: Heap, pool: Pool, others: multiset<Ptr>, history: seq<nat>)
    requires MidwayAt(w, start, heap, pool, others, history) && w.rest == []
    ensures Ledger(start, w.names, w.users, heap, pool, others, history) && others == w.base
    ensures AllPictured(heap, pool, w.present, w.done)
  {
    hide Ledger, AllPictured;
  }

  lemma Later(user: Ptr, rest: seq<Ptr>, all: seq<string>, i: nat, pool: Pool)
    requires i < |all| && Awaiting([user] + rest, all[i..], pool)
    ensures Awaiting(rest, all[i + 1..], pool) && user in pool.text && pool.text[user] == all[i]
  {
    assert ([user] + rest)[0] == user && all[i..][0] == all[i];
    forall j | 0 <= j < |rest| ensures rest[j] in pool.text && pool.text[rest[j]] == all[i + 1..][j] {
      assert rest[j] == ([user] + rest)[j + 1] && all[i + 1..][j] == all[i..][j + 1];
    }
  }

  lemma StillAwaiting(lu: seq<Ptr>, names: seq<string>, pool: Pool, heap: Heap, q: Pool, base: multiset<Ptr>,
                      names': multiset<Ptr>)
    requires Awaiting(lu, names, pool) && Agree(pool, q) && Owned(heap, q, base + names') && multiset(lu) <= names'
    ensures Awaiting(lu, names, q)
  {
    hide Total;
    AwaitingStay(lu, names, pool, q);
  }

  lemma AwaitingStay(lu: seq<Ptr>, names: seq<string>, pool: Pool, q: Pool)
    requires Awaiting(lu, names, pool) && Good(q) && Agree(pool, q) && multiset(lu) <= q.refs
    ensures Awaiting(lu, names, q)
  {
    forall j | 0 <= j < |lu| ensures lu[j] in q.text && q.text[lu[j]] == names[j] {
      assert lu[j] in multiset(lu);
    }
  }

  /** Dropping a temporary name. */
  lemma NameShare(heap: Heap, pool: Pool, base: multiset<Ptr>, user: Ptr, rest: seq<Ptr>)
    requires Owned(heap, pool, base + multiset([user] + rest)) && user in pool.text
    ensures user != 0 && pool.refs == base + multiset(rest) + Total(heap) + Ref(user)
  {
    hide Total;
    assert multiset([user] + rest) == multiset(rest) + multiset{user};
  }

  /** The picture of a record is cleared. */
  lemma PictureCleared(start: History, names: seq<string>, lusers: seq<nat>, heap: Heap, pool: Pool,
                       others: multiset<Ptr>, history: seq<nat>,
                       p: nat, r: Login, q: Pool)
    requires Ledger(start, names, lusers, heap, pool, others, history)
    requires Live(heap, p) && r.login == heap[p].value.login && r.session == heap[p].value.session
    requires r.remember == heap[p].value.remember
    requires Owned(heap[p := Some(r)], q, others) && Grows(q, pool)
    ensures Ledger(start, names, lusers, heap[p := Some(r)], q, others, history)
    ensures View(heap[p := Some(r)], q, history) == View(heap, pool, history)
  {
    SameFaces(start, names, lusers, heap, pool, others, history, heap[p := Some(r)], q, others);
  }

  /** Freeing a record that was taken off the history first. */
  lemma Unlisted(heap: Heap, p: nat, history: seq<nat>, lusers: seq<nat>)
    requires Live(heap, p) && Listed(heap, history) && Covered(heap, history, [p] + lusers)
    ensures
      var g := heap[p := None];
      Listed(g, Remove(history, p)) && Covered(g, Remove(history, p), lusers)
  {
    var g := heap[p := None];
    RemoveKeeps(history, p);
    forall i | 0 <= i < |Remove(history, p)|
      ensures Live(g, Remove(history, p)[i]) && g[Remove(history, p)[i]].value.login != 0
    {
      assert Remove(history, p)[i] in Remove(history, p);
    }
    forall x: nat | Live(g, x) ensures x in Remove(history, p) || x in lusers {
      assert Live(heap, x) && x != p;
    }
  }

  lemma UnlistedHead(heap: Heap, p: nat, history: seq<nat>)
    requires history != [] && p == history[0] && Live(heap, p)
    requires Listed(heap, history) && Covered(heap, history, [])
    ensures Listed(heap[p := None], history[1..]) && Covered(heap[p := None], history[1..], [])
  {
    var g := heap[p := None];
    assert forall i :: 0 <= i < |history| - 1 ==> history[1..][i] == history[i + 1];
    forall x: nat | Live(g, x) ensures x in history[1..] {
      assert Live(heap, x) && x != p;
      assert history == [p] + history[1..];
    }
  }

  /** The first n records of the list, and only they, have been freed, each once. */
  ghost predicate Freed(heap: Heap, all: seq<nat>, n: nat) {
    n <= |all| && NoRepeats(all[..n]) && forall j :: 0 <= j < |all| ==> (Live(heap, all[j]) <==> all[j] !in all[..n])
  }

  lemma FreedOnce(heap: Heap, all: seq<nat>, n: nat)
    requires Freed(heap, all, n) && n < |all| && Live(heap, all[n])
    ensures Freed(heap[all[n] := None], all, n + 1)
  {
    var a, b := all[..n], all[..n + 1];
    assert b == a + [all[n]] && all[n] !in a;
    forall i, j | 0 <= i < j < |b| ensures b[i] != b[j] {
      assert b[i] == a[i] && a[i] in a;
      if j < n { assert b[j] == a[j]; }
    }
  }

  lemma FreedTwice(heap: Heap, all: seq<nat>, n: nat)
    requires Freed(heap, all, n) && n < |all| && !Live(heap, all[n])
    ensures !NoRepeats(all) && all[n] in all[..n]
  {
    var i :| 0 <= i < n && all[..n][i] == all[n];
    assert all[i] == all[n];
  }

  lemma HeadLive(heap: Heap, list: seq<nat>)
    requires Listed(heap, list) && list != []
    ensures Live(heap, list[0])
  {
  }

  lemma NoneLive(heap: Heap)
    requires Covered(heap, [], [])
    ensures forall p: nat :: !Live(heap, p)
  {
  }

  lemma LedgerOwned(start: History, names: seq<string>, lusers: seq<nat>, heap: Heap, pool: Pool, others: multiset<Ptr>,
                    history: seq<nat>)
    requires Ledger(start, names, lusers, heap, pool, others, history)
    ensures Owned(heap, pool, others) && Good(pool)
  {
  }

  /** What an entry of the history shows. */
  lemma EntryShown(start: History, names: seq<string>, lusers: seq<nat>, heap: Heap, pool: Pool, others: multiset<Ptr>,
                   history: seq<nat>, k: nat)
    requires Ledger(start, names, lusers, heap, pool, others, history) && k < |history|
    ensures Live(heap, history[k])
    ensures
      var r := heap[history[k]].value;
      && r.login in pool.text && (r.session == 0 || r.session in pool.text)
      && View(heap, pool, history)[k] ==
           Saved(pool.text[r.login], if r.session == 0 then None else Some(pool.text[r.session]), r.remember)
  {
    hide Users, Covered, Twins;
    Counted(heap, pool, others, history[k]);
    OwnedMeans(heap, pool, others);
    NoNull(pool);
    hide Owned, Good;
  }

  lemma LedgerTwins(start: History, names: seq<string>, lusers: seq<nat>, heap: Heap, pool: Pool, others: multiset<Ptr>,
                    history: seq<nat>)
    requires Ledger(start, names, lusers, heap, pool, others, history)
    ensures Twins(start, names, lusers)
  {
  }

  /** The list without the first node that holds p. */
  function Remove(list: seq<nat>, p: nat): seq<nat> {
    if list == [] then [] else if list[0] == p then list[1..] else [list[0]] + Remove(list[1..], p)
  }

  lemma {:induction false} RemoveKeeps(list: seq<nat>, p: nat)
    requires NoRepeats(list)
    ensures NoRepeats(Remove(list, p))
    ensures forall x :: x in Remove(list, p) <==> x in list && x != p
  {
    if list != [] {
      assert forall i, j :: 0 <= i < j < |list[1..]| ==> list[1..][i] != list[1..][j];
      assert list[0] !in list[1..];
      RemoveKeeps(list[1..], p);
      assert list == [list[0]] + list[1..];
      if list[0] != p {
        var r := Remove(list[1..], p);
        assert list[0] !in r;
        forall i, j | 0 <= i < j < |r| + 1 ensures ([list[0]] + r)[i] != ([list[0]] + r)[j] {
          assert ([list[0]] + r)[j] == r[j - 1] && r[j - 1] in r;
        }
      }
    }
  }

  lemma FreeShare(heap: Heap, pool: Pool, others: multiset<Ptr>, p: nat)
    requires Owned(heap, pool, others) && Live(heap, p)
    ensures
      var r := heap[p].value;
      pool.refs ==
        others + Total(heap[p := None]) + Ref(r.bgGroup) + Ref(r.bgPath) + Ref(r.imageGroup) + Ref(r.imagePath) +
          Ref(r.session) + Ref(r.login)
  {
    hide Ref, Good;
    var r := heap[p].value;
    TotalUpdate(heap, p, None);
    assert Total(heap) == Total(heap[p := None]) + Held(r);
    hide Total;
  }

  lemma CoveredByNone(heap: Heap)
    requires Covered(heap, [], [])
    ensures Total(heap) == multiset{}
  {
    forall p | 0 <= p < |heap| ensures heap[p].None? {
      assert !Live(heap, p);
    }
    AllFreed(heap);
  }

  /** What the greeters are offered, user by user. */
  lemma UsersOffered(start: History, names: seq<string>, lusers: seq<nat>, heap: Heap, pool: Pool, history: seq<nat>)
    requires Users(start, names, lusers, heap, pool, history) && Listed(heap, history)
    ensures View(heap, pool, lusers) ==
      seq(|names|, j requires 0 <= j < |names| => Offered(start, View(heap, pool, history), names[j]))
  {
    forall j | 0 <= j < |names|
      ensures View(heap, pool, lusers)[j] == Offered(start, View(heap, pool, history), names[j])
    {
      assert UserAt(start, names[j], lusers[j], heap, pool, history);
    }
  }

  // ---------- the daemon's code ----------

  class Daemon {
    var heap: Heap
    var history: seq<nat>
    var lusers: seq<nat>
    var update: bool
    var file: seq<Stored>
    var pool: Pool
    ghost var others: multiset<Ptr>   // references held outside the history
    ghost var start: History          // the history read at start-up
    ghost var names: seq<string>      // the accepted users

    ghost predicate Lists()
      reads this
    {
      Ledger(start, names, lusers, heap, pool, others, history)
    }

    ghost predicate Valid()
      reads this
    {
      Lists() && Distinct(Now())
    }

    ghost function Now(): History
      reads this
    {
      View(heap, pool, history)
    }

    constructor (file: seq<Stored>, pool: Pool)
      requires Good(pool)
      ensures this.file == file && this.pool == pool && others == pool.refs
      ensures heap == [] && history == [] && lusers == [] && !update && start == [] && names == []
    {
      this.file, this.pool, others := file, pool, pool.refs;
      heap, history, lusers, update, start, names := [], [], [], false, [], [];
    }

    method StringshareAdd(s: string, ghost from: Pool) returns (x: Ptr)
      requires Good(pool) && Grows(from, pool)
      modifies this`pool
      ensures x != 0 && Adds(old(pool), s, x, pool)
      ensures Good(pool) && pool.refs == old(pool.refs) + Ref(x) && Str(pool, x) == Some(s) && Grows(from, pool)
    {
      if s in pool.text.Values {
        x :| x in pool.text && pool.text[x] == s;
      } else {
        UnusedPointer(pool.text.Keys);
        x :| x != 0 && x !in pool.text.Keys;
      }
      ghost var p := pool;
      pool := Pool(pool.text[x := s], pool.refs + multiset{x});
      AddGood(p, s, x, pool);
    }

    method StringshareDel(x: Ptr, ghost rest: multiset<Ptr>, ghost from: Pool)
      requires Good(pool) && pool.refs == rest + Ref(x) && Grows(pool, from)
      modifies this`pool
      ensures pool == Del(old(pool), x) && Good(pool) && pool.refs == rest && Grows(pool, from)
    {
      DelGood(pool, x, rest);
      pool := Del(pool, x);
    }

    /** A string that may be missing. */
    method StringshareAddOpt(s: Option<string>, ghost from: Pool) returns (x: Ptr)
      requires Good(pool) && Grows(from, pool)
      modifies this`pool
      ensures Good(pool) && pool.refs == old(pool.refs) + Ref(x) && Str(pool, x) == s && Grows(from, pool)
      ensures s.None? <==> x == 0
    {
      x := 0;
      if s.Some? {
        x := StringshareAdd(s.value, from);
      }
    }

    /** Drop the six strings of a record and free it. */
    method FreeLogin(p: nat)
      requires Owned(heap, pool, others) && Live(heap, p)
      modifies this`heap, this`pool
      ensures heap == old(heap)[p := None] && Owned(heap, pool, others) && Grows(pool, old(pool))
    {
      hide Ref, Total, Del, Good, Grows, Held, Owned;
      var r := heap[p].value;
      ghost var rest := others + Total(heap[p := None]);
      ghost var from := pool;
      OwnedMeans(heap, pool, others);
      FreeShare(heap, pool, others, p);
      GrowsSelf(pool);
      StringshareDel(r.login,
                     rest + Ref(r.bgGroup) + Ref(r.bgPath) + Ref(r.imageGroup) + Ref(r.imagePath) + Ref(r.session),
                     from);
      StringshareDel(r.session, rest + Ref(r.bgGroup) + Ref(r.bgPath) + Ref(r.imageGroup) + Ref(r.imagePath), from);
      StringshareDel(r.imagePath, rest + Ref(r.bgGroup) + Ref(r.bgPath) + Ref(r.imageGroup), from);
      StringshareDel(r.imageGroup, rest + Ref(r.bgGroup) + Ref(r.bgPath), from);
      StringshareDel(r.bgPath, rest + Ref(r.bgGroup), from);
      StringshareDel(r.bgGroup, rest, from);
      heap := heap[p := None];
      OwnedIs(heap, pool, others);
    }

    /** Allocate a record at the end of the heap. */
    method NewLogin(r: Login, ghost before: multiset<Ptr>)
      requires Good(pool) && before == Total(heap) && pool.refs == others + before + Held(r)
      modifies this`heap
      ensures heap == old(heap) + [Some(r)] && Owned(heap, pool, others)
    {
      hide Held, Total, Ref, Good;
      TotalAppend(heap, Some(r));
      Regroup(others, before, Held(r));
      heap := heap + [Some(r)];
    }

    /** Read the saved history, interning every string. */
    method Read()
      requires Owned(heap, pool, others) && heap == [] && history == []
      modifies this`heap, this`history, this`pool
      ensures Owned(heap, pool, others) && Listed(heap, history) && Covered(heap, history, [])
      ensures Now() == Logins(file) && Files(heap, pool, history) == file
    {
      hide Owned, Good, Total, Held, Ref, Grows, Show, Whole, Listed, Covered, Keeps, Live, At, Files, View;
      ReadNothing(heap, pool);
      for i := 0 to |file|
        invariant Owned(heap, pool, others) && Listed(heap, history) && Covered(heap, history, [])
        invariant Files(heap, pool, history) == file[..i]
      {
        ghost var h, p, l := heap, pool, history;
        ReadEntry(file[i]);
        ghost var r :| heap == h + [Some(r)] && r.login != 0 && Whole(pool, r) == file[i];
        AppendView(h, p, others, r, heap, pool, others, l);
        ListedLive(h, l);
        AppendFiles(h, p, others, r, heap, pool, others, l);
        CoveredAppend(h, heap, l, []);
        history := history + [|heap| - 1];
        assert file[..i + 1] == file[..i] + [file[i]];
      }
      assert file[..|file|] == file;
      FilesShow(heap, pool, history);
    }

    /** One more string, that may be missing, beside those interned so far. */
    method InternNext(s: Option<string>, ghost xs: seq<Ptr>, ghost ss: seq<Option<string>>, ghost from: Pool)
      returns (x: Ptr)
      requires Good(pool) && Interned(pool, xs, ss) && Grows(from, pool)
      modifies this`pool
      ensures Good(pool) && Interned(pool, xs + [x], ss + [s]) && Grows(from, pool)
      ensures pool.refs == old(pool.refs) + Ref(x)
    {
      hide Good, Grows, Ref, Str, Interned;
      ghost var p := pool;
      GrowsSelf(p);
      x := StringshareAddOpt(s, p);
      InternedMore(p, pool, xs, ss, x, s);
      GrowsThrough(from, p, pool, pool) by { GrowsSelf(pool); }
    }

    /** Intern the strings of a saved record. */
    method Intern(s: Stored) returns (r: Login)
      requires Good(pool)
      modifies this`pool
      ensures Good(pool) && pool.refs == old(pool.refs) + Held(r) && Grows(old(pool), pool)
      ensures r.login != 0 && Whole(pool, r) == s
    {
      hide Held, Ref, Good, Grows, Str, Whole;
      ghost var from := pool;
      GrowsSelf(from);
      var login := InternNext(Some(s.saved.login), [], [], from);
      ghost var xs, ss := [login], [Some(s.saved.login)];
      assert [] + xs == xs && [] + ss == ss;
      hide Interned;
      var session := InternNext(s.saved.session, xs, ss, from);
      xs, ss := xs + [session], ss + [s.saved.session];
      var imagePath := InternNext(s.imagePath, xs, ss, from);
      xs, ss := xs + [imagePath], ss + [s.imagePath];
      var imageGroup := InternNext(s.imageGroup, xs, ss, from);
      xs, ss := xs + [imageGroup], ss + [s.imageGroup];
      var bgPath := InternNext(s.bgPath, xs, ss, from);
      xs, ss := xs + [bgPath], ss + [s.bgPath];
      var bgGroup := InternNext(s.bgGroup, xs, ss, from);
      r := Login(login, session, imagePath, imageGroup, bgPath, bgGroup, s.saved.remember);
      HeldChain(from.refs, r);
      assert xs + [bgGroup] == [login, session, imagePath, imageGroup, bgPath, bgGroup];
      assert ss + [s.bgGroup] == [Some(s.saved.login), s.saved.session, s.imagePath, s.imageGroup, s.bgPath, s.bgGroup];
      WholeIs(pool, r, s);
    }

    method ReadEntry(s: Stored)
      requires Owned(heap, pool, others)
      modifies this`heap, this`pool
      ensures Owned(heap, pool, others) && Grows(old(pool), pool)
      ensures exists r :: heap == old(heap) + [Some(r)] && r.login != 0 && Whole(pool, r) == s
    {
      hide Held, Ref, Good, Grows, Total, Owned;
      OwnedMeans(heap, pool, others);
      var r := Intern(s);
      NewLogin(r, Total(heap));
    }

    /** A record with no images, for a login and perhaps a session. */
    method NewUser(login: string, session: Option<string>)
      requires Owned(heap, pool, others)
      modifies this`heap, this`pool
      ensures Owned(heap, pool, others) && Grows(old(pool), pool)
      ensures exists r :: heap == old(heap) + [Some(r)] && r.login != 0 && Show(pool, r) == Saved(login, session, true)
    {
      ReadEntry(Stored(Saved(login, session, true), None, None, None, None));
    }

    /** The history record of an interned login, found by comparing pointers. */
    method Match(login: Ptr, ghost outside: multiset<Ptr>) returns (k: nat)
      requires Owned(heap, pool, outside) && Listed(heap, history) && login in pool.text
      ensures k == Find(Now(), pool.text[login])
    {
      k := 0;
      while k < |history|
        invariant k <= |history|
        invariant forall i :: 0 <= i < k ==> Now()[i].login != pool.text[login]
      {
        Counted(heap, pool, outside, history[k]);
        SamePointer(pool, heap[history[k]].value.login, login);
        if heap[history[k]].value.login == login {
          break;
        }
        k := k + 1;
      }
      FirstIs(Logged(Now()), pool.text[login], k);
    }

    /** Put x, already counted in the pool, in the place of a record's session. */
    method SetSession(i: nat, x: Ptr, ghost before: Pool)
      requires Ledger(start, names, lusers, heap, before, others, history) && i < |history|
      requires Good(pool) && Grows(before, pool) && pool.refs == before.refs + Ref(x)
      modifies this`heap, this`pool
      ensures Lists()
      ensures
        var now := View(old(heap), before, history);
        Now() == now[i := now[i].(session := old(Str(pool, x)))]
    {
      hide Total, Held, Ref, Good, Del, Grows, Show, Str, Users, Covered;
      var p := history[i];
      var r := heap[p].value.(session := x);
      ghost var h, mid := heap, pool;
      OwnedMeans(heap, before, others);
      HeldSession(heap[p].value, x);
      RewriteShare(heap, before, others, p, r, Ref(x), Ref(heap[p].value.session));
      GrowsSelf(mid);
      StringshareDel(heap[p].value.session, others + Total(heap[p := Some(r)]), mid);
      heap := heap[p := Some(r)];
      SetShow(h, before, mid, heap, pool, others, p, x);
      AgreeThrough(before, mid, pool);
      Rewritten(start, names, lusers, h, before, others, history, heap, pool, i, r);
    }

    /** The first history record of a login, found by comparing strings. */
    method Search(login: string) returns (k: nat)
      requires Owned(heap, pool, others) && Listed(heap, history)
      ensures k == Find(Now(), login)
    {
      k := 0;
      while k < |history|
        invariant k <= |history|
        invariant forall i :: 0 <= i < k ==> Now()[i].login != login
      {
        Counted(heap, pool, others, history[k]);
        if pool.text[heap[history[k]].value.login] == login {
          break;
        }
        k := k + 1;
      }
      FirstIs(Logged(Now()), login, k);
    }

    /** A user asks for a session: the first record of that login changes, or a new record
        is added at the end. */
    method Check(login: string, session: Option<string>)
      requires Valid()
      modifies this`heap, this`history, this`pool, this`update
      ensures Valid()
      ensures Now() == After(old(Now()), Request(login, session))
      ensures update == (old(update) || Dirties(old(Now()), Request(login, session)))
    {
      hide Owned, Users, Listed, Covered, Good, Grows, Keeps, Live, Show;
      AfterKeeps(Now(), Request(login, session));
      var k := Search(login);
      if k < |history| {
        Remember(k, session);
      } else {
        ghost var h, p := heap, pool;
        NewUser(login, session);
        ghost var r :| heap == h + [Some(r)] && r.login != 0 && Show(pool, r) == Saved(login, session, true);
        Appended(start, names, lusers, h, p, others, history, r, heap, pool);
        history := history + [|heap| - 1];
        update := true;
      }
    }

    /** The request of a user whose record is known. */
    method Remember(k: nat, session: Option<string>)
      requires Valid() && k < |history|
      modifies this`heap, this`pool, this`update
      ensures Lists()
      ensures Now() == old(Now())[k := Updated(old(Now())[k], session)]
      ensures update ==
        (old(update) ||
         (old(Now())[k].remember && old(Now())[k].session.Some? && session.Some? && old(Now())[k].session != session))
    {
      hide Ledger, Good, Grows, Show;
      EntryShown(start, names, lusers, heap, pool, others, history, k);
      LedgerOwned(start, names, lusers, heap, pool, others, history);
      var el := heap[history[k]].value;
      ghost var p := pool;
      NoReference(p);
      GrowsSelf(p);
      if el.remember {
        if session.None? {
          SetSession(k, 0, p);
        } else if el.session != 0 && session.value != pool.text[el.session] {
          var x := StringshareAdd(session.value, p);
          SetSession(k, x, p);
          update := true;
        }
      }
    }

    /** Every line of the password file that is a user's, then a record for each. */
    method UserInit(lines: seq<string>, present: set<string>)
      requires Lists() && lusers == [] && names == [] && start == Now()
      requires Distinct(start)
      modifies this`heap, this`pool, this`lusers, this`names, this`others
      ensures Valid() && names == Accepted(lines) && others == old(others)
      ensures Now() == start && AllPictured(heap, pool, present, lusers)
      ensures NoRepeats(lusers) <==> SharedOnce(start, names)
    {
      hide Ledger, Accepted, AllPictured, MidwayAt, Awaiting;
      var lu := ScanUsers(lines);
      ghost var all := Accepted(lines);
      assert lu[0..] == lu && all[0..] == all;
      SameLength(lu, all, pool);
      MidwayStart(names, all, lusers, lu, old(others), present, start, heap, pool, others, history);
      for i := 0 to |lu|
        invariant |lu| == |all| && Now() == start && names == all[..i]
        invariant Midway(Work(names, lusers, lu[i..], all[i..], old(others), present, lusers))
      {
        assert lu[i..] == [lu[i]] + lu[i + 1..];
        assert all[i + 1..] == all[i..][1..];
        AddUser(lu[i], present, lu[i + 1..], all, i, old(others));
      }
      assert lu[|lu|..] == [] && all[..|all|] == all;
      MidwayEnd(Work(names, lusers, [], all[|lu|..], old(others), present, lusers), start, heap, pool, others, history);
      LedgerTwins(start, names, lusers, heap, pool, others, history);
      SharedTwice(start, names, lusers);
    }

    /** How far the loop over the accepted users is. */
    ghost predicate Midway(w: Work)
      reads this
    {
      MidwayAt(w, start, heap, pool, others, history)
    }

    /** The interned names of the accepted users. */
    method ScanUsers(lines: seq<string>) returns (lu: seq<Ptr>)
      requires Lists()
      modifies this`pool, this`others
      ensures Lists() && Now() == old(Now())
      ensures Awaiting(lu, Accepted(lines), pool) && others == old(others) + multiset(lu)
    {
      hide Ledger, Awaiting, Accepted, AcceptedUser, View;
      NoneAwaiting(pool);
      lu := [];
      for i := 0 to |lines|
        invariant Lists() && Now() == old(Now())
        invariant Awaiting(lu, Accepted(lines[..i]), pool) && others == old(others) + multiset(lu)
      {
        var user := ParseLine(lines[i]);
        AcceptedNext(lines, i);
        if user.Some? {
          var x := Enlist(user.value, lu, Accepted(lines[..i]), old(others));
          lu := lu + [x];
        }
      }
      assert lines[..|lines|] == lines;
    }

    /** One more interned name. */
    method Enlist(user: string, ghost lu: seq<Ptr>, ghost ns: seq<string>, ghost base: multiset<Ptr>) returns (x: Ptr)
      requires Lists() && Awaiting(lu, ns, pool) && others == base + multiset(lu)
      modifies this`pool, this`others
      ensures Lists() && Now() == old(Now())
      ensures Awaiting(lu + [x], ns + [user], pool) && others == base + multiset(lu + [x])
    {
      hide Ledger, Owned, Grows, Agree, Awaiting, Good, Ref, View;
      ghost var p, o := pool, others;
      GrowsSelf(p);
      LedgerOwned(start, names, lusers, heap, p, o, history);
      x := StringshareAdd(user, p);
      others := others + Ref(x);
      OneMore(heap, p, o, pool, x);
      GrowsAgree(p, pool);
      OtherReferences(start, names, lusers, heap, p, o, history, pool, others);
      OneMoreAwaiting(lu, ns, p, pool, x, user);
      Regroup(base, multiset(lu), Ref(x));
    }

    /** The record of the next user: the history's when it has one, else a new one. */
    method UserRecord(user: Ptr, ghost n: string) returns (p: nat)
      requires Lists() && Now() == start && user in pool.text && pool.text[user] == n
      modifies this`heap, this`pool
      ensures Ledger(start, names + [n], lusers + [p], heap, pool, others, history)
      ensures Now() == start && Grows(old(pool), pool) && old(heap) <= heap && Live(heap, p)
    {
      hide Owned, Users, Covered, Grows;
      GrowsSelf(pool);
      var k := Match(user, others);
      if k < |history| {
        p := history[k];
        SharedUser(start, names, lusers, heap, pool, others, history, n);
      } else {
        ghost var h, q := heap, pool;
        p := |heap|;
        NewUser(pool.text[user], None);
        ghost var r :| heap == h + [Some(r)] && r.login != 0 && Show(pool, r) == Saved(n, None, true);
        SeparateUser(start, names, lusers, h, q, others, history, n, r, heap, pool);
      }
    }

    /** The next user: find or make the record, drop the temporary name, clear pictures that
        are gone, and list the record. */
    method AddUser(user: Ptr, present: set<string>, ghost rest: seq<Ptr>, ghost all: seq<string>, ghost i: nat,
                   ghost base: multiset<Ptr>)
      requires Now() == start && i < |all| && names == all[..i]
      requires Midway(Work(names, lusers, [user] + rest, all[i..], base, present, lusers))
      modifies this`heap, this`pool, this`lusers, this`names, this`others
      ensures Now() == start && names == all[..i + 1]
      ensures Midway(Work(names, lusers, rest, all[i + 1..], base, present, lusers))
    {
      hide Ledger, Owned, Good, Pictured, AllPictured, Awaiting, View, Grows, Agree, MidwayAt, Missing;
      MidwayParts(Work(names, lusers, [user] + rest, all[i..], base, present, lusers),
                  start, heap, pool, others, history);
      LedgerOwned(start, names, lusers, heap, pool, others, history);
      ghost var n := all[i];
      ghost var h, was := heap, pool;
      assert names + [n] == all[..i + 1];
      Later(user, rest, all, i, pool);
      var p := UserRecord(user, n);
      LedgerOwned(start, names + [n], lusers + [p], heap, pool, others, history);
      GrowsAgree(was, pool);
      StillThere(was, pool, user);
      LongerHeap(h, heap);
      StillPictured(h, was, others, heap, pool, others, present, lusers);
      StillAwaiting(rest, all[i + 1..], was, heap, pool, base, multiset([user] + rest));
      ghost var w := Work(names + [n], lusers + [p], rest, all[i + 1..], base, present, lusers);
      DropName(user, w);
      ClearImage(p, present, w);
      ClearBackground(p, present, w);
      RecordListed(w, start, heap, pool, others, history, p);
      lusers := lusers + [p];
      names := names + [n];
    }

    method DropName(user: Ptr, ghost w: Work)
      requires Ledger(start, w.names, w.users, heap, pool, others, history)
      requires others == w.base + multiset([user] + w.rest)
      requires user in pool.text && Awaiting(w.rest, w.todo, pool) && AllPictured(heap, pool, w.present, w.done)
      modifies this`pool, this`others
      ensures Midway(w) && Now() == old(Now())
    {
      hide Users, Listed, Covered, Total, AllPictured;
      ghost var was, o := pool, others;
      NameShare(heap, pool, w.base, user, w.rest);
      GrowsSelf(pool);
      StringshareDel(user, w.base + multiset(w.rest) + Total(heap), pool);
      others := w.base + multiset(w.rest);
      OtherReferences(start, w.names, w.users, heap, was, o, history, pool, others);
      StillPictured(heap, was, o, heap, pool, others, w.present, w.done);
      StillAwaiting(w.rest, w.todo, was, heap, pool, w.base, multiset(w.rest));
    }

    /** The user's picture, when its file is gone. */
    method ClearImage(p: nat, present: set<string>, ghost w: Work)
      requires Midway(w) && Live(heap, p) && w.present == present
      modifies this`heap, this`pool
      ensures Midway(w) && Now() == old(Now()) && Live(heap, p) && !Missing(pool, heap[p].value.imagePath, present)
      ensures
        var r := old(heap)[p].value;
        var gone := r.imagePath in old(pool).text && old(pool).text[r.imagePath] !in present;
        var left := if gone then 0 else r.imagePath;
        heap == old(heap)[p := Some(r.(imagePath := left))]
    {
      hide Total, Held, MidwayAt, Good, Owned, Grows, Ref, Del;
      MidwayOwned(w, start, heap, pool, others, history);
      PathGuard(heap, pool, others, p, present);
      var r := heap[p].value;
      assert r == r.(imagePath := r.imagePath) && heap == heap[p := Some(r)];
      if r.imagePath != 0 && pool.text[r.imagePath] !in present {
        ghost var h, was := heap, pool;
        var s := r.(imagePath := 0);
        PathShare(heap, pool, others, p, s, r.imagePath);
        GrowsSelf(pool);
        StringshareDel(r.imagePath, others + Total(heap[p := Some(s)]), pool);
        heap := heap[p := Some(s)];
        OwnedIs(heap, pool, others);
        PathGuard(heap, pool, others, p, present);
        PathCleared(w, start, h, was, others, history, p, s, pool);
      }
    }

    /** The user's background, when its file is gone. */
    method ClearBackground(p: nat, present: set<string>, ghost w: Work)
      requires Midway(w) && Live(heap, p) && w.present == present && !Missing(pool, heap[p].value.imagePath, present)
      modifies this`heap, this`pool
      ensures Midway(w) && Now() == old(Now()) && Pictured(heap, pool, present, p)
      ensures
        var r := old(heap)[p].value;
        var gone := r.bgPath in old(pool).text && old(pool).text[r.bgPath] !in present;
        var left := if gone then 0 else r.bgPath;
        heap == old(heap)[p := Some(r.(bgPath := left))]
    {
      hide Total, Held, MidwayAt, Good, Owned, Grows, Ref, Del;
      MidwayOwned(w, start, heap, pool, others, history);
      PathGuard(heap, pool, others, p, present);
      var r := heap[p].value;
      assert r == r.(bgPath := r.bgPath) && heap == heap[p := Some(r)];
      if r.bgPath != 0 && pool.text[r.bgPath] !in present {
        ghost var h, was := heap, pool;
        var s := r.(bgPath := 0);
        PathShare(heap, pool, others, p, s, r.bgPath);
        GrowsSelf(pool);
        StringshareDel(r.bgPath, others + Total(heap[p := Some(s)]), pool);
        heap := heap[p := Some(s)];
        OwnedIs(heap, pool, others);
        PathGuard(heap, pool, others, p, present);
        PathCleared(w, start, h, was, others, history, p, s, pool);
      }
    }

    /** Save the history when a check asked for it. */
    method Write()
      requires Lists()
      modifies this`file
      ensures file == if update then Files(heap, pool, history) else old(file)
      ensures Logins(file) == if update then Now() else old(Logins(file))
    {
      if update {
        hide Owned, Users, Covered, Whole;
        var g, q, l := heap, pool, history;
        file := seq(|l|, i requires 0 <= i < |l| && Live(g, l[i]) => Whole(q, g[l[i]].value));
        FilesShow(heap, pool, history);
      }
    }

    /** Free the records on the users' list, each taken off the history first. A record that is
        on the list twice has been freed when the list comes to it again: `again` says so, and
        what the source does from there on is undefined. */
    method UserShutdown() returns (again: bool)
      requires Owned(heap, pool, others) && Listed(heap, history) && AllLive(heap, lusers)
      requires Covered(heap, history, lusers)
      modifies this`heap, this`pool, this`history, this`lusers
      ensures again <==> !NoRepeats(old(lusers))
      ensures again ==> lusers != [] && lusers[0] in old(lusers) && !Live(heap, lusers[0])
      ensures !again ==>
        Owned(heap, pool, others) && Listed(heap, history) && Covered(heap, history, []) && lusers == []
    {
      hide Owned, Grows, Listed, Covered;
      ghost var all, done := lusers, 0;
      while lusers != []
        invariant done <= |all| && lusers == all[done..] && Freed(heap, all, done)
        invariant Owned(heap, pool, others) && Listed(heap, history) && Covered(heap, history, lusers)
        decreases |lusers|
      {
        var eu := lusers[0];
        if !Live(heap, eu) {
          FreedTwice(heap, all, done);
          return true;
        }
        assert lusers == [eu] + lusers[1..];
        Unlisted(heap, eu, history, lusers[1..]);
        FreedOnce(heap, all, done);
        lusers := lusers[1..];
        history := Remove(history, eu);
        FreeLogin(eu);
        done := done + 1;
      }
      assert all[..|all|] == all;
      return false;
    }

    /** Save, then free both lists. */
    method HistoryShutdown() returns (again: bool)
      requires Lists()
      modifies this`heap, this`pool, this`history, this`lusers, this`file
      ensures Logins(file) == if update then old(Now()) else old(Logins(file))
      ensures again <==> !SharedOnce(start, names)
      ensures !again ==> (forall p: nat :: !Live(heap, p)) && Good(pool) && pool.refs == others
    {
      hide Owned, Grows, Users, Listed, Covered, AllLive, Twins;
      SharedTwice(start, names, lusers);
      Write();
      again := UserShutdown();
      if again {
        return;
      }
      assert Covered(heap, history, []);
      while history != []
        invariant Logins(file) == if update then old(Now()) else old(Logins(file))
        invariant Owned(heap, pool, others) && Listed(heap, history) && Covered(heap, history, [])
        decreases |history|
      {
        var el := history[0];
        HeadLive(heap, history);
        UnlistedHead(heap, el, history);
        history := history[1..];
        FreeLogin(el);
      }
      hide Logins;
      CoveredByNone(heap);
      OwnedMeans(heap, pool, others);
      NoneLive(heap);
    }

    /** The users as the greeters are sent them. */
    method HistoryGet() returns (us: seq<Saved>)
      requires Valid()
      ensures |us| == |names| && forall j :: 0 <= j < |names| ==> us[j] == Offered(start, Now(), names[j])
    {
      UsersOffered(start, names, lusers, heap, pool, history);
      us := View(heap, pool, lusers);
    }

    /** A whole life: start-up, any run of checks, the users as they are shown then, shutdown. */
    method Life(lines: seq<string>, present: set<string>, rs: seq<Request>) returns (us: seq<Saved>, again: bool)
      requires heap == [] && history == [] && lusers == [] && !update && Good(pool) && pool.refs == others
      requires Distinct(Logins(file))
      modifies this
      ensures again <==> !SharedOnce(old(Logins(file)), Accepted(lines))
      ensures !again ==> (forall p: nat :: !Live(heap, p)) && Good(pool) && pool.refs == old(pool.refs)
      ensures Logins(file) == Kept(old(Logins(file)), rs)
      ensures |us| == |Accepted(lines)|
      ensures forall j :: 0 <= j < |us| ==>
        us[j] == Offered(old(Logins(file)), Ran(old(Logins(file)), rs), Accepted(lines)[j])
    {
      hide Owned, Users, Listed, AllLive, Covered, Twins, SharedOnce, Show, View, Awaiting, Good, Grows, Accepted;
      hide Logins, Ran, Dirty, Offered, AllPictured, NoRepeats, Live;
      assert Owned(heap, pool, others) by { NothingOwned(heap, pool); }
      Read();
      Began(heap, pool, others, history);
      start, names := Now(), [];
      UserInit(lines, present);
      assert rs[..0] == [];
      RanNone(start);
      for i := 0 to |rs|
        invariant Valid() && Now() == Ran(start, rs[..i]) && update == Dirty(start, rs[..i])
        invariant start == old(Logins(file)) && file == old(file) && others == old(others) && names == Accepted(lines)
      {
        RanAppend(start, rs[..i], rs[i]);
        assert rs[..i + 1] == rs[..i] + [rs[i]];
        Check(rs[i].login, rs[i].session);
      }
      assert rs[..|rs|] == rs;
      us := HistoryGet();
      again := HistoryShutdown();
    }
  }
}
