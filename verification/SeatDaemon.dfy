/** The daemon's side of the seats: heap records reached through per-seat pointer arrays,
    callbacks registered with the event loop by record address, and the process table.
    `malloc` and `free` are explicit: a record can be read or freed only while its address
    is a key of its heap, so every dereference below is a proof that it is still live. */
module SeatDaemon {
  import opened Wrappers
  import opened SeatSpec
  import Naming

  /** An address; 0 is NULL. Addresses are not reused. */
  type Ptr = nat

  datatype XRecord = XRecord(id: nat, display: string, vt: nat, handlerStart: nat)
  datatype SessionRecord = SessionRecord(pid: nat, vt: nat, display: string)
  datatype ClientRecord = ClientRecord(id: nat, pid: nat, exe: nat, handlers: seq<nat>)

  /** A process; `life` is how many more times the daemon will find it still there, and
      `child` whether waitpid can see it. */
  datatype Process = Process(life: nat, child: bool)

  ghost function AwaitLog(log: Log, pid: nat): Log {
    if pid in Live(log) then log + [Gone(pid)] else log
  }

  // ---------- what the records of a set of seats look like ----------

  lemma PutSize<V>(m: map<nat, V>, k: nat, v: V)
    requires k !in m
    ensures |m[k := v]| == |m| + 1
  {
    assert m[k := v].Keys == m.Keys + {k};
  }

  lemma DropSize<V>(m: map<nat, V>, k: nat)
    requires k in m
    ensures |m - {k}| == |m| - 1
  {
    assert (m - {k}).Keys == m.Keys - {k};
  }

  /** Exactly the seats of S have an X record, each with its one X-ready handler. */
  ghost predicate XPart(S: set<nat>, xservers: seq<Ptr>, xheap: map<Ptr, XRecord>, xhandlers: map<nat, Ptr>,
                        xdisplay: string, vtnr: nat) {
    && |xheap| == |S| && |xhandlers| == |S|
    && XLinks(S, xservers, xheap, xhandlers)
    && forall p :: p in xheap ==> XNamed(xheap[p], xdisplay, vtnr)
  }

  ghost predicate XLinks(S: set<nat>, xservers: seq<Ptr>, xheap: map<Ptr, XRecord>, xhandlers: map<nat, Ptr>) {
    && (forall i :: i in S ==> i < |xservers| && xservers[i] in xheap && xheap[xservers[i]].id == i)
    && (forall p :: p in xheap ==>
          && xheap[p].id in S && xheap[p].id < |xservers| && xservers[xheap[p].id] == p
          && xheap[p].handlerStart in xhandlers && xhandlers[xheap[p].handlerStart] == p)
    && (forall h :: h in xhandlers ==> xhandlers[h] in xheap && xheap[xhandlers[h]].handlerStart == h)
  }

  ghost predicate XNamed(r: XRecord, xdisplay: string, vtnr: nat) {
    r.display == Naming.Display(xdisplay, r.id) && r.vt == Naming.Vt(vtnr, r.id)
  }

  /** Exactly the seats of S have a session record, and no two share one. */
  ghost predicate SPart(S: set<nat>, sessions: seq<Ptr>, sheap: map<Ptr, SessionRecord>) {
    |sheap| == |S| && SLinks(S, sessions, sheap)
  }

  /** A seat's session record carries the seat's own names. */
  ghost predicate SNamed(r: SessionRecord, i: nat, xdisplay: string, vtnr: nat) {
    r.display == Naming.Display(xdisplay, i) && r.vt == Naming.Vt(vtnr, i)
  }

  ghost predicate SNames(S: set<nat>, sessions: seq<Ptr>, sheap: map<Ptr, SessionRecord>, xdisplay: string, vtnr: nat) {
    forall i :: i in S && i < |sessions| && sessions[i] in sheap ==> SNamed(sheap[sessions[i]], i, xdisplay, vtnr)
  }

  ghost predicate SLinks(S: set<nat>, sessions: seq<Ptr>, sheap: map<Ptr, SessionRecord>) {
    && (forall i :: i in S ==> i < |sessions| && sessions[i] in sheap)
    && (forall i, j :: i in S && j in S && i != j ==> sessions[i] != sessions[j])
  }

  /** The client side of the daemon: pointers, records, and the three callback lists. */
  datatype Table = Table(clients: seq<Ptr>, heap: map<Ptr, ClientRecord>, dels: map<nat, Ptr>, errors: set<nat>,
                         datas: set<nat>)

  function WithClient(t: Table, p: Ptr, r: ClientRecord, h: nat): Table
    requires r.id < |t.clients|
  {
    Table(t.clients[r.id := p], t.heap[p := r], t.dels[h := p], t.errors + {h + 1}, t.datas + {h + 2})
  }

  function WithoutClient(t: Table, id: nat): Table
    requires id < |t.clients| && t.clients[id] in t.heap && |t.heap[t.clients[id]].handlers| == 3
  {
    var p := t.clients[id];
    var hs := t.heap[p].handlers;
    Table(t.clients[id := 0], t.heap - {p}, t.dels - {hs[0]}, t.errors - {hs[1]}, t.datas - {hs[2]})
  }

  /** Exactly the seats of C have a client record, each with its three handlers. */
  ghost predicate CPart(C: set<nat>, t: Table) {
    && |t.heap| == |C| && |t.dels| == |C| && |t.errors| == |C| && |t.datas| == |C|
    && CLinks(C, t.clients, t.heap)
    && CHandlers(t.heap, t.dels, t.errors, t.datas)
  }

  ghost predicate CLinks(C: set<nat>, clients: seq<Ptr>, cheap: map<Ptr, ClientRecord>) {
    && (forall i :: 0 <= i < |clients| ==> (clients[i] != 0 <==> i in C))
    && (forall i :: i in C ==> i < |clients| && clients[i] in cheap && cheap[clients[i]].id == i)
    && (forall p :: p in cheap ==> cheap[p].id in C && cheap[p].id < |clients| && clients[cheap[p].id] == p)
  }

  ghost predicate CHandlers(cheap: map<Ptr, ClientRecord>, dels: map<nat, Ptr>, errors: set<nat>, datas: set<nat>) {
    && (forall p :: p in cheap ==> Registered(cheap[p].handlers, p, dels, errors, datas))
    && (forall h :: h in dels ==> dels[h] in cheap && cheap[dels[h]].handlers[0] == h)
  }

  ghost predicate Registered(hs: seq<nat>, p: Ptr, dels: map<nat, Ptr>, errors: set<nat>, datas: set<nat>) {
    && |hs| == 3 && hs[1] == hs[0] + 1 && hs[2] == hs[0] + 2
    && hs[0] in dels && dels[hs[0]] == p && hs[1] in errors && hs[2] in datas
  }

  lemma XRemove(S: set<nat>, xservers: seq<Ptr>, xheap: map<Ptr, XRecord>, xhandlers: map<nat, Ptr>,
                xdisplay: string, vtnr: nat, id: nat)
    requires XPart(S, xservers, xheap, xhandlers, xdisplay, vtnr) && id in S
    ensures XPart(S - {id}, xservers, xheap - {xservers[id]}, xhandlers - {xheap[xservers[id]].handlerStart},
                  xdisplay, vtnr)
  {
    hide XNamed;
    DropSize(xheap, xservers[id]);
    DropSize(xhandlers, xheap[xservers[id]].handlerStart);
  }

  lemma XAdd(S: set<nat>, xservers: seq<Ptr>, xheap: map<Ptr, XRecord>, xhandlers: map<nat, Ptr>,
             xdisplay: string, vtnr: nat, p: Ptr, r: XRecord)
    requires XPart(S, xservers, xheap, xhandlers, xdisplay, vtnr) && r.id !in S && r.id < |xservers|
    requires p !in xheap && r.handlerStart !in xhandlers && XNamed(r, xdisplay, vtnr)
    ensures XPart(S + {r.id}, xservers[r.id := p], xheap[p := r], xhandlers[r.handlerStart := p], xdisplay, vtnr)
  {
    hide XNamed;
    PutSize(xheap, p, r);
    PutSize(xhandlers, r.handlerStart, p);
    XAddLinks(S, xservers, xheap, xhandlers, p, r);
    hide XLinks;
  }

  lemma XAddLinks(S: set<nat>, xservers: seq<Ptr>, xheap: map<Ptr, XRecord>, xhandlers: map<nat, Ptr>, p: Ptr,
                  r: XRecord)
    requires XLinks(S, xservers, xheap, xhandlers) && r.id !in S && r.id < |xservers|
    requires p !in xheap && r.handlerStart !in xhandlers
    ensures XLinks(S + {r.id}, xservers[r.id := p], xheap[p := r], xhandlers[r.handlerStart := p])
  {
  }

  lemma SRemove(S: set<nat>, sessions: seq<Ptr>, sheap: map<Ptr, SessionRecord>, id: nat)
    requires SPart(S, sessions, sheap) && id in S
    ensures SPart(S - {id}, sessions, sheap - {sessions[id]})
  {
    DropSize(sheap, sessions[id]);
  }

  lemma SAdd(S: set<nat>, sessions: seq<Ptr>, sheap: map<Ptr, SessionRecord>, id: nat, p: Ptr, r: SessionRecord)
    requires SPart(S, sessions, sheap) && id !in S && id < |sessions| && p !in sheap
    ensures SPart(S + {id}, sessions[id := p], sheap[p := r])
  {
    PutSize(sheap, p, r);
    SAddLinks(S, sessions, sheap, id, p, r);
    hide SLinks;
  }

  lemma SAddLinks(S: set<nat>, sessions: seq<Ptr>, sheap: map<Ptr, SessionRecord>, id: nat, p: Ptr, r: SessionRecord)
    requires SLinks(S, sessions, sheap) && id !in S && id < |sessions| && p !in sheap
    ensures SLinks(S + {id}, sessions[id := p], sheap[p := r])
  {
  }

  lemma CRecord(C: set<nat>, t: Table, id: nat)
    requires CPart(C, t) && id in C
    ensures id < |t.clients| && t.clients[id] in t.heap
    ensures
      var r := t.heap[t.clients[id]];
      && r.id == id && |r.handlers| == 3
      && r.handlers[0] in t.dels && r.handlers[1] in t.errors && r.handlers[2] in t.datas
  {
    assert Registered(t.heap[t.clients[id]].handlers, t.clients[id], t.dels, t.errors, t.datas);
  }

  lemma CRemove(C: set<nat>, t: Table, id: nat)
    requires id < |t.clients| && t.clients[id] in t.heap && |t.heap[t.clients[id]].handlers| == 3
    requires id in C && CPart(C, t)
    ensures CPart(C - {id}, WithoutClient(t, id))
  {
    var p := t.clients[id];
    var hs := t.heap[p].handlers;
    hide CHandlers, CLinks, Registered;
    CRecord(C, t, id);
    CRemoveHandlers(t.heap, t.dels, t.errors, t.datas, p);
    CRemoveLinks(C, t.clients, t.heap, id);
    CRemoveSizes(C, t, id, p, hs);
  }

  lemma CRemoveSizes(C: set<nat>, t: Table, id: nat, p: Ptr, hs: seq<nat>)
    requires |t.heap| == |t.dels| == |t.errors| == |t.datas| == |C| && id in C && p in t.heap
    requires |hs| == 3 && hs[0] in t.dels && hs[1] in t.errors && hs[2] in t.datas
    ensures |t.heap - {p}| == |t.dels - {hs[0]}| == |t.errors - {hs[1]}| == |t.datas - {hs[2]}| == |C - {id}|
  {
    DropSize(t.heap, p);
    DropSize(t.dels, hs[0]);
  }

  lemma CRemoveLinks(C: set<nat>, clients: seq<Ptr>, cheap: map<Ptr, ClientRecord>, id: nat)
    requires CLinks(C, clients, cheap) && id in C
    ensures CLinks(C - {id}, clients[id := 0], cheap - {clients[id]})
  {
  }

  lemma CRemoveHandlers(cheap: map<Ptr, ClientRecord>, dels: map<nat, Ptr>, errors: set<nat>, datas: set<nat>, p: Ptr)
    requires CHandlers(cheap, dels, errors, datas) && p in cheap
    ensures
      var hs := cheap[p].handlers;
      && |hs| == 3
      && CHandlers(cheap - {p}, dels - {hs[0]}, errors - {hs[1]}, datas - {hs[2]})
  {
    var hs := cheap[p].handlers;
    assert Registered(hs, p, dels, errors, datas);
    forall q | q in cheap && q != p
      ensures Registered(cheap[q].handlers, q, dels - {hs[0]}, errors - {hs[1]}, datas - {hs[2]})
    {
      assert Registered(cheap[q].handlers, q, dels, errors, datas);
    }
  }

  lemma CAdd(C: set<nat>, t: Table, p: Ptr, r: ClientRecord, h: nat)
    requires r.id < |t.clients| && r.id !in C && p !in t.heap && p != 0 && r.handlers == [h, h + 1, h + 2]
    requires h !in t.dels && h + 1 !in t.errors && h + 2 !in t.datas
    requires CPart(C, t)
    ensures CPart(C + {r.id}, WithClient(t, p, r, h))
  {
    hide CHandlers, CLinks, Registered;
    CAddHandlers(t.heap, t.dels, t.errors, t.datas, p, r, h);
    CAddLinks(C, t.clients, t.heap, p, r);
    CAddSizes(C, t, p, r, h);
  }

  lemma CAddSizes(C: set<nat>, t: Table, p: Ptr, r: ClientRecord, h: nat)
    requires |t.heap| == |t.dels| == |t.errors| == |t.datas| == |C| && r.id !in C && p !in t.heap
    requires h !in t.dels && h + 1 !in t.errors && h + 2 !in t.datas
    ensures |t.heap[p := r]| == |t.dels[h := p]| == |t.errors + {h + 1}| == |t.datas + {h + 2}| == |C + {r.id}|
  {
    PutSize(t.heap, p, r);
    PutSize(t.dels, h, p);
  }

  lemma CAddLinks(C: set<nat>, clients: seq<Ptr>, cheap: map<Ptr, ClientRecord>, p: Ptr, r: ClientRecord)
    requires CLinks(C, clients, cheap) && r.id !in C && r.id < |clients| && p !in cheap && p != 0
    ensures CLinks(C + {r.id}, clients[r.id := p], cheap[p := r])
  {
  }

  lemma CAddHandlers(cheap: map<Ptr, ClientRecord>, dels: map<nat, Ptr>, errors: set<nat>, datas: set<nat>,
                     p: Ptr, r: ClientRecord, h: nat)
    requires CHandlers(cheap, dels, errors, datas) && p !in cheap && r.handlers == [h, h + 1, h + 2]
    requires h !in dels
    ensures CHandlers(cheap[p := r], dels[h := p], errors + {h + 1}, datas + {h + 2})
  {
    forall q | q in cheap
      ensures Registered(cheap[q].handlers, q, dels[h := p], errors + {h + 1}, datas + {h + 2})
    {
      assert Registered(cheap[q].handlers, q, dels, errors, datas);
    }
  }

  // ---------- the daemon ----------

  ghost function UpTo(n: nat): (s: set<nat>)
    ensures forall i: nat :: i in s <==> i < n
    ensures |s| == n
  {
    if n == 0 then {} else UpTo(n - 1) + {n - 1}
  }

  ghost predicate Below(s: set<nat>, n: nat) {
    forall k :: k in s ==> k < n
  }

  /** The whole memory of the daemon. */
  datatype Mem = Mem(xservers: seq<Ptr>, xheap: map<Ptr, XRecord>, sessions: seq<Ptr>, sheap: map<Ptr, SessionRecord>,
                     client: Table, xhandlers: map<nat, Ptr>, nextPtr: nat, nextHandler: nat)

  /** Addresses and callback numbers in use have been handed out, each callback number once. */
  ghost predicate Fresh(m: Mem) {
    && 0 < m.nextPtr
    && Below(m.xheap.Keys, m.nextPtr) && Below(m.sheap.Keys, m.nextPtr) && Below(m.client.heap.Keys, m.nextPtr)
    && Below(m.xhandlers.Keys, m.nextHandler) && Below(m.client.dels.Keys, m.nextHandler)
    && Below(m.client.errors, m.nextHandler) && Below(m.client.datas, m.nextHandler)
    && m.client.dels.Keys !! m.client.errors !! m.client.datas
  }

  /** The seats of S have one live X record, one live session record and one X-ready callback
      each; the seats of C have a client record and three more callbacks. */
  ghost predicate Parts(m: Mem, n: nat, xdisplay: string, vtnr: nat, S: set<nat>, C: set<nat>) {
    && |m.xservers| == n && |m.sessions| == n && |m.client.clients| == n
    && Fresh(m)
    && XPart(S, m.xservers, m.xheap, m.xhandlers, xdisplay, vtnr)
    && SPart(S, m.sessions, m.sheap) && SNames(S, m.sessions, m.sheap, xdisplay, vtnr)
    && CPart(C, m.client)
    && C <= S
  }

  /** Memory after everything a seat owned has been freed and unregistered. */
  ghost function Released(m: Mem, id: nat): Mem
    requires id < |m.xservers| && m.xservers[id] in m.xheap && id < |m.sessions|
    requires id < |m.client.clients| && m.client.clients[id] in m.client.heap
    requires |m.client.heap[m.client.clients[id]].handlers| == 3
  {
    m.(xheap := m.xheap - {m.xservers[id]}, xhandlers := m.xhandlers - {m.xheap[m.xservers[id]].handlerStart},
       sheap := m.sheap - {m.sessions[id]}, client := WithoutClient(m.client, id))
  }

  lemma Owned(m: Mem, n: nat, xdisplay: string, vtnr: nat, S: set<nat>, C: set<nat>, id: nat)
    requires Parts(m, n, xdisplay, vtnr, S, C) && id in S
    ensures id < n && m.xservers[id] in m.xheap && m.xheap[m.xservers[id]].id == id && m.sessions[id] in m.sheap
    ensures m.client.clients[id] != 0 <==> id in C
    ensures id in C ==> m.client.clients[id] in m.client.heap
    ensures id in C ==>
      m.client.heap[m.client.clients[id]].id == id && |m.client.heap[m.client.clients[id]].handlers| == 3
  {
    if id in C { CRecord(C, m.client, id); }
  }

  lemma ReleasedFresh(m: Mem, id: nat)
    requires Fresh(m) && id < |m.xservers| && m.xservers[id] in m.xheap && id < |m.sessions|
    requires id < |m.client.clients| && m.client.clients[id] in m.client.heap
    requires |m.client.heap[m.client.clients[id]].handlers| == 3
    ensures Fresh(Released(m, id))
  {
  }

  lemma ReleasedParts(m: Mem, n: nat, xdisplay: string, vtnr: nat, S: set<nat>, C: set<nat>, id: nat)
    requires id < |m.xservers| && m.xservers[id] in m.xheap && id < |m.sessions|
    requires id < |m.client.clients| && m.client.clients[id] in m.client.heap
    requires |m.client.heap[m.client.clients[id]].handlers| == 3
    requires id in C && Parts(m, n, xdisplay, vtnr, S, C)
    ensures Parts(Released(m, id), n, xdisplay, vtnr, S - {id}, C - {id})
  {
    hide Fresh, XPart, SPart, CPart, SNamed;
    ReleasedFresh(m, id);
    XRemove(S, m.xservers, m.xheap, m.xhandlers, xdisplay, vtnr, id);
    SRemove(S, m.sessions, m.sheap, id);
    CRemove(C, m.client, id);
  }

  /** Memory after a seat's session record, X record and X-ready callback have been made. */
  ghost function WithX(m: Mem, id: nat, xdisplay: string, vtnr: nat): Mem
    requires id < |m.xservers| && id < |m.sessions|
  {
    var display, vt := Naming.Display(xdisplay, id), Naming.Vt(vtnr, id);
    m.(sessions := m.sessions[id := m.nextPtr], sheap := m.sheap[m.nextPtr := SessionRecord(0, vt, display)],
       xservers := m.xservers[id := m.nextPtr + 1],
       xheap := m.xheap[m.nextPtr + 1 := XRecord(id, display, vt, m.nextHandler)],
       xhandlers := m.xhandlers[m.nextHandler := m.nextPtr + 1],
       nextPtr := m.nextPtr + 2, nextHandler := m.nextHandler + 1)
  }

  lemma WithXFresh(m: Mem, id: nat, xdisplay: string, vtnr: nat)
    requires Fresh(m) && id < |m.xservers| && id < |m.sessions|
    ensures Fresh(WithX(m, id, xdisplay, vtnr))
    ensures m.nextPtr !in m.sheap && m.nextPtr + 1 !in m.xheap && m.nextHandler !in m.xhandlers
  {
    hide Naming.Display;
  }

  lemma WithXParts(m: Mem, n: nat, xdisplay: string, vtnr: nat, S: set<nat>, C: set<nat>, id: nat)
    requires id < |m.xservers| && id < |m.sessions| && id !in S
    requires Parts(m, n, xdisplay, vtnr, S, C)
    ensures Parts(WithX(m, id, xdisplay, vtnr), n, xdisplay, vtnr, S + {id}, C)
    ensures
      var t := WithX(m, id, xdisplay, vtnr);
      |t.xservers| == |t.sessions| == |t.client.clients| == n
  {
    WithXFresh(m, id, xdisplay, vtnr);
    var display, vt := Naming.Display(xdisplay, id), Naming.Vt(vtnr, id);
    var r := XRecord(id, display, vt, m.nextHandler);
    assert XNamed(r, xdisplay, vtnr) && SNamed(SessionRecord(0, vt, display), id, xdisplay, vtnr);
    hide Fresh, XPart, SPart, CPart, XNamed, SNames, SNamed, Naming.Display;
    XAdd(S, m.xservers, m.xheap, m.xhandlers, xdisplay, vtnr, m.nextPtr + 1, r);
    SAdd(S, m.sessions, m.sheap, id, m.nextPtr, SessionRecord(0, vt, display));
    SNamesAdd(S, m.sessions, m.sheap, id, m.nextPtr, SessionRecord(0, vt, display), xdisplay, vtnr);
  }

  lemma SNamesAdd(S: set<nat>, sessions: seq<Ptr>, sheap: map<Ptr, SessionRecord>, id: nat, p: Ptr, r: SessionRecord,
                  xdisplay: string, vtnr: nat)
    requires SPart(S, sessions, sheap) && SNames(S, sessions, sheap, xdisplay, vtnr)
    requires id !in S && id < |sessions| && p !in sheap && SNamed(r, id, xdisplay, vtnr)
    ensures SNames(S + {id}, sessions[id := p], sheap[p := r], xdisplay, vtnr)
  {
    hide SNamed;
  }

  ghost function Elements(hs: seq<nat>): set<nat> {
    set h | h in hs
  }

  /** The client table after every callback in one record's list has been unregistered. */
  ghost function Unregistered(t: Table, id: nat): Table
    requires id < |t.clients| && t.clients[id] in t.heap
  {
    var r := t.heap[t.clients[id]];
    var gone := Elements(r.handlers);
    Table(t.clients, t.heap[t.clients[id] := r.(handlers := [])], t.dels - gone, t.errors - gone, t.datas - gone)
  }

  lemma NothingToUnregister(t: Table, id: nat)
    requires id < |t.clients| && t.clients[id] in t.heap && t.heap[t.clients[id]].handlers == []
    ensures Unregistered(t, id) == t
  {
    var p := t.clients[id];
    assert t.heap[p := t.heap[p].(handlers := [])] == t.heap;
  }

  lemma PutTwice<V>(m: map<nat, V>, k: nat, a: V, b: V)
    ensures m[k := a][k := b] == m[k := b]
  {
  }

  /** Dropping a whole callback list touches each event type only in its own entry. */
  lemma ListDel(m: Mem, C: set<nat>, id: nat)
    requires Fresh(m) && id in C && CPart(C, m.client) && id < |m.client.clients|
    requires m.client.clients[id] in m.client.heap
    ensures
      var hs := m.client.heap[m.client.clients[id]].handlers;
      var gone := Elements(hs);
      && |hs| == 3 && m.client.dels - gone == m.client.dels - {hs[0]}
      && m.client.errors - gone == m.client.errors - {hs[1]} && m.client.datas - gone == m.client.datas - {hs[2]}
  {
    hide CPart, Elements;
    CRecord(C, m.client, id);
    var hs := m.client.heap[m.client.clients[id]].handlers;
    ThreeElements(m, hs);
  }

  lemma ThreeElements(m: Mem, hs: seq<nat>)
    requires Fresh(m) && |hs| == 3 && hs[0] in m.client.dels && hs[1] in m.client.errors && hs[2] in m.client.datas
    ensures
      var gone := Elements(hs);
      && m.client.dels - gone == m.client.dels - {hs[0]}
      && m.client.errors - gone == m.client.errors - {hs[1]} && m.client.datas - gone == m.client.datas - {hs[2]}
  {
    assert Elements(hs) == {hs[0], hs[1], hs[2]} by { assert hs == [hs[0], hs[1], hs[2]]; }
    hide Elements;
  }

  /** Memory after a greeter has been given to a seat. */
  ghost function WithGreeter(m: Mem, id: nat, exe: nat): Mem
    requires id < |m.client.clients|
  {
    var h := m.nextHandler;
    m.(client := WithClient(m.client, m.nextPtr, ClientRecord(id, exe, exe, [h, h + 1, h + 2]), h),
       nextPtr := m.nextPtr + 1, nextHandler := h + 3)
  }

  lemma WithGreeterFresh(m: Mem, id: nat, exe: nat)
    requires Fresh(m) && id < |m.client.clients|
    ensures Fresh(WithGreeter(m, id, exe))
    ensures m.nextPtr != 0 && m.nextPtr !in m.client.heap && m.nextHandler !in m.client.dels
    ensures m.nextHandler + 1 !in m.client.errors && m.nextHandler + 2 !in m.client.datas
  {
  }

  lemma WithGreeterParts(m: Mem, n: nat, xdisplay: string, vtnr: nat, S: set<nat>, C: set<nat>, id: nat, exe: nat)
    requires id < |m.client.clients| && id !in C && id in S
    requires Parts(m, n, xdisplay, vtnr, S, C)
    ensures Parts(WithGreeter(m, id, exe), n, xdisplay, vtnr, S, C + {id})
    ensures
      var t := WithGreeter(m, id, exe);
      |t.xservers| == |t.sessions| == |t.client.clients| == n
  {
    hide Fresh, XPart, SPart, CPart;
    WithGreeterFresh(m, id, exe);
    var h := m.nextHandler;
    CAdd(C, m.client, m.nextPtr, ClientRecord(id, exe, exe, [h, h + 1, h + 2]), h);
  }

  /** A seat as the abstract machine sees it. */
  ghost function AbsSeat(m: Mem, i: nat, xpid: nat): Seat
    requires i < |m.client.clients| && i < |m.sessions|
  {
    var c, s := m.client.clients[i], m.sessions[i];
    var exe := if c in m.client.heap then m.client.heap[c].exe else 0;
    var pid := if s in m.sheap then m.sheap[s].pid else 0;
    Seat(xpid, if exe == 0 then None else Some(exe), if pid == 0 then None else Some(pid))
  }

  ghost function AbsSeats(m: Mem, xpids: seq<nat>): (a: seq<Seat>)
    requires |xpids| <= |m.client.clients| && |xpids| <= |m.sessions|
    ensures |a| == |xpids|
  {
    seq(|xpids|, i requires 0 <= i < |xpids| => AbsSeat(m, i, xpids[i]))
  }

  /** Every client record has a running greeter. */
  ghost predicate AllGreet(t: Table) {
    forall p :: p in t.heap ==> t.heap[p].exe != 0
  }

  lemma WithGreeterGreets(m: Mem, id: nat, exe: nat)
    requires AllGreet(m.client) && id < |m.client.clients| && exe != 0
    ensures AllGreet(WithGreeter(m, id, exe).client)
  {
  }

  /** No pointer of the client array holds the next address. */
  lemma NextUnused(m: Mem, C: set<nat>, i: nat)
    requires Fresh(m) && CPart(C, m.client) && i < |m.client.clients|
    ensures m.client.clients[i] != m.nextPtr
    ensures m.client.clients[i] in m.client.heap <==> i in C
  {
  }

  lemma WithGreeterSeat(m: Mem, C: set<nat>, id: nat, exe: nat, i: nat, x: nat)
    requires i < |m.client.clients| == |m.sessions| && id < |m.client.clients| && id !in C && exe != 0
    requires Fresh(m) && CPart(C, m.client)
    ensures
      var before := AbsSeat(m, i, x);
      && (i == id ==> before.greeter.None?)
      && AbsSeat(WithGreeter(m, id, exe), i, x) == if i == id then before.(greeter := Some(exe)) else before
  {
    hide Fresh, CPart;
    NextUnused(m, C, i);
    var w := WithGreeter(m, id, exe);
    assert w.sessions == m.sessions && w.sheap == m.sheap;
    if i == id {
      assert w.client.clients[i] == m.nextPtr && w.client.heap[m.nextPtr].exe == exe;
    } else {
      assert w.client.clients[i] == m.client.clients[i] != m.nextPtr;
    }
  }

  /** Whether the abstract seat has a greeter is whether it has a client record. */
  lemma NoGreeterSeat(m: Mem, n: nat, xdisplay: string, vtnr: nat, S: set<nat>, C: set<nat>, i: nat, x: nat)
    requires i < |m.client.clients| == |m.sessions| && AllGreet(m.client)
    requires Parts(m, n, xdisplay, vtnr, S, C)
    ensures AbsSeat(m, i, x).greeter.Some? <==> m.client.clients[i] != 0
    ensures m.client.clients[i] in m.client.heap ==> m.client.heap[m.client.clients[i]].exe != 0
  {
    hide XPart, SPart;
    NextUnused(m, C, i);
  }

  /** To the abstract machine, a new greeter changes one seat only. */
  lemma WithGreeterAbs(m: Mem, n: nat, xdisplay: string, vtnr: nat, S: set<nat>, C: set<nat>, id: nat, exe: nat,
                       xpids: seq<nat>)
    requires |xpids| == |m.client.clients| == |m.sessions| && id < |xpids| && id !in C && exe != 0
    requires Parts(m, n, xdisplay, vtnr, S, C)
    ensures
      var before := AbsSeats(m, xpids);
      && before[id].greeter.None?
      && AbsSeats(WithGreeter(m, id, exe), xpids) == before[id := before[id].(greeter := Some(exe))]
  {
    hide Fresh, CPart, XPart, SPart, AbsSeat;
    var t := WithGreeter(m, id, exe);
    WithGreeterSeat(m, C, id, exe, id, xpids[id]);
    forall i | 0 <= i < |xpids|
      ensures AbsSeats(t, xpids)[i] == if i == id then AbsSeat(m, i, xpids[i]).(greeter := Some(exe))
        else AbsSeats(m, xpids)[i]
    {
      WithGreeterSeat(m, C, id, exe, i, xpids[i]);
    }
  }

  /** The process table agrees with the log, and an X server of a seat of S that is still
      there can be waited for. */
  ghost predicate Processes(procs: map<nat, Process>, next: nat, xpids: seq<nat>, log: Log, S: set<nat>) {
    && procs.Keys == Live(log) && Below(procs.Keys, next) && 0 < next
    && forall i :: i in S ==> i < |xpids| && 0 < xpids[i] < next && (xpids[i] in procs ==> procs[xpids[i]].child)
  }

  lemma SpawnKeepsProcesses(procs: map<nat, Process>, next: nat, xpids: seq<nat>, log: Log, S: set<nat>, i: nat)
    requires Processes(procs, next, xpids, log, S)
    ensures 0 < next && Processes(procs, next + 1, xpids, log + [Spawn(i, next)], S)
  {
    Monitors(log, Spawn(i, next), i);
  }

  lemma QuietKeepsProcesses(procs: map<nat, Process>, next: nat, xpids: seq<nat>, log: Log, S: set<nat>, a: Action)
    requires Processes(procs, next, xpids, log, S) && (a.GreeterGone? || a.Kill?)
    ensures Processes(procs, next, xpids, log + [a], S)
  {
    Monitors(log, a, 0);
  }

  lemma AwaitKeepsProcesses(procs: map<nat, Process>, next: nat, xpids: seq<nat>, log: Log, S: set<nat>, pid: nat)
    requires Processes(procs, next, xpids, log, S)
    ensures Processes(procs - {pid}, next, xpids, AwaitLog(log, pid), S)
  {
    Monitors(log, Gone(pid), 0);
    assert (procs - {pid}).Keys == procs.Keys - {pid};
  }

  lemma ForkKeepsProcesses(procs: map<nat, Process>, next: nat, xpids: seq<nat>, log: Log, S: set<nat>, id: nat,
                           life: nat)
    requires Processes(procs, next, xpids, log, S) && id < |xpids|
    ensures Processes(procs[next := Process(life, true)], next + 1, xpids[id := next], log + [ForkX(id, next)],
                      S + {id})
  {
    Monitors(log, ForkX(id, next), id);
    assert procs[next := Process(life, true)].Keys == procs.Keys + {next};
  }

  // ---------- restarting a seat, on values ----------

  /** Memory after the greeter pointer of a client record has been cleared. */
  ghost function ExeCleared(m: Mem, p: Ptr): Mem
    requires p in m.client.heap
  {
    m.(client := m.client.(heap := m.client.heap[p := m.client.heap[p].(exe := 0)]))
  }

  /** The client table after a record's callbacks are dropped, the record freed and its pointer cleared. */
  ghost function Dropped(t: Table, id: nat): Table
    requires id < |t.clients| && t.clients[id] in t.heap
  {
    var p := t.clients[id];
    var gone := Elements(t.heap[p].handlers);
    Table(t.clients[id := 0], t.heap - {p}, t.dels - gone, t.errors - gone, t.datas - gone)
  }

  lemma DroppedIsWithout(m: Mem, C: set<nat>, id: nat)
    requires Fresh(m) && id in C && CPart(C, m.client) && id < |m.client.clients|
    requires m.client.clients[id] in m.client.heap
    ensures |m.client.heap[m.client.clients[id]].handlers| == 3
    ensures Dropped(ExeCleared(m, m.client.clients[id]).client, id) == WithoutClient(m.client, id)
  {
    ListDel(m, C, id);
    hide CPart, Fresh, Elements;
    var p := m.client.clients[id];
    assert m.client.heap[p := m.client.heap[p].(exe := 0)] - {p} == m.client.heap - {p};
  }

  lemma ReleasedSeat(m: Mem, n: nat, xdisplay: string, vtnr: nat, S: set<nat>, C: set<nat>, id: nat, i: nat, x: nat)
    requires id < |m.xservers| && m.xservers[id] in m.xheap && id < |m.sessions|
    requires id < |m.client.clients| && m.client.clients[id] in m.client.heap
    requires |m.client.heap[m.client.clients[id]].handlers| == 3
    requires i < |m.client.clients| == |m.sessions| && i in S && id in S && i != id
    requires Parts(m, n, xdisplay, vtnr, S, C)
    ensures AbsSeat(Released(m, id), i, x) == AbsSeat(m, i, x)
  {
    hide XPart, Fresh, CHandlers;
  }

  lemma WithXSeat(m: Mem, n: nat, xdisplay: string, vtnr: nat, S: set<nat>, C: set<nat>, id: nat, i: nat, x: nat)
    requires id < |m.xservers| && id < |m.sessions| && i < |m.client.clients| == |m.sessions| && id !in S
    requires i in S || i == id
    requires Parts(m, n, xdisplay, vtnr, S, C)
    ensures AbsSeat(WithX(m, id, xdisplay, vtnr), i, x) == if i == id then Seat(x, None, None) else AbsSeat(m, i, x)
  {
    hide XPart, CHandlers, Naming.Display;
    if i == id {
      assert m.client.clients[i] == 0;
      assert 0 !in m.client.heap;
    } else {
      assert m.sessions[i] in m.sheap;
    }
  }

  /** The facts a restart needs about the seat it restarts. */
  lemma RestartReady(m: Mem, n: nat, xdisplay: string, vtnr: nat, S: set<nat>, C: set<nat>, id: nat)
    requires id in C && Parts(m, n, xdisplay, vtnr, S, C)
    ensures id in S && id < n == |m.xservers| == |m.sessions| == |m.client.clients|
    ensures m.xservers[id] in m.xheap && m.sessions[id] in m.sheap && m.client.clients[id] in m.client.heap
    ensures |m.client.heap[m.client.clients[id]].handlers| == 3
    ensures Dropped(ExeCleared(m, m.client.clients[id]).client, id) == WithoutClient(m.client, id)
  {
    Owned(m, n, xdisplay, vtnr, S, C, id);
    hide XPart, SPart, CPart, Fresh, Dropped, WithoutClient;
    DroppedIsWithout(m, C, id);
  }

  /** After a restart every seat has its parts again, and only the restarted one changed. */
  lemma Restarted(m: Mem, n: nat, xdisplay: string, vtnr: nat, S: set<nat>, C: set<nat>, id: nat)
    requires id < |m.xservers| && m.xservers[id] in m.xheap && id < |m.sessions|
    requires id < |m.client.clients| && m.client.clients[id] in m.client.heap
    requires |m.client.heap[m.client.clients[id]].handlers| == 3
    requires id in C && id in S && Parts(m, n, xdisplay, vtnr, S, C)
    ensures
      var t := WithX(Released(m, id), id, xdisplay, vtnr);
      && |t.xservers| == |t.sessions| == |t.client.clients| == n
      && Parts(t, n, xdisplay, vtnr, S, C - {id})
  {
    hide Parts, WithX;
    ReleasedParts(m, n, xdisplay, vtnr, S, C, id);
    WithXParts(Released(m, id), n, xdisplay, vtnr, S - {id}, C - {id}, id);
    assert S - {id} + {id} == S;
  }

  lemma RestartedGreets(m: Mem, xdisplay: string, vtnr: nat, id: nat)
    requires id < |m.xservers| && m.xservers[id] in m.xheap && id < |m.sessions|
    requires id < |m.client.clients| && m.client.clients[id] in m.client.heap
    requires |m.client.heap[m.client.clients[id]].handlers| == 3 && AllGreet(m.client)
    ensures AllGreet(WithX(Released(m, id), id, xdisplay, vtnr).client)
  {
    hide Naming.Display;
  }

  lemma RestartedAbs(m: Mem, n: nat, xdisplay: string, vtnr: nat, C: set<nat>, id: nat, xpids: seq<nat>, pid: nat)
    requires id < |m.xservers| && m.xservers[id] in m.xheap && id < |m.sessions|
    requires id < |m.client.clients| && m.client.clients[id] in m.client.heap
    requires |m.client.heap[m.client.clients[id]].handlers| == 3
    requires |xpids| == |m.client.clients| == |m.sessions| == n && id in C
    requires Parts(m, n, xdisplay, vtnr, UpTo(n), C)
    ensures
      var t := WithX(Released(m, id), id, xdisplay, vtnr);
      AbsSeats(t, xpids[id := pid]) == AbsSeats(m, xpids)[id := Seat(pid, None, None)]
  {
    hide Parts, WithX, Released, AbsSeat;
    ReleasedShape(m, id, xdisplay, vtnr);
    var r := Released(m, id);
    var t := WithX(r, id, xdisplay, vtnr);
    ReleasedParts(m, n, xdisplay, vtnr, UpTo(n), C, id);
    var after, want := AbsSeats(t, xpids[id := pid]), AbsSeats(m, xpids)[id := Seat(pid, None, None)];
    forall i | 0 <= i < n ensures after[i] == want[i] {
      WithXSeat(r, n, xdisplay, vtnr, UpTo(n) - {id}, C - {id}, id, i, xpids[id := pid][i]);
      if i != id { ReleasedSeat(m, n, xdisplay, vtnr, UpTo(n), C, id, i, xpids[i]); }
    }
    assert after == want;
  }

  lemma ReleasedShape(m: Mem, id: nat, xdisplay: string, vtnr: nat)
    requires id < |m.xservers| && m.xservers[id] in m.xheap && id < |m.sessions|
    requires id < |m.client.clients| && m.client.clients[id] in m.client.heap
    requires |m.client.heap[m.client.clients[id]].handlers| == 3
    ensures
      var r := Released(m, id);
      && |r.xservers| == |m.xservers| && |r.sessions| == |m.sessions| && |r.client.clients| == |m.client.clients|
      && |WithX(r, id, xdisplay, vtnr).sessions| == |m.sessions|
      && |WithX(r, id, xdisplay, vtnr).client.clients| == |m.client.clients|
  {
    hide Naming.Display;
  }

  /** The log after the waits of a restart: first the recorded session, if any, then the X server. */
  ghost function ReleaseLog(log: Log, id: nat, pid: nat, x: nat): Log {
    var ended := if pid == 0 then log else AwaitLog(log, pid);
    AwaitLog(ended + [Kill(id, x)], x)
  }

  ghost function ReleaseProcs(procs: map<nat, Process>, pid: nat, x: nat): map<nat, Process> {
    (if pid == 0 then procs else procs - {pid}) - {x}
  }

  /** The abstract restart, spelled out. */
  lemma RestartStep(s: State, i: nat, exe: nat, pid: nat)
    requires i < |s.seats| && s.seats[i].greeter == Some(exe)
    requires s.seats[i].session == if pid == 0 then None else Some(pid)
    ensures
      var log := ReleaseLog(s.log + [GreeterGone(exe)], i, pid, s.seats[i].x) + [ForkX(i, s.next)];
      Step(s, GreeterExit(i)) == State(s.seats[i := Seat(s.next, None, None)], log, s.next + 1)
  {
    hide Live;
    var a := GreeterEnds(s, i);
    assert a.seats[i := Seat(s.next, None, None)] == s.seats[i := Seat(s.next, None, None)];
  }

  lemma RestartProcesses(procs: map<nat, Process>, next: nat, xpids: seq<nat>, log: Log, S: set<nat>,
                         id: nat, exe: nat, pid: nat, life: nat)
    requires id < |xpids| && id in S && Processes(procs, next, xpids, log, S)
    ensures
      var log' := log + [GreeterGone(exe)];
      && procs.Keys == Live(log')
      && (xpids[id] in procs ==> procs[xpids[id]].child) && xpids[id] != 0
      && Processes(ReleaseProcs(procs, pid, xpids[id])[next := Process(life, true)], next + 1, xpids[id := next],
                   ReleaseLog(log', id, pid, xpids[id]) + [ForkX(id, next)], S)
  {
    QuietKeepsProcesses(procs, next, xpids, log, S, GreeterGone(exe));
    var log' := log + [GreeterGone(exe)];
    var waited := if pid == 0 then procs else procs - {pid};
    var ended := if pid == 0 then log' else AwaitLog(log', pid);
    if pid != 0 { AwaitKeepsProcesses(procs, next, xpids, log', S, pid); }
    assert (xpids[id] in procs ==> procs[xpids[id]].child) && xpids[id] != 0;
    hide Processes, Live;
    QuietKeepsProcesses(waited, next, xpids, ended, S, Kill(id, xpids[id]));
    AwaitKeepsProcesses(waited, next, xpids, ended + [Kill(id, xpids[id])], S, xpids[id]);
    ForkKeepsProcesses(ReleaseProcs(procs, pid, xpids[id]), next, xpids, ReleaseLog(log', id, pid, xpids[id]), S, id,
                       life);
    assert S + {id} == S;
  }

  lemma ReleasedIs(m: Mem, id: nat)
    requires id < |m.xservers| && m.xservers[id] in m.xheap && id < |m.sessions|
    requires id < |m.client.clients| && m.client.clients[id] in m.client.heap
    requires |m.client.heap[m.client.clients[id]].handlers| == 3
    requires Dropped(ExeCleared(m, m.client.clients[id]).client, id) == WithoutClient(m.client, id)
    ensures
      var c := ExeCleared(m, m.client.clients[id]);
      Released(m, id) ==
        c.(xheap := c.xheap - {c.xservers[id]}, xhandlers := c.xhandlers - {c.xheap[c.xservers[id]].handlerStart},
           sheap := c.sheap - {c.sessions[id]}, client := Dropped(c.client, id))
  {
    hide Dropped, WithoutClient;
  }

  /** The abstract seat of a seat with a client record. */
  lemma OwnSeat(m: Mem, n: nat, C: set<nat>, id: nat, xpids: seq<nat>)
    requires id < n == |m.sessions| == |m.client.clients| == |xpids|
    requires m.sessions[id] in m.sheap && m.client.clients[id] in m.client.heap && AllGreet(m.client)
    ensures
      var exe, pid := m.client.heap[m.client.clients[id]].exe, m.sheap[m.sessions[id]].pid;
      AbsSeats(m, xpids)[id] == Seat(xpids[id], Some(exe), if pid == 0 then None else Some(pid))
  {
  }

  lemma RecordOf(m: Mem, n: nat, xdisplay: string, vtnr: nat, S: set<nat>, C: set<nat>, p: Ptr)
    requires p in m.client.heap && Parts(m, n, xdisplay, vtnr, S, C)
    ensures
      var id := m.client.heap[p].id;
      id in C && id < |m.client.clients| && m.client.clients[id] == p
  {
    hide XPart, SPart, CHandlers;
  }

  /** The callback of a client record is among the registered ones. */
  lemma GreeterRegistered(m: Mem, n: nat, xdisplay: string, vtnr: nat, S: set<nat>, C: set<nat>, i: nat, x: nat,
                          exe: nat)
    requires i < |m.client.clients| == |m.sessions| && exe != 0
    requires Parts(m, n, xdisplay, vtnr, S, C)
    requires AbsSeat(m, i, x).greeter == Some(exe)
    ensures exists h ::
      && h in m.client.dels && h < m.nextHandler && m.client.dels[h] in m.client.heap
      && m.client.heap[m.client.dels[h]].exe == exe
  {
    hide XPart, SPart;
    NextUnused(m, C, i);
    CRecord(C, m.client, i);
    var p := m.client.clients[i];
    assert Registered(m.client.heap[p].handlers, p, m.client.dels, m.client.errors, m.client.datas);
    var h := m.client.heap[p].handlers[0];
    assert h in m.client.dels && m.client.dels[h] == p;
  }

  lemma DelsLive(m: Mem, n: nat, xdisplay: string, vtnr: nat, S: set<nat>, C: set<nat>, h: nat)
    requires h in m.client.dels && Parts(m, n, xdisplay, vtnr, S, C)
    ensures m.client.dels[h] in m.client.heap
  {
    hide XPart, SPart, Registered;
  }

  /** An X-ready callback leads to a live X record; every seat of S has one. */
  lemma XReadyLive(m: Mem, n: nat, xdisplay: string, vtnr: nat, S: set<nat>, C: set<nat>)
    requires Parts(m, n, xdisplay, vtnr, S, C)
    ensures forall h :: h in m.xhandlers ==> m.xhandlers[h] in m.xheap && m.xheap[m.xhandlers[h]].id in S
  {
    hide SPart, CPart, XNamed;
  }

  lemma GreetedSeats(m: Mem, n: nat, xdisplay: string, vtnr: nat, S: set<nat>, C: set<nat>)
    requires Parts(m, n, xdisplay, vtnr, S, C)
    ensures C <= S
  {
  }

  lemma {:induction false} StartAllAppend(s: State, order: seq<nat>, i: nat)
    requires i < |s.seats| && forall j :: j in order ==> j < |s.seats|
    ensures forall j :: j in order + [i] ==> j < |s.seats|
    ensures StartAll(s, order + [i]) == Start(StartAll(s, order), i)
    decreases order
  {
    if order == [] {
      assert order + [i] == [i] && [i][1..] == [];
    } else {
      assert (order + [i])[0] == order[0] && (order + [i])[1..] == order[1..] + [i];
      assert order[0] in order && forall j :: j in order[1..] ==> j in order;
      StartAllAppend(Start(s, order[0]), order[1..], i);
    }
  }

  /** Memory after a pid has been recorded in a seat's session record. */
  ghost function WithPid(m: Mem, id: nat, pid: nat): Mem
    requires id < |m.sessions| && m.sessions[id] in m.sheap
  {
    m.(sheap := m.sheap[m.sessions[id] := m.sheap[m.sessions[id]].(pid := pid)])
  }

  lemma WithPidParts(m: Mem, n: nat, xdisplay: string, vtnr: nat, S: set<nat>, C: set<nat>, id: nat, pid: nat)
    requires id < |m.sessions| && m.sessions[id] in m.sheap
    requires Parts(m, n, xdisplay, vtnr, S, C)
    ensures Parts(WithPid(m, id, pid), n, xdisplay, vtnr, S, C)
  {
    hide XPart, CPart, Naming.Display;
    assert WithPid(m, id, pid).sheap.Keys == m.sheap.Keys;
  }

  lemma WithPidAbs(m: Mem, n: nat, xdisplay: string, vtnr: nat, C: set<nat>, id: nat, pid: nat, xpids: seq<nat>)
    requires id < |m.sessions| && m.sessions[id] in m.sheap && pid != 0
    requires |xpids| == |m.client.clients| == |m.sessions| == n
    requires Parts(m, n, xdisplay, vtnr, UpTo(n), C)
    ensures
      var before := AbsSeats(m, xpids);
      AbsSeats(WithPid(m, id, pid), xpids) == before[id := before[id].(session := Some(pid))]
  {
    hide XPart, CPart, Fresh, AbsSeat, SNames;
    var before := AbsSeats(m, xpids);
    var after, want := AbsSeats(WithPid(m, id, pid), xpids), before[id := before[id].(session := Some(pid))];
    forall i | 0 <= i < n ensures after[i] == want[i] {
      assert i in UpTo(n) && id in UpTo(n);
      WithPidSeat(m, id, pid, i, xpids[i]);
    }
    assert after == want;
  }

  lemma WithPidSeat(m: Mem, id: nat, pid: nat, i: nat, x: nat)
    requires id < |m.sessions| && m.sessions[id] in m.sheap && pid != 0
    requires i < |m.sessions| == |m.client.clients| && (i != id ==> m.sessions[i] != m.sessions[id])
    ensures
      var before := AbsSeat(m, i, x);
      AbsSeat(WithPid(m, id, pid), i, x) == if i == id then before.(session := Some(pid)) else before
  {
  }

  lemma SessionProcesses(procs: map<nat, Process>, next: nat, xpids: seq<nat>, log: Log, S: set<nat>, i: nat,
                         r: Process)
    requires Processes(procs, next, xpids, log, S)
    ensures 0 < next
    ensures Processes(procs[next := r], next + 1, xpids, log + [ForkSession(i, next)], S)
  {
    Monitors(log, ForkSession(i, next), i);
    assert procs[next := r].Keys == procs.Keys + {next};
  }

  /** What the parts of the seats amount to between events: one X record, one X-ready callback
      and one session record for each seat, under the seat's own names, and three more
      callbacks for each client record; no record and no callback is left over. */
  lemma ResourceBalance(m: Mem, n: nat, xdisplay: string, vtnr: nat, C: set<nat>, i: nat)
    requires Parts(m, n, xdisplay, vtnr, UpTo(n), C) && i < n
    ensures |m.xheap| == |m.xhandlers| == |m.sheap| == n
    ensures |m.client.dels| == |m.client.errors| == |m.client.datas| == |m.client.heap| == |C|
    ensures m.xservers[i] in m.xheap && m.sessions[i] in m.sheap
    ensures
      var x := m.xheap[m.xservers[i]];
      && x.id == i && x.display == Naming.Display(xdisplay, i) && x.vt == Naming.Vt(vtnr, i)
      && x.handlerStart in m.xhandlers && m.xhandlers[x.handlerStart] == m.xservers[i]
    ensures
      var r := m.sheap[m.sessions[i]];
      r.display == Naming.Display(xdisplay, i) && r.vt == Naming.Vt(vtnr, i)
    ensures m.client.clients[i] != 0 <==> i in C
    ensures i in C ==> m.client.clients[i] in m.client.heap && |m.client.heap[m.client.clients[i]].handlers| == 3
  {
    hide Naming.Display, Fresh, XPart, SPart, SNames, CPart;
    Sizes(m, n, xdisplay, vtnr, C);
    Owned(m, n, xdisplay, vtnr, UpTo(n), C, i);
    OwnedNames(m, n, xdisplay, vtnr, C, i);
  }

  lemma OwnedNames(m: Mem, n: nat, xdisplay: string, vtnr: nat, C: set<nat>, i: nat)
    requires Parts(m, n, xdisplay, vtnr, UpTo(n), C) && i < n
    requires m.xservers[i] in m.xheap && m.sessions[i] in m.sheap && m.xheap[m.xservers[i]].id == i
    ensures
      var x := m.xheap[m.xservers[i]];
      && XNamed(x, xdisplay, vtnr) && SNamed(m.sheap[m.sessions[i]], i, xdisplay, vtnr)
      && x.handlerStart in m.xhandlers && m.xhandlers[x.handlerStart] == m.xservers[i]
  {
    hide Naming.Display, Fresh, CPart, SPart, XNamed, SNamed;
    assert i in UpTo(n);
  }

  /** The abstract machine goes from s to t on this event. */
  ghost predicate Steps(s: State, e: Event, t: State) {
    Enabled(s, e) && t == Step(s, e)
  }

  ghost predicate Greets(s: State, i: nat, exe: nat) {
    i < |s.seats| && s.seats[i].greeter == Some(exe)
  }

  /** What the event loop may hand to the daemon. */
  datatype Incident =
    | UserSignal                                          // an X server is ready
    | SessionForked(id: nat, life: nat, child: bool)      // a login got as far as its session
    | ExeGone(exe: nat, life: nat)                        // some process the daemon started has exited
    | ProcessGone(pid: nat)                               // a process was reaped elsewhere

  /** What each incident is to the abstract machine: the exit of a greeter restarts its seat and
      any other exit is ignored, and so are sessions of seats whose greeter is gone. */
  ghost predicate Reflects(s: State, i: Incident, t: State) {
    match i
    case UserSignal => exists order :: Steps(s, XReady(order), t) && AllServed(t)
    case SessionForked(id, _, _) =>
      if id < |s.seats| && s.seats[id].greeter.Some? then Steps(s, Login(id), t) else t == s
    case ExeGone(exe, _) =>
      if exists seat: nat :: Greets(s, seat, exe)
      then exists seat: nat :: Greets(s, seat, exe) && Steps(s, GreeterExit(seat), t)
      else t == s
    case ProcessGone(pid) => if pid in Live(s.log) then Steps(s, Vanish(pid), t) else t == s
  }

  ghost predicate AllServed(s: State) {
    forall i :: 0 <= i < |s.seats| ==> s.seats[i].greeter.Some?
  }

  /** The machine's states through a sequence of incidents. */
  ghost predicate Reflected(trace: seq<State>, incidents: seq<Incident>) {
    |trace| == |incidents| + 1 && forall k :: 0 <= k < |incidents| ==> Reflects(trace[k], incidents[k], trace[k + 1])
  }

  /** The run so far, one incident longer. */
  lemma RunLonger(b: State, es: seq<Event>, i: Incident, t: State) returns (fs: seq<Event>)
    requires Runnable(b, es) && Reflects(Final(b, es), i, t)
    ensures Runnable(b, fs) && Final(b, fs) == t
  {
    hide Final, Runnable, Greets, AllServed;
    var s := Final(b, es);
    if t == s {
      fs := es;
    } else {
      var e := Cause(s, i, t);
      hide Enabled, Step;
      RunAppend(b, es, e);
      fs := es + [e];
    }
  }

  lemma Cause(s: State, i: Incident, t: State) returns (e: Event)
    requires Reflects(s, i, t) && t != s
    ensures Enabled(s, e) && t == Step(s, e)
  {
    hide Step, Greets, AllServed;
    match i {
      case UserSignal =>
        var order :| Steps(s, XReady(order), t) && AllServed(t);
        e := XReady(order);
      case SessionForked(id, _, _) => e := Login(id);
      case ExeGone(exe, _) =>
        var seat: nat :| Greets(s, seat, exe) && Steps(s, GreeterExit(seat), t);
        e := GreeterExit(seat);
      case ProcessGone(pid) => e := Vanish(pid);
    }
  }

  lemma Served(m: Mem, n: nat, xdisplay: string, vtnr: nat, xpids: seq<nat>, log: Log, next: nat)
    requires |xpids| == n && Parts(m, n, xdisplay, vtnr, UpTo(n), UpTo(n)) && AllGreet(m.client)
    ensures |m.client.clients| == |m.sessions| == n && AllServed(State(AbsSeats(m, xpids), log, next))
  {
    hide XPart, SPart, SNames, Fresh;
    forall i | 0 <= i < n ensures AbsSeats(m, xpids)[i].greeter.Some? {
      assert i in UpTo(n);
      HasGreeter(m, i, xpids);
    }
  }

  /** Memory before any seat has been started. */
  ghost function Empty(n: nat): Mem {
    var none := seq(n, _ => 0);
    Mem(none, map[], none, map[], Table(none, map[], map[], {}, {}), map[], 1, 0)
  }

  lemma EmptyParts(n: nat, xdisplay: string, vtnr: nat)
    ensures Parts(Empty(n), n, xdisplay, vtnr, {}, {}) && AllGreet(Empty(n).client)
  {
  }

  /** Starting one more seat appends it to the abstract machine. */
  lemma BootAbs(m: Mem, n: nat, xdisplay: string, vtnr: nat, i: nat, xpids: seq<nat>, pid: nat)
    requires i < n == |m.xservers| == |m.sessions| == |m.client.clients| && |xpids| == i
    requires Parts(m, n, xdisplay, vtnr, UpTo(i), {})
    ensures
      var t := WithX(m, i, xdisplay, vtnr);
      && |t.sessions| == |t.client.clients| == n
      && AbsSeats(t, xpids + [pid]) == AbsSeats(m, xpids) + [Seat(pid, None, None)]
  {
    hide Parts, WithX, AbsSeat;
    WithXParts(m, n, xdisplay, vtnr, UpTo(i), {}, i);
    var t := WithX(m, i, xdisplay, vtnr);
    var after, want := AbsSeats(t, xpids + [pid]), AbsSeats(m, xpids) + [Seat(pid, None, None)];
    forall j | 0 <= j <= i ensures after[j] == want[j] {
      WithXSeat(m, n, xdisplay, vtnr, UpTo(i), {}, i, j, (xpids + [pid])[j]);
    }
    assert after == want;
  }

  lemma BootProcesses(procs: map<nat, Process>, next: nat, xpids: seq<nat>, log: Log, i: nat, life: nat)
    requires Processes(procs, next, xpids, log, UpTo(i)) && |xpids| == i
    ensures Processes(procs[next := Process(life, true)], next + 1, xpids + [next], log + [ForkX(i, next)], UpTo(i + 1))
  {
    Monitors(log, ForkX(i, next), i);
    assert procs[next := Process(life, true)].Keys == procs.Keys + {next};
  }

  class Daemon {
    const seats: nat
    const xdisplay: string
    const vtnr: nat

    var mem: Mem                    // heap records, pointer arrays and registered callbacks
    var xpids: seq<nat>
    var procs: map<nat, Process>
    var next: nat
    ghost var log: Log
    ghost var greeted: set<nat>     // the seats with a client record

    ghost predicate Shape()
      reads this
    {
      |mem.xservers| == |mem.sessions| == |mem.client.clients| == |xpids| == seats
    }

    /** What holds between events: every seat has its parts, and a client record always has
        a running greeter. */
    ghost predicate Valid()
      reads this
    {
      && Shape()
      && Parts(mem, seats, xdisplay, vtnr, UpTo(seats), greeted)
      && Processes(procs, next, xpids, log, UpTo(seats))
      && AllGreet(mem.client)
    }

    ghost function Abs(): State
      reads this
      requires |xpids| <= |mem.client.clients| && |xpids| <= |mem.sessions|
    {
      State(AbsSeats(mem, xpids), log, next)
    }

    // ---------- kernel ----------

    /** The daemon finds a process still there once more. */
    method Tick(pid: nat)
      requires pid in procs && procs[pid].life > 0
      modifies `procs
      ensures procs.Keys == old(procs).Keys && procs - {pid} == old(procs) - {pid}
      ensures procs[pid] == old(procs)[pid].(life := old(procs)[pid].life - 1)
    {
      procs := procs[pid := procs[pid].(life := procs[pid].life - 1)];
    }

    method Reap(pid: nat)
      requires pid in procs
      modifies `procs, `log
      ensures procs == old(procs) - {pid} && log == old(log) + [Gone(pid)]
    {
      procs := procs - {pid};
      log := log + [Gone(pid)];
    }

    /** `waitpid` with WNOHANG: 0 while the child runs, its pid once it is reaped, and -1
        (ECHILD) when there is no such child. */
    method WaitpidNohang(pid: nat) returns (r: int)
      requires pid != 0
      modifies `procs, `log
      ensures procs - {pid} == old(procs) - {pid}
      ensures r == 0 ==> log == old(log) && pid in procs && pid in old(procs) && procs[pid].life < old(procs)[pid].life
      ensures r > 0 ==> pid in old(procs) && pid !in procs && log == old(log) + [Gone(pid)]
      ensures r < 0 ==> procs == old(procs) && log == old(log)
    {
      if pid !in procs || !procs[pid].child {
        return -1;
      }
      if procs[pid].life > 0 {
        Tick(pid);
        return 0;
      }
      Reap(pid);
      return pid;
    }

    /** `access` on /proc/pid: whether the process is still there. */
    method ProcExists(pid: nat) returns (there: bool)
      modifies `procs, `log
      ensures procs - {pid} == old(procs) - {pid}
      ensures there ==> log == old(log) && pid in procs && pid in old(procs) && procs[pid].life < old(procs)[pid].life
      ensures !there ==> pid !in procs && log == if pid in old(procs) then old(log) + [Gone(pid)] else old(log)
    {
      if pid !in procs {
        return false;
      }
      if procs[pid].life > 0 {
        Tick(pid);
        return true;
      }
      Reap(pid);
      return false;
    }

    /** The blocking `waitpid` with WUNTRACED and WCONTINUED: it also reports stops and
        continuations of a child that is still there. */
    method Waitpid(pid: nat) returns (r: int)
      requires pid != 0
      modifies `procs, `log
      ensures procs - {pid} == old(procs) - {pid}
      ensures r > 0 ==> pid in old(procs)
      ensures r > 0 && pid in procs ==> log == old(log) && procs[pid].life < old(procs)[pid].life && procs[pid].child
      ensures r > 0 && pid !in procs ==> log == old(log) + [Gone(pid)]
      ensures r <= 0 ==> procs == old(procs) && log == old(log) && (pid in procs ==> !procs[pid].child)
    {
      if pid !in procs || !procs[pid].child {
        return -1;
      }
      if procs[pid].life > 0 {
        Tick(pid);
      } else {
        Reap(pid);
      }
      return pid;
    }

    // ---------- waiting ----------

    /** Returns only when the recorded session has ended: it was reaped here, or it is not
        a child and has left /proc. */
    method SessionWait(id: nat)
      requires id < |mem.sessions| && mem.sessions[id] in mem.sheap && procs.Keys == Live(log)
      modifies `procs, `log
      ensures
        var pid := mem.sheap[mem.sessions[id]].pid;
        if pid == 0 then procs == old(procs) && log == old(log)
        else procs == old(procs) - {pid} && log == AwaitLog(old(log), pid)
    {
      var pid := mem.sheap[mem.sessions[id]].pid;
      if pid == 0 {
        return;
      }
      var waiting := true;
      while waiting
        invariant procs - {pid} == old(procs) - {pid}
        invariant waiting ==> log == old(log) && (pid in procs <==> pid in old(procs))
        invariant !waiting ==> pid !in procs && log == AwaitLog(old(log), pid)
        decreases waiting, if pid in procs then procs[pid].life else 0
      {
        var r := WaitpidNohang(pid);
        if r < 0 {
          var there := ProcExists(pid);
          while there
            invariant procs - {pid} == old(procs) - {pid}
            invariant there ==> log == old(log) && pid in procs && pid in old(procs)
            invariant !there ==> pid !in procs && log == AwaitLog(old(log), pid)
            decreases there, if pid in procs then procs[pid].life else 0
          {
            there := ProcExists(pid);
          }
        }
        waiting := r == 0;
      }
      assert procs == procs - {pid};
    }

    /** Kill an X server and wait until it has been reaped. */
    method KillAndWait(ghost seat: nat, pid: nat)
      requires pid != 0 && procs.Keys == Live(log) && (pid in procs ==> procs[pid].child)
      modifies `procs, `log
      ensures procs == old(procs) - {pid} && log == AwaitLog(old(log) + [Kill(seat, pid)], pid)
    {
      ghost var before := log + [Kill(seat, pid)];
      Monitors(log, Kill(seat, pid), seat);
      log := log + [Kill(seat, pid)];
      var r := Waitpid(pid);
      while r > 0
        invariant procs - {pid} == old(procs) - {pid}
        invariant pid in procs ==> pid in old(procs) && procs[pid].child && log == before
        invariant pid !in procs ==> log == AwaitLog(before, pid)
        invariant r <= 0 ==> pid !in procs
        decreases if pid in procs then procs[pid].life + 1 else 0, r
      {
        r := Waitpid(pid);
      }
      assert procs == procs - {pid};
    }

    // ---------- releasing ----------

    /** Free the X record of a seat and its X-ready callback; the pointer is left dangling. */
    method XserverShutdown(id: nat)
      requires id < |mem.xservers| && mem.xservers[id] in mem.xheap
      modifies `mem
      ensures
        var m := old(mem);
        mem == m.(xheap := m.xheap - {m.xservers[id]},
                  xhandlers := m.xhandlers - {m.xheap[m.xservers[id]].handlerStart})
    {
      var p := mem.xservers[id];
      mem := mem.(xhandlers := mem.xhandlers - {mem.xheap[p].handlerStart});
      mem := mem.(xheap := mem.xheap - {p});
    }

    /** Free the session record of a seat; the pointer is left dangling. */
    method SessionShutdown(id: nat)
      requires id < |mem.sessions| && mem.sessions[id] in mem.sheap
      modifies `mem
      ensures mem == old(mem).(sheap := old(mem).sheap - {old(mem).sessions[id]})
    {
      mem := mem.(sheap := mem.sheap - {mem.sessions[id]});
    }

    /** Unregister every callback in the client record's list, whatever its event type. */
    method ClientHandlersDel(id: nat)
      requires id < |mem.client.clients| && mem.client.clients[id] in mem.client.heap
      modifies `mem
      ensures mem == old(mem).(client := Unregistered(old(mem).client, id))
    {
      var p := mem.client.clients[id];
      ghost var t := mem.client;
      ghost var all := t.heap[p].handlers;
      ghost var k := 0;
      while mem.client.heap[p].handlers != []
        invariant k <= |all| && p in mem.client.heap && mem.client.heap[p].handlers == all[k..]
        invariant mem == old(mem).(client := Table(t.clients, t.heap[p := t.heap[p].(handlers := all[k..])],
                                                   t.dels - Elements(all[..k]), t.errors - Elements(all[..k]),
                                                     t.datas - Elements(all[..k])))
        decreases |all| - k
      {
        var r := mem.client.heap[p];
        var h := r.handlers[0];
        assert all[..k + 1] == all[..k] + [h];
        assert t.heap[p := t.heap[p].(handlers := all[k..])][p := r.(handlers := r.handlers[1..])] ==
          t.heap[p := t.heap[p].(handlers := all[k + 1..])];
        mem := mem.(client := Table(mem.client.clients, mem.client.heap[p := r.(handlers := r.handlers[1..])],
                                    mem.client.dels - {h}, mem.client.errors - {h}, mem.client.datas - {h}));
        k := k + 1;
      }
      assert all[..k] == all;
    }

    // ---------- starting ----------

    /** A new session record for a seat, with no session recorded. */
    method EntranceSessionStart(id: nat, display: string, vt: nat)
      requires id < |mem.sessions|
      modifies `mem
      ensures
        var m := old(mem);
        mem == m.(sessions := m.sessions[id := m.nextPtr],
                  sheap := m.sheap[m.nextPtr := SessionRecord(0, vt, display)], nextPtr := m.nextPtr + 1)
    {
      var p := mem.nextPtr;
      mem := mem.(nextPtr := p + 1);
      mem := mem.(sessions := mem.sessions[id := p]);
      mem := mem.(sheap := mem.sheap[p := SessionRecord(0, vt, display)]);
    }

    /** A new X record, a forked X server, and its X-ready callback. */
    method XserverStart(id: nat, display: string, vt: nat, life: nat) returns (pid: nat)
      requires id < |mem.xservers|
      modifies `mem, `procs, `next, `log
      ensures
        var m := old(mem);
        mem == m.(xservers := m.xservers[id := m.nextPtr],
                  xheap := m.xheap[m.nextPtr := XRecord(id, display, vt, m.nextHandler)],
                  xhandlers := m.xhandlers[m.nextHandler := m.nextPtr], nextPtr := m.nextPtr + 1,
                  nextHandler := m.nextHandler + 1)
      ensures pid == old(next) && next == old(next) + 1 && procs == old(procs)[pid := Process(life, true)]
      ensures log == old(log) + [ForkX(id, pid)]
    {
      var p := mem.nextPtr;
      mem := mem.(nextPtr := p + 1);
      mem := mem.(xservers := mem.xservers[id := p], xheap := mem.xheap[p := XRecord(id, display, vt, 0)]);
      pid := next;
      next := next + 1;
      procs := procs[pid := Process(life, true)];
      log := log + [ForkX(id, pid)];
      var h := mem.nextHandler;
      PutTwice(old(mem).xheap, p, XRecord(id, display, vt, 0), XRecord(id, display, vt, h));
      mem := mem.(nextHandler := h + 1, xhandlers := mem.xhandlers[h := p],
                  xheap := mem.xheap[p := mem.xheap[p].(handlerStart := h)]);
    }

    /** Session record, X record and X server of a seat, under the names its number gives. */
    method EntranceXserverStart(id: nat, life: nat) returns (pid: nat)
      requires id < |mem.xservers| && id < |mem.sessions|
      modifies `mem, `procs, `next, `log
      ensures mem == WithX(old(mem), id, xdisplay, vtnr)
      ensures pid == old(next) && next == pid + 1 && procs == old(procs)[pid := Process(life, true)]
      ensures log == old(log) + [ForkX(id, pid)]
    {
      hide Naming.Display;
      var display := Naming.Display(xdisplay, id);
      var vt := Naming.Vt(vtnr, id);
      EntranceSessionStart(id, display, vt);
      pid := XserverStart(id, display, vt, life);
    }

    /** A new client record with its three callbacks, and its greeter process. */
    method NewClient(id: nat) returns (exe: nat)
      requires id < |mem.client.clients|
      modifies `mem, `next, `log
      ensures exe == old(next) && next == exe + 1 && log == old(log) + [Spawn(id, exe)]
      ensures mem == WithGreeter(old(mem), id, exe)
    {
      var p, h, t := mem.nextPtr, mem.nextHandler, mem.client;
      var r := ClientRecord(id, 0, 0, []);
      mem := mem.(nextPtr := p + 1, client := t.(clients := t.clients[id := p], heap := t.heap[p := r]));
      NothingToUnregister(mem.client, id);
      ClientHandlersDel(id);
      mem := mem.(nextHandler := h + 1, client := mem.client.(dels := mem.client.dels[h := p]));
      mem := mem.(nextHandler := h + 2, client := mem.client.(errors := mem.client.errors + {h + 1}));
      mem := mem.(nextHandler := h + 3, client := mem.client.(datas := mem.client.datas + {h + 2}));
      exe := next;
      next := next + 1;
      log := log + [Spawn(id, exe)];
      PutTwice(t.heap, p, r, ClientRecord(id, exe, exe, [h, h + 1, h + 2]));
      mem := mem.(client := mem.client.(heap := mem.client.heap[p := ClientRecord(id, exe, exe, [h, h + 1, h + 2])]));
    }

    // ---------- events ----------

    /** A greeter for a seat that has none. */
    method GiveGreeter(id: nat)
      requires id < seats && id in UpTo(seats) && id !in greeted && Valid()
      modifies `mem, `next, `log, `greeted
      ensures Valid() && greeted == old(greeted) + {id}
      ensures mem.xheap == old(mem).xheap && mem.xhandlers == old(mem).xhandlers
      ensures Abs() == Start(old(Abs()), id)
    {
      hide Parts, AllGreet, AbsSeats, AbsSeat, Live, Processes, WithClient;
      SpawnKeepsProcesses(procs, next, xpids, log, UpTo(seats), id);
      WithGreeterParts(mem, seats, xdisplay, vtnr, UpTo(seats), greeted, id, next);
      WithGreeterGreets(mem, id, next);
      WithGreeterAbs(mem, seats, xdisplay, vtnr, UpTo(seats), greeted, id, next, xpids);
      var exe := NewClient(id);
      greeted := greeted + {id};
    }

    /** The start callback: give the seat a greeter unless it has one running. */
    method StartClient(id: nat)
      requires Valid() && id < seats
      modifies `mem, `next, `log, `greeted
      ensures Valid() && greeted == old(greeted) + {id}
      ensures mem.xheap == old(mem).xheap && mem.xhandlers == old(mem).xhandlers
      ensures Abs() == Start(old(Abs()), id)
    {
      hide Parts, Live, AllGreet, Processes;
      Owned(mem, seats, xdisplay, vtnr, UpTo(seats), greeted, id);
      NoGreeterSeat(mem, seats, xdisplay, vtnr, UpTo(seats), greeted, id, xpids[id]);
      hide AbsSeat;
      var c := mem.client.clients[id];
      if c == 0 || mem.client.heap[c].exe == 0 {
        GiveGreeter(id);
      }
    }

    /** Drop a client record: its callbacks, the record, and the pointer to it. */
    method FreeClient(id: nat)
      requires id < |mem.client.clients| && mem.client.clients[id] in mem.client.heap
      modifies `mem
      ensures mem == old(mem).(client := Dropped(old(mem).client, id))
    {
      hide Elements;
      ghost var t := mem.client;
      ClientHandlersDel(id);
      var p := mem.client.clients[id];
      assert t.heap[p := t.heap[p].(handlers := [])] - {p} == t.heap - {p};
      mem := mem.(client := mem.client.(heap := mem.client.heap - {p}));
      mem := mem.(client := mem.client.(clients := mem.client.clients[id := 0]));
    }

    /** Release everything a seat owns once its greeter is gone: wait for the recorded
        session, stop the X server, free the records. */
    method ReleaseSeat(id: nat)
      requires id < |mem.xservers| && id < |mem.sessions| && id < |mem.client.clients| && id < |xpids| && xpids[id] != 0
      requires mem.xservers[id] in mem.xheap && mem.sessions[id] in mem.sheap
      requires mem.client.clients[id] in mem.client.heap
      requires procs.Keys == Live(log) && (xpids[id] in procs ==> procs[xpids[id]].child)
      modifies `mem, `procs, `log
      ensures
        var m := old(mem);
        mem == m.(xheap := m.xheap - {m.xservers[id]},
                  xhandlers := m.xhandlers - {m.xheap[m.xservers[id]].handlerStart},
                  sheap := m.sheap - {m.sessions[id]}, client := Dropped(m.client, id))
      ensures
        var pid := old(mem).sheap[old(mem).sessions[id]].pid;
        && procs == ReleaseProcs(old(procs), pid, xpids[id])
        && log == ReleaseLog(old(log), id, pid, xpids[id])
    {
      ghost var pid := mem.sheap[mem.sessions[id]].pid;
      Monitors(log, Gone(pid), id);
      hide Live, Dropped;
      SessionWait(id);
      XserverShutdown(id);
      KillAndWait(id, xpids[id]);
      SessionShutdown(id);
      FreeClient(id);
    }

    /** Restart a seat whose greeter has exited. */
    method RestartSeat(id: nat, life: nat)
      requires id in greeted && Valid()
      modifies `mem, `xpids, `procs, `next, `log, `greeted
      ensures Valid() && greeted == old(greeted) - {id}
      ensures Steps(old(Abs()), GreeterExit(id), Abs())
    {
      hide Parts, AllGreet, AbsSeats, Live, Processes, WithX, Released, Dropped, WithoutClient, ReleaseLog,
        ReleaseProcs;
      RestartReady(mem, seats, xdisplay, vtnr, UpTo(seats), greeted, id);
      Restarted(mem, seats, xdisplay, vtnr, UpTo(seats), greeted, id);
      RestartedGreets(mem, xdisplay, vtnr, id);
      RestartedAbs(mem, seats, xdisplay, vtnr, greeted, id, xpids, next);
      var p := mem.client.clients[id];
      ghost var m, exe, session := mem, mem.client.heap[p].exe, mem.sheap[mem.sessions[id]].pid;
      OwnSeat(mem, seats, greeted, id, xpids);
      RestartStep(Abs(), id, exe, session);
      RestartProcesses(procs, next, xpids, log, UpTo(seats), id, exe, session, life);
      hide AbsSeat;
      mem := mem.(client := mem.client.(heap := mem.client.heap[p := mem.client.heap[p].(exe := 0)]));
      log := log + [GreeterGone(exe)];
      ReleaseSeat(id);
      assert mem == Released(m, id) by { ReleasedIs(m, id); }
      var pid := EntranceXserverStart(id, life);
      xpids := xpids[id := pid];
      greeted := greeted - {id};
    }

    /** The handler of one greeter-exit event for one client record, reached through the
        record's own address. Another seat's event is passed on; the seat's own event
        restarts the seat. */
    method ClientDel(data: Ptr, exe: nat, life: nat) returns (done: bool)
      requires data in mem.client.heap && Valid()
      modifies `mem, `xpids, `procs, `next, `log, `greeted
      ensures Valid()
      ensures done == (old(mem).client.heap[data].exe == exe)
      ensures !done ==> unchanged(this)
      ensures done ==>
        var id := old(mem).client.heap[data].id;
        Greets(old(Abs()), id, exe) && Steps(old(Abs()), GreeterExit(id), Abs())
    {
      hide Parts, AbsSeats, Live, Processes;
      RecordOf(mem, seats, xdisplay, vtnr, UpTo(seats), greeted, data);
      var id := mem.client.heap[data].id;
      if exe != mem.client.heap[mem.client.clients[id]].exe {
        return false;
      }
      RestartReady(mem, seats, xdisplay, vtnr, UpTo(seats), greeted, id);
      OwnSeat(mem, seats, greeted, id, xpids);
      hide AllGreet;
      RestartSeat(id, life);
      return true;
    }

    /** A greeter-exit event: the callbacks of all seats are tried in registration order,
        and exactly the seat whose greeter exited, if any, restarts. */
    method ExeDelEvent(exe: nat, life: nat) returns (ghost seat: Option<nat>)
      requires exe != 0 && Valid()
      modifies `mem, `xpids, `procs, `next, `log, `greeted
      ensures Valid()
      ensures seat.Some? ==> Greets(old(Abs()), seat.value, exe) && Steps(old(Abs()), GreeterExit(seat.value), Abs())
      ensures seat.None? ==> unchanged(this) && forall i: nat :: !Greets(old(Abs()), i, exe)
    {
      hide Parts, AllGreet, AbsSeat, Live, Processes;
      ghost var before := Abs();
      var bound := mem.nextHandler;
      for h := 0 to bound
        invariant unchanged(this) && Abs() == before
        invariant forall k :: 0 <= k < h && k in mem.client.dels && mem.client.dels[k] in mem.client.heap ==>
          mem.client.heap[mem.client.dels[k]].exe != exe
      {
        if h in mem.client.dels {
          DelsLive(mem, seats, xdisplay, vtnr, UpTo(seats), greeted, h);
          seat := Some(mem.client.heap[mem.client.dels[h]].id);
          var done := ClientDel(mem.client.dels[h], exe, life);
          if done {
            return;
          }
        }
      }
      seat := None;
      forall i: nat ensures !Greets(before, i, exe) {
        if Greets(before, i, exe) {
          GreeterRegistered(mem, seats, xdisplay, vtnr, UpTo(seats), greeted, i, xpids[i], exe);
          assert false;
        }
      }
    }

    /** The X-ready callback of one X record. */
    method XserverStarted(data: Ptr)
      requires data in mem.xheap && mem.xheap[data].id < seats && Valid()
      modifies `mem, `next, `log, `greeted
      ensures Valid() && greeted == old(greeted) + {old(mem).xheap[data].id}
      ensures mem.xheap == old(mem).xheap && mem.xhandlers == old(mem).xhandlers
      ensures Abs() == Start(old(Abs()), old(mem).xheap[data].id)
    {
      hide Parts, AllGreet, AbsSeats, Live, Processes;
      var id := mem.xheap[data].id;
      StartClient(id);
    }

    /** SIGUSR1: the X-ready callbacks of all seats run in registration order, and afterwards
        every seat has a greeter. */
    method SignalUserEvent() returns (ghost order: seq<nat>)
      requires Valid()
      modifies `mem, `next, `log, `greeted
      ensures Valid() && greeted == UpTo(seats)
      ensures Steps(old(Abs()), XReady(order), Abs())
    {
      hide Parts, AllGreet, AbsSeats, Live, Processes, Tried;
      XReadyLive(mem, seats, xdisplay, vtnr, UpTo(seats), greeted);
      GreetedSeats(mem, seats, xdisplay, vtnr, UpTo(seats), greeted);
      NoneTried(mem.xheap, mem.xhandlers, greeted);
      order := [];
      var bound := mem.nextHandler;
      for h := 0 to bound
        invariant Valid() && mem.xheap == old(mem).xheap && mem.xhandlers == old(mem).xhandlers
        invariant greeted <= UpTo(seats)
        invariant forall i :: i in order ==> i < seats
        invariant Abs() == StartAll(old(Abs()), order)
        invariant Tried(mem.xheap, mem.xhandlers, greeted, h)
      {
        TriedNext(mem.xheap, mem.xhandlers, greeted, h);
        if h in mem.xhandlers {
          ghost var id := mem.xheap[mem.xhandlers[h]].id;
          StartAllAppend(old(Abs()), order, id);
          order := order + [id];
          XserverStarted(mem.xhandlers[h]);
        }
      }
      AllTried(old(mem), seats, xdisplay, vtnr, old(greeted), greeted);
    }

    /** The parent's side of running a session: its pid is recorded for the seat, over any
        pid recorded before. Messages for a seat are handled only while its greeter lives. */
    method RecordSession(id: nat, life: nat, child: bool)
      requires id in greeted && Valid()
      modifies `mem, `procs, `next, `log
      ensures Valid() && Steps(old(Abs()), Login(id), Abs())
    {
      hide Parts, AllGreet, AbsSeats, AbsSeat, Live, Processes;
      GreetedSeats(mem, seats, xdisplay, vtnr, UpTo(seats), greeted);
      Owned(mem, seats, xdisplay, vtnr, UpTo(seats), greeted, id);
      HasGreeter(mem, id, xpids);
      WithPidParts(mem, seats, xdisplay, vtnr, UpTo(seats), greeted, id, next);
      SessionProcesses(procs, next, xpids, log, UpTo(seats), id, Process(life, child));
      WithPidAbs(mem, seats, xdisplay, vtnr, greeted, id, next, xpids);
      var pid := next;
      next := next + 1;
      procs := procs[pid := Process(life, child)];
      log := log + [ForkSession(id, pid)];
      var p := mem.sessions[id];
      mem := mem.(sheap := mem.sheap[p := mem.sheap[p].(pid := pid)]);
    }

    /** A process ends on its own and the event loop reaps it. */
    method ProcessVanishes(pid: nat)
      requires pid in procs && Valid()
      modifies `procs, `log
      ensures Valid() && Steps(old(Abs()), Vanish(pid), Abs())
    {
      hide Parts, AllGreet, AbsSeats, AbsSeat, Live;
      AwaitKeepsProcesses(procs, next, xpids, log, UpTo(seats), pid);
      Reap(pid);
    }

    /** One turn of the event loop. */
    method React(i: Incident)
      requires Valid()
      modifies `mem, `xpids, `procs, `next, `log, `greeted
      ensures Valid() && Reflects(old(Abs()), i, Abs())
    {
      hide Parts, AllGreet, AbsSeats, Live, Processes, Steps, Greets, AllServed;
      ghost var s := Abs();
      GreetersAre(mem, seats, xdisplay, vtnr, UpTo(seats), greeted, xpids);
      match i {
        case UserSignal =>
          ghost var order := SignalUserEvent();
          Served(mem, seats, xdisplay, vtnr, xpids, log, next);
          assert Steps(s, XReady(order), Abs());
        case SessionForked(id, life, child) =>
          if id < seats && mem.client.clients[id] != 0 {
            RecordSession(id, life, child);
          }
        case ExeGone(exe, life) =>
          NobodyGreets(s, exe);
          if exe != 0 {
            ghost var seat := ExeDelEvent(exe, life);
          }
        case ProcessGone(pid) =>
          ProcessesAreLive(procs, next, xpids, log, UpTo(seats));
          if pid in procs {
            ProcessVanishes(pid);
          }
      }
    }

    /** Any sequence of incidents is a run of the abstract machine, so what is true of every run
        is true of the daemon, and afterwards every seat owns what it should. */
    method Run(incidents: seq<Incident>) returns (ghost trace: seq<State>, ghost es: seq<Event>)
      requires Valid()
      modifies `mem, `xpids, `procs, `next, `log, `greeted
      ensures Valid()
      ensures Reflected(trace, incidents) && trace[0] == old(Abs()) && trace[|incidents|] == Abs()
      ensures Runnable(old(Abs()), es) && Abs() == Final(old(Abs()), es)
    {
      hide Parts, AllGreet, AbsSeats, Live, Processes, Reflects, Step;
      ghost var b := Abs();
      trace, es := [b], [];
      for k := 0 to |incidents|
        invariant Valid() && Reflected(trace, incidents[..k]) && trace[0] == b && trace[k] == Abs()
        invariant Runnable(b, es) && Abs() == Final(b, es)
      {
        React(incidents[k]);
        assert incidents[..k + 1] == incidents[..k] + [incidents[k]];
        es := RunLonger(b, es, incidents[k], Abs());
        trace := trace + [Abs()];
      }
      assert incidents[..|incidents|] == incidents;
    }

    /** The first i seats have been started, with no greeter yet. */
    ghost predicate Booting(i: nat)
      reads this
    {
      && |mem.xservers| == |mem.sessions| == |mem.client.clients| == seats && |xpids| == i <= seats
      && Parts(mem, seats, xdisplay, vtnr, UpTo(i), greeted) && greeted == {}
      && AllGreet(mem.client) && Processes(procs, next, xpids, log, UpTo(i))
      && Abs() == Boot(i)
    }

    method BootSeat(i: nat, life: nat)
      requires i < seats && Booting(i)
      modifies `mem, `xpids, `procs, `next, `log
      ensures Booting(i + 1)
    {
      hide Parts, AllGreet, AbsSeats, AbsSeat, Live, Processes, WithX, UpTo;
      WithXParts(mem, seats, xdisplay, vtnr, UpTo(i), {}, i);
      WithXGreets(mem, i, xdisplay, vtnr);
      BootAbs(mem, seats, xdisplay, vtnr, i, xpids, next);
      BootProcesses(procs, next, xpids, log, i, life);
      OneMore(i);
      var pid := EntranceXserverStart(i, life);
      xpids := xpids + [pid];
    }

    /** Start-up: one X server per seat. */
    constructor (seats: nat, xdisplay: string, vtnr: nat, lives: seq<nat>)
      requires |lives| == seats
      ensures Valid() && this.seats == seats && this.xdisplay == xdisplay && this.vtnr == vtnr
      ensures greeted == {} && Abs() == Boot(seats)
    {
      this.seats, this.xdisplay, this.vtnr := seats, xdisplay, vtnr;
      var none := seq(seats, _ => 0);
      mem := Mem(none, map[], none, map[], Table(none, map[], map[], {}, {}), map[], 1, 0);
      xpids, procs, next, log, greeted := [], map[], 1, [], {};
      new;
      EmptyParts(seats, xdisplay, vtnr);
      hide Parts, AllGreet, Live, Processes;
      NoProcesses();
      for i := 0 to seats
        invariant Booting(i)
        invariant this.seats == seats && this.xdisplay == xdisplay && this.vtnr == vtnr
      {
        BootSeat(i, lives[i]);
      }
    }
  }

  lemma OneMore(i: nat)
    ensures UpTo(i) + {i} == UpTo(i + 1)
  {
  }

  lemma WithXGreets(m: Mem, id: nat, xdisplay: string, vtnr: nat)
    requires AllGreet(m.client) && id < |m.xservers| && id < |m.sessions|
    ensures AllGreet(WithX(m, id, xdisplay, vtnr).client)
  {
    hide Naming.Display;
  }

  lemma NoProcesses()
    ensures Processes(map[], 1, [], [], UpTo(0))
  {
  }

  lemma HasGreeter(m: Mem, id: nat, xpids: seq<nat>)
    requires id < |xpids| == |m.client.clients| == |m.sessions| && m.client.clients[id] in m.client.heap
    requires AllGreet(m.client)
    ensures AbsSeats(m, xpids)[id].greeter.Some?
  {
  }

  /** Which seats have a greeter, in memory and to the abstract machine. */
  lemma GreetersAre(m: Mem, n: nat, xdisplay: string, vtnr: nat, S: set<nat>, C: set<nat>, xpids: seq<nat>)
    requires |xpids| == n && Parts(m, n, xdisplay, vtnr, S, C) && AllGreet(m.client)
    ensures |m.client.clients| == |m.sessions| == n
    ensures forall i :: 0 <= i < n ==> (AbsSeats(m, xpids)[i].greeter.Some? <==> m.client.clients[i] != 0)
    ensures forall i: nat :: i < n ==> (m.client.clients[i] != 0 <==> i in C)
    ensures forall i :: 0 <= i < n ==> AbsSeats(m, xpids)[i].greeter != Some(0)
  {
    hide Fresh, XPart, SPart, SNames, CHandlers, AllGreet, AbsSeat;
    forall i | 0 <= i < n
      ensures AbsSeats(m, xpids)[i].greeter.Some? <==> m.client.clients[i] != 0
      ensures AbsSeats(m, xpids)[i].greeter != Some(0)
    {
      NoGreeterSeat(m, n, xdisplay, vtnr, S, C, i, xpids[i]);
      NotNull(m, i, xpids[i]);
    }
  }

  lemma NotNull(m: Mem, i: nat, x: nat)
    requires i < |m.client.clients| && i < |m.sessions|
    ensures AbsSeat(m, i, x).greeter != Some(0)
  {
  }

  lemma NobodyGreets(s: State, exe: nat)
    requires forall i :: 0 <= i < |s.seats| ==> s.seats[i].greeter != Some(0)
    ensures exe == 0 ==> forall i: nat :: !Greets(s, i, exe)
  {
  }

  /** The seats of the first h callbacks have a greeter. */
  ghost predicate Tried(xheap: map<Ptr, XRecord>, xhandlers: map<nat, Ptr>, greeted: set<nat>, h: nat) {
    forall k :: 0 <= k < h && k in xhandlers && xhandlers[k] in xheap ==> xheap[xhandlers[k]].id in greeted
  }

  lemma NoneTried(xheap: map<Ptr, XRecord>, xhandlers: map<nat, Ptr>, greeted: set<nat>)
    ensures Tried(xheap, xhandlers, greeted, 0)
  {
  }

  /** Once every callback was tried, every seat has a greeter. */
  lemma AllTried(m: Mem, n: nat, xdisplay: string, vtnr: nat, before: set<nat>, greeted: set<nat>)
    requires Parts(m, n, xdisplay, vtnr, UpTo(n), before) && greeted <= UpTo(n)
    requires Tried(m.xheap, m.xhandlers, greeted, m.nextHandler)
    ensures greeted == UpTo(n)
  {
    hide SPart, CPart, SNames, XNamed;
    forall i | i in UpTo(n) ensures i in greeted {
      var h := m.xheap[m.xservers[i]].handlerStart;
      assert h in m.xhandlers && m.xhandlers[h] == m.xservers[i];
    }
  }

  lemma TriedNext(xheap: map<Ptr, XRecord>, xhandlers: map<nat, Ptr>, greeted: set<nat>, h: nat)
    requires Tried(xheap, xhandlers, greeted, h)
    ensures h !in xhandlers ==> Tried(xheap, xhandlers, greeted, h + 1)
    ensures h in xhandlers && xhandlers[h] in xheap ==>
      Tried(xheap, xhandlers, greeted + {xheap[xhandlers[h]].id}, h + 1)
  {
  }

  lemma ProcessesAreLive(procs: map<nat, Process>, next: nat, xpids: seq<nat>, log: Log, S: set<nat>)
    requires Processes(procs, next, xpids, log, S)
    ensures procs.Keys == Live(log)
  {
  }

  /** The daemon's whole life: start-up and any sequence of incidents make a run of the abstract
      machine, and leave every seat with what it owns. */
  method Serve(seats: nat, xdisplay: string, vtnr: nat, lives: seq<nat>, incidents: seq<Incident>)
    returns (d: Daemon, ghost es: seq<Event>)
    requires |lives| == seats
    ensures d.Valid() && d.seats == seats
    ensures Runnable(Boot(seats), es) && d.Abs() == Final(Boot(seats), es)
    ensures |d.mem.xheap| == |d.mem.xhandlers| == |d.mem.sheap| == seats
    ensures |d.mem.client.dels| == |d.mem.client.errors| == |d.mem.client.datas| == |d.mem.client.heap| == |d.greeted|
  {
    hide Runnable, Final;
    d := new Daemon(seats, xdisplay, vtnr, lives);
    ghost var trace;
    trace, es := d.Run(incidents);
    Sizes(d.mem, seats, xdisplay, vtnr, d.greeted);
  }

  lemma Sizes(m: Mem, n: nat, xdisplay: string, vtnr: nat, C: set<nat>)
    requires Parts(m, n, xdisplay, vtnr, UpTo(n), C)
    ensures |m.xheap| == |m.xhandlers| == |m.sheap| == n
    ensures |m.client.dels| == |m.client.errors| == |m.client.datas| == |m.client.heap| == |C|
  {
  }
}
