/** The pool of interned strings: equal strings share one counted pointer. */
module Stringshare {
  import opened Wrappers

  /** A pointer; 0 is NULL. */
  type Ptr = nat

  /** The string behind every live pointer, and how many references each one has. */
  datatype Pool = Pool(text: map<Ptr, string>, refs: multiset<Ptr>)

  ghost predicate Good(p: Pool) {
    && 0 !in p.refs
    && (forall x :: x in p.text <==> x in p.refs)
    && (forall x, y :: x in p.text && y in p.text && p.text[x] == p.text[y] ==> x == y)
  }

  /** Interning s: the pointer of s when it has one, otherwise any unused one. */
  ghost predicate Adds(p: Pool, s: string, x: Ptr, q: Pool) {
    && x != 0
    && (if s in p.text.Values then x in p.text && p.text[x] == s else x !in p.text)
    && q == Pool(p.text[x := s], p.refs + multiset{x})
  }

  function Ref(x: Ptr): multiset<Ptr> {
    if x == 0 then multiset{} else multiset{x}
  }

  /** Dropping a reference; the string goes with its last one, and NULL is ignored. */
  function Del(p: Pool, x: Ptr): Pool
    requires x == 0 || x in p.refs
  {
    if x == 0 then p
    else if p.refs[x] == 1 then Pool(p.text - {x}, p.refs - multiset{x})
    else Pool(p.text, p.refs - multiset{x})
  }

  /** The string behind a pointer that may be NULL. */
  function Str(p: Pool, x: Ptr): Option<string> {
    if x in p.text then Some(p.text[x]) else None
  }

  /** Pointers that live in both pools stand for the same string. */
  ghost predicate Agree(p: Pool, q: Pool) {
    forall x :: x in p.text && x in q.text ==> p.text[x] == q.text[x]
  }

  ghost predicate Grows(p: Pool, q: Pool) {
    forall x :: x in p.text ==> x in q.text && q.text[x] == p.text[x]
  }

  lemma GrowsSelf(p: Pool)
    ensures Grows(p, p)
  {
  }

  lemma GrowsAgree(p: Pool, q: Pool)
    requires Grows(p, q)
    ensures Agree(p, q)
  {
  }

  /** Growing and then shrinking. */
  lemma AgreeThrough(p: Pool, q: Pool, r: Pool)
    requires Grows(p, q) && Grows(r, q)
    ensures Agree(p, r)
  {
  }

  lemma GrowsThrough(p: Pool, q: Pool, r: Pool, s: Pool)
    requires Grows(p, q) && Grows(q, r) && Grows(r, s)
    ensures Grows(p, s)
  {
  }

  lemma GrowsKeeps(p: Pool, q: Pool, x: Ptr)
    requires Grows(p, q) && Good(p) && Good(q) && (x == 0 || Str(p, x).Some?)
    ensures Str(q, x) == Str(p, x)
  {
  }

  lemma AddGood(p: Pool, s: string, x: Ptr, q: Pool)
    requires Good(p) && Adds(p, s, x, q)
    ensures Good(q) && q.refs == p.refs + Ref(x) && Str(q, x) == Some(s)
    ensures Grows(p, q)
  {
  }

  lemma DelGood(p: Pool, x: Ptr, rest: multiset<Ptr>)
    requires Good(p) && p.refs == rest + Ref(x)
    ensures Good(Del(p, x)) && Del(p, x).refs == rest && Grows(Del(p, x), p)
  {
    if x != 0 {
      RefsBack(rest, x);
      assert rest == p.refs - multiset{x};
      forall y | y != x ensures y in rest <==> y in p.refs {}
    } else {
      assert rest + multiset{} == rest;
    }
  }

  lemma {:induction false} UnusedPointer(used: set<Ptr>)
    ensures exists x: Ptr :: x != 0 && x !in used && forall y :: y in used ==> y < x
  {
    if used == {} {
      assert 1 !in used;
    } else {
      var y :| y in used;
      UnusedPointer(used - {y});
      var x: Ptr :| x != 0 && x !in used - {y} && forall z :: z in used - {y} ==> z < x;
      var w := x + y + 1;
      forall z | z in used ensures z < w {
        if z != y { assert z in used - {y}; }
      }
      assert w !in used;
    }
  }

  /** Adding a reference and dropping it again leaves the pool as it was. */
  lemma AddThenDel(p: Pool, s: string, x: Ptr, q: Pool)
    requires Good(p) && Adds(p, s, x, q)
    ensures Del(q, x) == p
  {
    CountedWhenLive(p, x);
    RefsBack(p.refs, x);
    hide Good;
    if x in p.text {
      assert p.text[x := s] == p.text;
    } else {
      assert p.text[x := s] - {x} == p.text;
    }
  }

  lemma CountedWhenLive(p: Pool, x: Ptr)
    requires Good(p)
    ensures x in p.text <==> p.refs[x] > 0
  {
  }

  lemma RefsBack(refs: multiset<Ptr>, x: Ptr)
    ensures refs + multiset{x} - multiset{x} == refs && (refs + multiset{x})[x] == refs[x] + 1
  {
  }

  /** Comparing pointers is comparing strings. */
  lemma SamePointer(p: Pool, x: Ptr, y: Ptr)
    requires Good(p) && x in p.text && y in p.text
    ensures x == y <==> p.text[x] == p.text[y]
  {
  }
}
