/** Searching a list from its head. */
module Lists {

  /** The place of the first x, or the length of the list. */
  function First<T(==)>(l: seq<T>, x: T): (k: nat)
    ensures k <= |l| && (k < |l| ==> l[k] == x)
  {
    if l == [] || l[0] == x then 0 else 1 + First(l[1..], x)
  }

  lemma {:induction false} FirstIs<T>(l: seq<T>, x: T, k: nat)
    requires k <= |l| && (k < |l| ==> l[k] == x)
    requires forall i :: 0 <= i < k ==> l[i] != x
    ensures First(l, x) == k
  {
    if k > 0 {
      assert l[0] != x;
      assert forall i :: 0 <= i < k - 1 ==> l[1..][i] == l[i + 1];
      FirstIs(l[1..], x, k - 1);
    }
  }

  lemma {:induction false} FirstSkips<T>(l: seq<T>, x: T, i: nat)
    requires i < First(l, x)
    ensures l[i] != x
  {
    if i > 0 { FirstSkips(l[1..], x, i - 1); }
  }

  lemma FirstFinds<T>(l: seq<T>, x: T, i: nat)
    requires i < |l| && l[i] == x
    ensures First(l, x) <= i
  {
    if i < First(l, x) { FirstSkips(l, x, i); }
  }
}
