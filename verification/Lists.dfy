/** Lists of block numbers, and the sets of their members. */
module Lists {

  ghost function Elems(list: seq<nat>): set<nat> {
    if list == [] then {} else Elems(list[..|list| - 1]) + {list[|list| - 1]}
  }

  lemma EmptyElems(list: seq<nat>)
    ensures Elems(list) == {} <==> list == []
  {
  }

  lemma {:induction false} ElemsIn(list: seq<nat>, i: nat)
    ensures i in Elems(list) <==> i in list
  {
    if list != [] {
      ElemsIn(list[..|list| - 1], i);
      assert list == list[..|list| - 1] + [list[|list| - 1]];
    }
  }

  lemma {:induction false} ElemsAppend(l0: seq<nat>, l1: seq<nat>)
    ensures Elems(l0 + l1) == Elems(l0) + Elems(l1)
  {
    if l1 == [] {
      assert l0 + l1 == l0;
    } else {
      ElemsAppend(l0, l1[..|l1| - 1]);
      assert (l0 + l1)[..|l0 + l1| - 1] == l0 + l1[..|l1| - 1];
    }
  }

  function Upto(n: nat): (s: set<nat>)
    ensures |s| == n && forall i: nat {:trigger i in s} :: i in s <==> i < n
  {
    if n == 0 then {} else Upto(n - 1) + {n - 1}
  }

  ghost predicate NoRepeat(list: seq<nat>) {
    list == [] ||
    (NoRepeat(list[..|list| - 1]) && list[|list| - 1] !in Elems(list[..|list| - 1]))
  }

  lemma {:induction false} NoRepeatAt(list: seq<nat>, k: nat)
    requires NoRepeat(list) && k < |list|
    ensures list[k] !in Elems(list[..k])
  {
    if k < |list| - 1 {
      NoRepeatAt(list[..|list| - 1], k);
      assert list[..|list| - 1][..k] == list[..k];
    }
  }

  lemma {:induction false} MergedNoRepeat(l1: seq<nat>, l0: seq<nat>)
    requires NoRepeat(l1) && NoRepeat(l0) && Elems(l0) !! Elems(l1)
    ensures NoRepeat(l1 + l0)
  {
    if l0 == [] {
      assert l1 + l0 == l1;
    } else {
      var l := l0[..|l0| - 1];
      MergedNoRepeat(l1, l);
      ElemsAppend(l1, l);
      assert (l1 + l0)[..|l1 + l0| - 1] == l1 + l;
    }
  }

  ghost predicate Prefix(a: seq<nat>, b: seq<nat>) {
    |a| <= |b| && b[..|a|] == a
  }

  lemma {:induction false} PrefixElems(a: seq<nat>, b: seq<nat>)
    requires Prefix(a, b)
    ensures Elems(a) <= Elems(b)
    decreases |b|
  {
    if |a| < |b| {
      assert b[..|b| - 1][..|a|] == a;
      PrefixElems(a, b[..|b| - 1]);
    } else {
      assert a == b;
    }
  }

  lemma PrefixTrans(a: seq<nat>, b: seq<nat>, c: seq<nat>)
    requires Prefix(a, b) && Prefix(b, c)
    ensures Prefix(a, c)
  {
    assert c[..|a|] == c[..|b|][..|a|];
  }

  lemma PrefixExtend(a: seq<nat>, b: seq<nat>, x: nat)
    requires Prefix(a, b)
    ensures Prefix(a, b + [x]) && (b + [x])[..|b|] == b
  {
    assert (b + [x])[..|a|] == b[..|a|];
  }

  /** The mark of `x` is the current one. */
  predicate Marked(mark: seq<nat>, cur: nat, x: nat) {
    x < |mark| && mark[x] == cur
  }
}
