/** Facts about all paths, or about some path, computed by visiting every node of an
    acyclic graph once, each after all of its predecessors. A node passes its set on to
    its two successors; nodes are blocks or edges. */
module Sweep {
  import opened Lists

  /** The successors of each node, -1 for none. */
  datatype Links = Links(s0: seq<int>, s1: seq<int>)

  predicate Linked(L: Links, u: nat, v: int) {
    u < |L.s0| == |L.s1| && v >= 0 && (L.s0[u] == v || L.s1[u] == v)
  }

  /** The nodes considered, where paths start, and a depth that falls along links. */
  datatype Net = Net(links: Links, active: set<nat>, roots: set<nat>, depth: seq<nat>)

  ghost predicate Falls(N: Net, u: nat, v: int)
    requires u < |N.depth|
  {
    u in N.active && Linked(N.links, u, v) ==> v < |N.depth| && v in N.active && N.depth[v] < N.depth[u]
  }

  ghost predicate NetOk(N: Net) {
    && |N.links.s0| == |N.links.s1| == |N.depth|
    && (forall v :: v in N.active ==> v < |N.depth|)
    && (forall u, v {:trigger Linked(N.links, u, v)} :: 0 <= u < |N.depth| ==> Falls(N, u, v))
  }

  /** `y` is passed to `v` by every predecessor already visited. */
  ghost predicate FromAll(N: Net, seen: set<nat>, sets: seq<set<nat>>, v: nat, y: nat) {
    forall u {:trigger Linked(N.links, u, v)} ::
      u in N.active && u in seen && u < |sets| && Linked(N.links, u, v) ==> y in sets[u]
  }

  ghost predicate FromSome(N: Net, seen: set<nat>, sets: seq<set<nat>>, v: nat, y: nat) {
    exists u {:trigger Linked(N.links, u, v)} ::
      u in N.active && u in seen && u < |sets| && Linked(N.links, u, v) && y in sets[u]
  }

  /** What the set of `v` holds when `seen` have been visited, all paths counting. */
  ghost predicate AllAt(N: Net, seen: set<nat>, sets: seq<set<nat>>, v: nat)
    requires v < |sets|
  {
    forall y: nat {:trigger y in sets[v]} ::
      y in sets[v] <==> (v in seen && y == v) || (v !in N.roots && y < |sets| && FromAll(N, seen, sets, v, y))
  }

  /** The same when one path is enough. */
  ghost predicate SomeAt(N: Net, seen: set<nat>, sets: seq<set<nat>>, v: nat)
    requires v < |sets|
  {
    forall y: nat {:trigger y in sets[v]} ::
      y in sets[v] <==> (v in seen && y == v) || FromSome(N, seen, sets, v, y)
  }

  ghost predicate Visited(N: Net, seen: set<nat>, sets: seq<set<nat>>, all: bool) {
    && NetOk(N) && |sets| == |N.depth| && seen <= N.active
    && forall v {:trigger VisitedAt(N, seen, sets, all, v)} :: 0 <= v < |sets| ==> VisitedAt(N, seen, sets, all, v)
  }

  ghost predicate VisitedAt(N: Net, seen: set<nat>, sets: seq<set<nat>>, all: bool, v: nat)
    requires v < |sets|
  {
    if all then AllAt(N, seen, sets, v) else SomeAt(N, seen, sets, v)
  }

  /** All predecessors of `v` have been visited, and neither `v` nor its successors. */
  ghost predicate Next(N: Net, seen: set<nat>, v: nat) {
    && v in N.active && v !in seen && v < |N.links.s0| == |N.links.s1|
    && N.links.s0[v] !in seen && N.links.s1[v] !in seen
    && forall u {:trigger Linked(N.links, u, v)} :: u in N.active && Linked(N.links, u, v) ==> u in seen
  }

  function Combine(a: set<nat>, b: set<nat>, all: bool): set<nat> {
    if all then a * b else a + b
  }

  function Pass(sets: seq<set<nat>>, v: nat, s: int, all: bool): seq<set<nat>>
    requires v < |sets|
  {
    if 0 <= s < |sets| then sets[s := Combine(sets[s], sets[v], all)] else sets
  }

  /** One visit: the node joins its own set, which it passes on to its successors. */
  function Visit(sets: seq<set<nat>>, v: nat, s0: int, s1: int, all: bool): seq<set<nat>>
    requires v < |sets|
  {
    Pass(Pass(sets[v := sets[v] + {v}], v, s0, all), v, s1, all)
  }

  /** What a visit does to each set. */
  lemma VisitSets(sets: seq<set<nat>>, v: nat, s0: int, s1: int, all: bool, w: nat)
    requires v < |sets| && v != s0 && v != s1 && w < |sets|
    ensures
      var r := Visit(sets, v, s0, s1, all);
      |r| == |sets| &&
      r[w] == if w == v then sets[v] + {v}
              else if w == s0 || w == s1 then Combine(sets[w], sets[v] + {v}, all)
              else sets[w]
  {
  }

  lemma VisitStep(N: Net, seen: set<nat>, sets: seq<set<nat>>, all: bool, v: nat)
    requires Visited(N, seen, sets, all) && Next(N, seen, v)
    ensures Visited(N, seen + {v}, Visit(sets, v, N.links.s0[v], N.links.s1[v], all), all)
  {
    var s0, s1 := N.links.s0[v], N.links.s1[v];
    var sets' := Visit(sets, v, s0, s1, all);
    assert !Linked(N.links, v, v);
    VisitSets(sets, v, s0, s1, all, v);
    forall w | 0 <= w < |sets'| ensures VisitedAt(N, seen + {v}, sets', all, w) {
      VisitedStepAt(N, seen, sets, all, v, sets', w);
    }
  }

  lemma VisitedStepAt(N: Net, seen: set<nat>, sets: seq<set<nat>>, all: bool, v: nat, sets': seq<set<nat>>, w: nat)
    requires Visited(N, seen, sets, all) && Next(N, seen, v) && !Linked(N.links, v, v) && w < |sets|
    requires sets' == Visit(sets, v, N.links.s0[v], N.links.s1[v], all)
    ensures w < |sets'| && VisitedAt(N, seen + {v}, sets', all, w)
  {
    var s0, s1 := N.links.s0[v], N.links.s1[v];
    VisitSets(sets, v, s0, s1, all, w);
    assert VisitedAt(N, seen, sets, all, w);
    forall y: nat ensures FromAll(N, seen + {v}, sets', w, y) <==>
      FromAll(N, seen, sets, w, y) && (Linked(N.links, v, w) ==> y in sets[v] + {v}) {
      FromAllStep(N, seen, sets, all, v, sets', w, y);
    }
    forall y: nat ensures FromSome(N, seen + {v}, sets', w, y) <==>
      FromSome(N, seen, sets, w, y) || (Linked(N.links, v, w) && y in sets[v] + {v}) {
      FromSomeStep(N, seen, sets, all, v, sets', w, y);
    }
  }

  lemma SeenKept(N: Net, seen: set<nat>, sets: seq<set<nat>>, all: bool, v: nat, u: nat)
    requires Next(N, seen, v) && !Linked(N.links, v, v) && |sets| == |N.links.s0| && u in seen && u < |sets|
    ensures Visit(sets, v, N.links.s0[v], N.links.s1[v], all)[u] == sets[u]
  {
    VisitSets(sets, v, N.links.s0[v], N.links.s1[v], all, u);
  }

  lemma FromAllStep(N: Net, seen: set<nat>, sets: seq<set<nat>>, all: bool, v: nat, sets': seq<set<nat>>, w: nat,
                    y: nat)
    requires Visited(N, seen, sets, all) && Next(N, seen, v) && !Linked(N.links, v, v) && w < |sets|
    requires sets' == Visit(sets, v, N.links.s0[v], N.links.s1[v], all)
    ensures FromAll(N, seen + {v}, sets', w, y) <==>
            FromAll(N, seen, sets, w, y) && (Linked(N.links, v, w) ==> y in sets[v] + {v})
  {
    VisitSets(sets, v, N.links.s0[v], N.links.s1[v], all, v);
    forall u | u in seen && u < |sets| ensures sets'[u] == sets[u] {
      SeenKept(N, seen, sets, all, v, u);
    }
  }

  lemma FromSomeStep(N: Net, seen: set<nat>, sets: seq<set<nat>>, all: bool, v: nat, sets': seq<set<nat>>, w: nat,
                     y: nat)
    requires Visited(N, seen, sets, all) && Next(N, seen, v) && !Linked(N.links, v, v) && w < |sets|
    requires sets' == Visit(sets, v, N.links.s0[v], N.links.s1[v], all)
    ensures FromSome(N, seen + {v}, sets', w, y) <==>
            FromSome(N, seen, sets, w, y) || (Linked(N.links, v, w) && y in sets[v] + {v})
  {
    VisitSets(sets, v, N.links.s0[v], N.links.s1[v], all, v);
    forall u | u in seen && u < |sets| ensures sets'[u] == sets[u] {
      SeenKept(N, seen, sets, all, v, u);
    }
  }

  // ----- paths

  /** A way from a root to `v`, as the list of nodes visited. */
  ghost predicate Path(N: Net, ns: seq<nat>, v: nat) {
    && ns != [] && ns[|ns| - 1] == v && v in N.active
    && (if |ns| == 1 then v in N.roots
        else Linked(N.links, ns[|ns| - 2], v) && Path(N, ns[..|ns| - 1], ns[|ns| - 2]))
  }

  lemma {:induction false} OnEveryPath(N: Net, sets: seq<set<nat>>, v: nat, y: nat, ns: seq<nat>)
    requires Visited(N, N.active, sets, true) && v < |sets| && y in sets[v] && Path(N, ns, v)
    ensures y in Elems(ns)
    decreases |ns|
  {
    assert VisitedAt(N, N.active, sets, true, v);
    if y != v {
      var u := ns[|ns| - 2];
      assert Path(N, ns[..|ns| - 1], u);
      OnEveryPath(N, sets, u, y, ns[..|ns| - 1]);
    }
  }

  /** A path that avoids `y`, when `y` is not in the set. */
  lemma {:induction false} Avoiding(N: Net, sets: seq<set<nat>>, v: nat, y: nat, top: nat) returns (ns: seq<nat>)
    requires Visited(N, N.active, sets, true) && v in N.active && y !in sets[v] && y < |sets|
    requires forall u :: u in N.active ==> N.depth[u] <= top
    ensures Path(N, ns, v) && y !in Elems(ns)
    decreases top - N.depth[v]
  {
    assert VisitedAt(N, N.active, sets, true, v);
    if v in N.roots {
      ns := [v];
      assert [v][..0] == [];
    } else {
      assert !FromAll(N, N.active, sets, v, y);
      var u :| u in N.active && u < |sets| && Linked(N.links, u, v) && y !in sets[u];
      assert Falls(N, u, v);
      ns := Avoiding(N, sets, u, y, top);
      ns := ns + [v];
      assert ns[..|ns| - 1] + [v] == ns;
    }
  }

  /** One sweep computes exactly the nodes that lie on every path. */
  lemma EveryPath(N: Net, sets: seq<set<nat>>, v: nat, y: nat, top: nat)
    requires Visited(N, N.active, sets, true) && v in N.active && y < |sets|
    requires forall u :: u in N.active ==> N.depth[u] <= top
    ensures y in sets[v] <==> forall ns :: Path(N, ns, v) ==> y in Elems(ns)
  {
    if y in sets[v] {
      forall ns | Path(N, ns, v) ensures y in Elems(ns) {
        OnEveryPath(N, sets, v, y, ns);
      }
    } else {
      var ns := Avoiding(N, sets, v, y, top);
    }
  }

  /** `y` leads to `v`. */
  ghost predicate Leads(N: Net, ns: seq<nat>, y: nat, v: nat) {
    && ns != [] && ns[|ns| - 1] == v && v in N.active
    && (if |ns| == 1 then v == y
        else Linked(N.links, ns[|ns| - 2], v) && Leads(N, ns[..|ns| - 1], y, ns[|ns| - 2]))
  }

  lemma {:induction false} LeadsIn(N: Net, sets: seq<set<nat>>, v: nat, y: nat, ns: seq<nat>)
    requires Visited(N, N.active, sets, false) && v < |sets| && Leads(N, ns, y, v)
    ensures y in sets[v]
    decreases |ns|
  {
    assert VisitedAt(N, N.active, sets, false, v);
    if |ns| > 1 {
      var u := ns[|ns| - 2];
      assert Leads(N, ns[..|ns| - 1], y, u);
      assert Linked(N.links, u, v);
      LeadsIn(N, sets, u, y, ns[..|ns| - 1]);
    }
  }

  lemma {:induction false} InLeads(N: Net, sets: seq<set<nat>>, v: nat, y: nat, top: nat) returns (ns: seq<nat>)
    requires Visited(N, N.active, sets, false) && v in N.active && y in sets[v]
    requires forall u :: u in N.active ==> N.depth[u] <= top
    ensures Leads(N, ns, y, v)
    decreases top - N.depth[v]
  {
    assert VisitedAt(N, N.active, sets, false, v);
    if y == v {
      ns := [v];
    } else {
      assert FromSome(N, N.active, sets, v, y);
      var u :| u in N.active && u < |sets| && Linked(N.links, u, v) && y in sets[u];
      assert Falls(N, u, v);
      ns := InLeads(N, sets, u, y, top);
      ns := ns + [v];
      assert ns[..|ns| - 1] + [v] == ns;
    }
  }

  lemma SomePath(N: Net, sets: seq<set<nat>>, v: nat, y: nat, top: nat)
    requires Visited(N, N.active, sets, false) && v in N.active
    requires forall u :: u in N.active ==> N.depth[u] <= top
    ensures y in sets[v] <==> exists ns :: Leads(N, ns, y, v)
  {
    if y in sets[v] {
      var ns: seq<nat> := InLeads(N, sets, v, y, top);
      assert exists s: seq<nat> {:trigger Leads(N, s, y, v)} :: s == ns && Leads(N, s, y, v);
    } else {
      forall ns ensures !Leads(N, ns, y, v) {
        if Leads(N, ns, y, v) {
          LeadsIn(N, sets, v, y, ns);
          assert false;
        }
      }
    }
  }
}
