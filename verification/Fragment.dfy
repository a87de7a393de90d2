/** Filter fragments as values: blocks some of whose exits are still open, each
    labelled with the answer it stands for. Evaluation is three-valued, because a
    load outside the packet answers neither yes nor no. */
module Fragment {
  import opened Bpf
  import opened Flow
  import opened Atoms

  datatype Outcome = Accept | Reject | Abort

  function And3(a: Outcome, b: Outcome): Outcome {
    if a == Accept then b else a
  }

  function Or3(a: Outcome, b: Outcome): Outcome {
    if a == Reject then b else a
  }

  function Not3(a: Outcome): Outcome {
    match a
    case Accept => Reject
    case Reject => Accept
    case Abort => Abort
  }

  function Decide(b: bool): Outcome {
    if b then Accept else Reject
  }

  function AndSem(s0: Packet -> Outcome, s1: Packet -> Outcome): Packet -> Outcome {
    p => And3(s0(p), s1(p))
  }

  function OrSem(s0: Packet -> Outcome, s1: Packet -> Outcome): Packet -> Outcome {
    p => Or3(s0(p), s1(p))
  }

  function NotSem(s: Packet -> Outcome): Packet -> Outcome {
    p => Not3(s(p))
  }

  /** An exit of a block: another block of the fragment, or an open exit. */
  datatype Link = Go(j: nat) | Yes | No

  datatype FNode = FNode(stmts: seq<Stmt>, s: Stmt, t: Link, f: Link)

  /** Blocks by address, with a rank below `top` that falls along every link. */
  datatype Frag = Frag(nodes: map<nat, FNode>, rank: map<nat, nat>, top: nat, head: nat)

  predicate LinkOk(f: Frag, i: nat, l: Link)
    requires i in f.rank && f.nodes.Keys == f.rank.Keys
  {
    l.Go? ==> l.j in f.nodes && f.rank[l.j] < f.rank[i]
  }

  predicate FNodeOk(f: Frag, i: nat)
    requires i in f.nodes && f.nodes.Keys == f.rank.Keys
  {
    && f.rank[i] < f.top
    && LinkOk(f, i, f.nodes[i].t) && LinkOk(f, i, f.nodes[i].f)
    && TestBlock(f.nodes[i].stmts, f.nodes[i].s)
  }

  predicate Wf(f: Frag) {
    && f.nodes.Keys == f.rank.Keys
    && f.head in f.nodes
    && forall i {:trigger FNodeOk(f, i)} :: i in f.nodes ==> FNodeOk(f, i)
  }

  /** Runs the fragment from block `i` to an open exit. */
  function Eval(f: Frag, i: nat, st: Store, p: Packet): (Outcome, Store)
    requires Wf(f) && i in f.nodes
    decreases f.rank[i]
  {
    assert FNodeOk(f, i);
    match ExecList(f.nodes[i].stmts, st, p)
    case None => (Abort, st)
    case Some(st1) =>
      match (if Holds(f.nodes[i].s, st1) then f.nodes[i].t else f.nodes[i].f)
      case Go(j) => Eval(f, j, st1, p)
      case Yes => (Accept, st1)
      case No => (Reject, st1)
  }

  /** The fragment answers `sem`, whatever the registers held before. */
  ghost predicate Denotes(f: Frag, sem: Packet -> Outcome) {
    && Wf(f)
    && forall st, p :: Eval(f, f.head, st, p).0 == sem(p)
  }

  // ----- one block

  function Atom(a: nat, stmts: seq<Stmt>, s: Stmt): Frag {
    Frag(map[a := FNode(stmts, s, Yes, No)], map[a := 0], 1, a)
  }

  lemma AtomEval(a: nat, stmts: seq<Stmt>, s: Stmt, st: Store, p: Packet)
    requires TestBlock(stmts, s)
    ensures Wf(Atom(a, stmts, s))
    ensures Eval(Atom(a, stmts, s), a, st, p) ==
            (match ExecList(stmts, st, p)
             case None => (Abort, st)
             case Some(st1) => (Decide(Holds(s, st1)), st1))
  {
    assert FNodeOk(Atom(a, stmts, s), a);
  }

  // ----- combining fragments

  function Redirect(l: Link, on: Link, n: nat): Link {
    if l == on then Go(n) else l
  }

  /** `f0` with its `on` exits continued by `f1`. */
  function Join(f0: Frag, f1: Frag, on: Link): Frag
    requires f0.nodes.Keys == f0.rank.Keys && f1.nodes.Keys == f1.rank.Keys
  {
    Frag(
      map a | a in f0.nodes.Keys + f1.nodes.Keys ::
        if a in f1.nodes then f1.nodes[a]
        else f0.nodes[a].(t := Redirect(f0.nodes[a].t, on, f1.head), f := Redirect(f0.nodes[a].f, on, f1.head)),
      map a | a in f0.nodes.Keys + f1.nodes.Keys ::
        if a in f1.nodes then f1.rank[a] else f1.top + f0.rank[a],
      f1.top + f0.top,
      f0.head)
  }

  function Flip(l: Link): Link {
    match l
    case Yes => No
    case No => Yes
    case _ => l
  }

  function Negate(f: Frag): Frag {
    f.(nodes := map a | a in f.nodes :: f.nodes[a].(t := Flip(f.nodes[a].t), f := Flip(f.nodes[a].f)))
  }

  function Answer(l: Link): Outcome
    requires !l.Go?
  {
    if l.Yes? then Accept else Reject
  }

  lemma JoinWf(f0: Frag, f1: Frag, on: Link)
    requires Wf(f0) && Wf(f1) && f0.nodes.Keys !! f1.nodes.Keys && !on.Go?
    ensures Wf(Join(f0, f1, on))
  {
    var f := Join(f0, f1, on);
    forall i | i in f.nodes ensures FNodeOk(f, i) {
      if i in f1.nodes {
        assert FNodeOk(f1, i);
      } else {
        assert FNodeOk(f0, i) && FNodeOk(f1, f1.head);
      }
    }
  }

  lemma {:induction false} JoinRight(f0: Frag, f1: Frag, on: Link, i: nat, st: Store, p: Packet)
    requires Wf(f0) && Wf(f1) && !on.Go? && Wf(Join(f0, f1, on)) && i in f1.nodes
    ensures Eval(Join(f0, f1, on), i, st, p) == Eval(f1, i, st, p)
    decreases f1.rank[i]
  {
    assert FNodeOk(f1, i);
    match ExecList(f1.nodes[i].stmts, st, p) {
      case None =>
      case Some(st1) =>
        var l := if Holds(f1.nodes[i].s, st1) then f1.nodes[i].t else f1.nodes[i].f;
        if l.Go? {
          JoinRight(f0, f1, on, l.j, st1, p);
        }
    }
  }

  lemma {:induction false} JoinLeft(f0: Frag, f1: Frag, on: Link, i: nat, st: Store, p: Packet)
    requires Wf(f0) && Wf(f1) && f0.nodes.Keys !! f1.nodes.Keys && !on.Go? && Wf(Join(f0, f1, on)) && i in f0.nodes
    ensures
      var r := Eval(f0, i, st, p);
      Eval(Join(f0, f1, on), i, st, p) ==
      if r.0 == Answer(on) then Eval(f1, f1.head, r.1, p) else r
    decreases f0.rank[i]
  {
    assert FNodeOk(f0, i);
    match ExecList(f0.nodes[i].stmts, st, p) {
      case None =>
      case Some(st1) =>
        var l := if Holds(f0.nodes[i].s, st1) then f0.nodes[i].t else f0.nodes[i].f;
        if l.Go? {
          JoinLeft(f0, f1, on, l.j, st1, p);
        } else if l == on {
          JoinRight(f0, f1, on, f1.head, st1, p);
        }
    }
  }

  /** Continuing the yes exits is conjunction: the right operand is evaluated only
      when the left one accepts, and an aborting left operand aborts. */
  lemma AndDenotes(f0: Frag, f1: Frag, s0: Packet -> Outcome, s1: Packet -> Outcome)
    requires Denotes(f0, s0) && Denotes(f1, s1) && f0.nodes.Keys !! f1.nodes.Keys
    ensures Denotes(Join(f0, f1, Yes), AndSem(s0, s1))
  {
    JoinWf(f0, f1, Yes);
    forall st, p ensures Eval(Join(f0, f1, Yes), f0.head, st, p).0 == And3(s0(p), s1(p)) {
      JoinLeft(f0, f1, Yes, f0.head, st, p);
    }
  }

  lemma OrDenotes(f0: Frag, f1: Frag, s0: Packet -> Outcome, s1: Packet -> Outcome)
    requires Denotes(f0, s0) && Denotes(f1, s1) && f0.nodes.Keys !! f1.nodes.Keys
    ensures Denotes(Join(f0, f1, No), OrSem(s0, s1))
  {
    JoinWf(f0, f1, No);
    forall st, p ensures Eval(Join(f0, f1, No), f0.head, st, p).0 == Or3(s0(p), s1(p)) {
      JoinLeft(f0, f1, No, f0.head, st, p);
    }
  }

  lemma NegateWf(f: Frag)
    requires Wf(f)
    ensures Wf(Negate(f))
  {
    assert Negate(f).nodes.Keys == f.nodes.Keys;
    forall i | i in f.nodes ensures FNodeOk(Negate(f), i) {
      assert FNodeOk(f, i);
    }
  }

  lemma {:induction false} NegateEval(f: Frag, i: nat, st: Store, p: Packet)
    requires Wf(f) && Wf(Negate(f)) && i in f.nodes
    ensures Eval(Negate(f), i, st, p) == (Not3(Eval(f, i, st, p).0), Eval(f, i, st, p).1)
    decreases f.rank[i]
  {
    assert FNodeOk(f, i);
    match ExecList(f.nodes[i].stmts, st, p) {
      case None =>
      case Some(st1) =>
        var l := if Holds(f.nodes[i].s, st1) then f.nodes[i].t else f.nodes[i].f;
        if l.Go? {
          NegateEval(f, l.j, st1, p);
        }
    }
  }

  lemma NotDenotes(f: Frag, s: Packet -> Outcome)
    requires Denotes(f, s)
    ensures Denotes(Negate(f), NotSem(s))
  {
    NegateWf(f);
    forall st, p ensures Eval(Negate(f), f.head, st, p).0 == Not3(s(p)) {
      NegateEval(f, f.head, st, p);
    }
  }

  // ----- closing a fragment

  function Close(l: Link, yes: nat, no: nat): nat {
    match l
    case Go(j) => j
    case Yes => yes
    case No => no
  }

  /** `g` holds the fragment with its yes exits led to a leaf returning `snaplen` and
      its no exits to a leaf returning 0. */
  ghost predicate Closes(g: Graph, f: Frag, yes: nat, no: nat, snaplen: Word) {
    && yes < |g| && no < |g| && yes !in f.nodes && no !in f.nodes
    && g[yes] == Node([], Stmt(RetK, snaplen), -1, -1) && g[no] == Node([], Stmt(RetK, 0), -1, -1)
    && (forall a :: a in f.nodes ==>
          a < |g| &&
          g[a] == Node(f.nodes[a].stmts, f.nodes[a].s, Close(f.nodes[a].t, yes, no), Close(f.nodes[a].f, yes, no)))
  }

  function CloseRank(f: Frag, yes: nat, no: nat): Rank
    requires f.nodes.Keys == f.rank.Keys
  {
    map a: int | a in f.rank.Keys + {yes, no} :: if a in f.rank then f.rank[a] + 1 else 0
  }

  lemma CloseWf(g: Graph, f: Frag, yes: nat, no: nat, snaplen: Word)
    requires Wf(f) && Closes(g, f, yes, no, snaplen)
    ensures WellFormed(g, CloseRank(f, yes, no))
  {
    var rank := CloseRank(f, yes, no);
    forall i | 0 <= i < |g| && i in rank ensures NodeOk(g, rank, i) {
      if i in f.nodes {
        assert FNodeOk(f, i);
      }
    }
  }

  lemma {:induction false} CloseRun(g: Graph, f: Frag, yes: nat, no: nat, snaplen: Word, i: nat, st: Store, p: Packet)
    requires Wf(f) && Closes(g, f, yes, no, snaplen) && WellFormed(g, CloseRank(f, yes, no)) && i in f.nodes
    ensures Run(g, CloseRank(f, yes, no), i, st, p) ==
            (match Eval(f, i, st, p).0
             case Accept => Some(snaplen)
             case Reject => Some(0)
             case Abort => None)
    decreases f.rank[i]
  {
    assert FNodeOk(f, i);
    match ExecList(f.nodes[i].stmts, st, p) {
      case None =>
      case Some(st1) =>
        var l := if Holds(f.nodes[i].s, st1) then f.nodes[i].t else f.nodes[i].f;
        if l.Go? {
          CloseRun(g, f, yes, no, snaplen, l.j, st1, p);
        }
    }
  }
}
