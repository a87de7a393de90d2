/** Value numbers: equal expressions get the same number, through a hash table of
    the expressions numbered so far. */
module Values {
  import opened Bpf

  /** An expression over value numbers and constants; `code` says which fields are
      which. */
  datatype VNode = VNode(code: Code, v0: int, v1: int)

  datatype Entry = Entry(node: VNode, val: nat)

  const MODULUS: nat := 213

  /** The value numbers an expression is built from come before it; an operand may be
      unknown. */
  predicate ArgsBelow(n: VNode, v: nat) {
    match n.code
    case LdInd(_) => 0 <= n.v0 < WORD_LIMIT && 0 <= n.v1 < v
    case Neg => 0 <= n.v0 < v
    case AluK(_) => 0 <= n.v0 < v && 0 <= n.v1 < v
    case AluX(_) => 0 <= n.v0 < v && 0 <= n.v1 < v
    case _ => 0 <= n.v0 < WORD_LIMIT
  }

  function Constant(n: VNode): Option<Word> {
    if n.code.LdImm? && 0 <= n.v0 < WORD_LIMIT then Some(n.v0) else None
  }

  function K(i: Word): VNode {
    VNode(LdImm, i, 0)
  }

  /** The length of an IPv4 header whose first byte is at `k`. */
  function HeaderLength(p: Packet, k: nat): Option<Word> {
    if k < |p.data| then Some(4 * (p.data[k] % 16)) else None
  }

  /** The word a value number stands for on a packet; number `i + 1` names `nodes[i]`,
      and 0, which means unknown, names nothing. */
  function Den(nodes: seq<VNode>, v: nat, p: Packet): Option<Word>
    decreases v
  {
    if v == 0 || v > |nodes| || !ArgsBelow(nodes[v - 1], v) then None
    else
      var n := nodes[v - 1];
      match n.code
      case LdAbs(size) => Load(p, n.v0, size)
      case LdInd(size) =>
        (match Den(nodes, n.v1, p) case None => None case Some(x) => Load(p, Wrap(x + n.v0), size))
      case LdLen => Some(p.wirelen)
      case LdImm => Some(n.v0)
      case LdxMsh => HeaderLength(p, n.v0)
      case Neg => (match Den(nodes, n.v0, p) case None => None case Some(x) => Some(Wrap(WORD_LIMIT - x)))
      case AluK(op) => DenAlu(op, Den(nodes, n.v0, p), Den(nodes, n.v1, p))
      case AluX(op) => DenAlu(op, Den(nodes, n.v0, p), Den(nodes, n.v1, p))
      case _ => None
  }

  function DenAlu(op: AluOp, a: Option<Word>, b: Option<Word>): Option<Word> {
    if a.Some? && b.Some? then Alu(op, a.value, b.value) else None
  }

  ghost predicate Grows(a: seq<VNode>, b: seq<VNode>) {
    |a| <= |b| && forall i {:trigger b[i]} :: 0 <= i < |a| ==> b[i] == a[i]
  }

  /** A number keeps its meaning when more are handed out. */
  lemma {:induction false} DenGrows(a: seq<VNode>, b: seq<VNode>, v: nat, p: Packet)
    requires Grows(a, b) && v <= |a|
    ensures Den(b, v, p) == Den(a, v, p)
    decreases v
  {
    if v > 0 && ArgsBelow(a[v - 1], v) {
      assert b[v - 1] == a[v - 1];
      var n := a[v - 1];
      if n.code.LdInd? {
        DenGrows(a, b, n.v1, p);
      } else if n.code.Neg? {
        DenGrows(a, b, n.v0, p);
      } else if n.code.AluK? || n.code.AluX? {
        DenGrows(a, b, n.v0, p);
        DenGrows(a, b, n.v1, p);
      }
    }
  }

  /** An entry of the table is one of the expressions numbered, under its hash. */
  ghost predicate EntryOk(nodes: seq<VNode>, hash: VNode -> nat, h: nat, e: Entry) {
    1 <= e.val <= |nodes| && nodes[e.val - 1] == e.node && hash(e.node) % MODULUS == h
  }

  ghost predicate ChainOk(nodes: seq<VNode>, hash: VNode -> nat, h: nat, chain: seq<Entry>) {
    forall k {:trigger chain[k]} :: 0 <= k < |chain| ==> EntryOk(nodes, hash, h, chain[k])
  }

  ghost predicate Filed(nodes: seq<VNode>, hash: VNode -> nat, tbl: seq<seq<Entry>>, i: nat)
    requires i < |nodes| && |tbl| == MODULUS
  {
    exists k {:trigger tbl[hash(nodes[i]) % MODULUS][k]} ::
      0 <= k < |tbl[hash(nodes[i]) % MODULUS]| && tbl[hash(nodes[i]) % MODULUS][k] == Entry(nodes[i], i + 1)
  }

  ghost predicate Distinct(nodes: seq<VNode>) {
    forall i, j {:trigger nodes[i], nodes[j]} :: 0 <= i < j < |nodes| ==> nodes[i] != nodes[j]
  }

  class ValTable {
    const hash: VNode -> nat
    const maxval: nat
    var hashtbl: seq<seq<Entry>>
    var curval: nat
    var vmap: seq<Option<Word>>
    ghost var nodes: seq<VNode>

    constructor (hash: VNode -> nat, maxval: nat)
      requires maxval > 0
      ensures this.hash == hash && this.maxval == maxval && Valid() && nodes == []
    {
      this.hash, this.maxval := hash, maxval;
      hashtbl, curval, vmap, nodes := seq(MODULUS, i => []), 0, seq(maxval, i => None), [];
    }

    ghost predicate Valid()
      reads this
    {
      && |hashtbl| == MODULUS && |vmap| == maxval && curval == |nodes| < maxval
      && (forall h {:trigger hashtbl[h]} :: 0 <= h < MODULUS ==> ChainOk(nodes, hash, h, hashtbl[h]))
      && (forall i {:trigger Filed(nodes, hash, hashtbl, i)} :: 0 <= i < |nodes| ==> Filed(nodes, hash, hashtbl, i))
      && Distinct(nodes)
      && (forall i {:trigger nodes[i]} :: 0 <= i < |nodes| ==> ArgsBelow(nodes[i], i + 1))
      && (forall v {:trigger vmap[v]} :: 0 <= v < maxval ==>
            vmap[v] == if 1 <= v <= |nodes| then Constant(nodes[v - 1]) else None)
    }

    /** The number of an expression, a new one if it has none yet. */
    method F(n: VNode) returns (val: nat)
      requires Valid() && curval + 1 < maxval && ArgsBelow(n, curval + 1)
      modifies this
      ensures Valid() && Grows(old(nodes), nodes) && |nodes| <= |old(nodes)| + 1
      ensures 1 <= val <= |nodes| && nodes[val - 1] == n
    {
      var h := hash(n) % MODULUS;
      var chain := hashtbl[h];
      var k := 0;
      while k < |chain|
        invariant 0 <= k <= |chain|
        invariant forall j :: 0 <= j < k ==> chain[j].node != n
      {
        if chain[k].node == n {
          assert EntryOk(nodes, hash, h, chain[k]);
          return chain[k].val;
        }
        k := k + 1;
      }
      forall i | 0 <= i < |nodes| ensures nodes[i] != n {
        assert Filed(nodes, hash, hashtbl, i);
      }
      val := Enter(n, h);
    }

    /** Files a new expression at the front of its chain. */
    method Enter(n: VNode, h: nat) returns (val: nat)
      requires Valid() && curval + 1 < maxval && ArgsBelow(n, curval + 1) && h == hash(n) % MODULUS
      requires forall i {:trigger nodes[i]} :: 0 <= i < |nodes| ==> nodes[i] != n
      modifies this
      ensures Valid() && Grows(old(nodes), nodes) && |nodes| == |old(nodes)| + 1
      ensures val == |nodes| && nodes[val - 1] == n
    {
      curval := curval + 1;
      val := curval;
      nodes := nodes + [n];
      if n.code.LdImm? {
        vmap := vmap[val := Some(n.v0)];
      }
      hashtbl := hashtbl[h := [Entry(n, val)] + hashtbl[h]];
      EnterTable(old(nodes), nodes, old(hashtbl), hashtbl, hash, n, h);
    }
  }

  lemma EnterTable(nodes: seq<VNode>, nodes': seq<VNode>, tbl: seq<seq<Entry>>, tbl': seq<seq<Entry>>,
                   hash: VNode -> nat, n: VNode, h: nat)
    requires nodes' == nodes + [n] && |tbl| == MODULUS && h == hash(n) % MODULUS
    requires tbl' == tbl[h := [Entry(n, |nodes|  + 1)] + tbl[h]]
    requires forall x {:trigger tbl[x]} :: 0 <= x < MODULUS ==> ChainOk(nodes, hash, x, tbl[x])
    requires forall i {:trigger Filed(nodes, hash, tbl, i)} :: 0 <= i < |nodes| ==> Filed(nodes, hash, tbl, i)
    ensures forall x {:trigger tbl'[x]} :: 0 <= x < MODULUS ==> ChainOk(nodes', hash, x, tbl'[x])
    ensures forall i {:trigger Filed(nodes', hash, tbl', i)} :: 0 <= i < |nodes'| ==> Filed(nodes', hash, tbl', i)
  {
    forall x | 0 <= x < MODULUS ensures ChainOk(nodes', hash, x, tbl'[x]) {
      assert ChainOk(nodes, hash, x, tbl[x]);
      forall k | 0 <= k < |tbl'[x]| ensures EntryOk(nodes', hash, x, tbl'[x][k]) {
        if x == h && k > 0 {
          assert tbl'[x][k] == tbl[x][k - 1];
        }
      }
    }
    forall i | 0 <= i < |nodes'| ensures Filed(nodes', hash, tbl', i) {
      if i < |nodes| {
        assert Filed(nodes, hash, tbl, i);
        var c := hash(nodes[i]) % MODULUS;
        var k :| 0 <= k < |tbl[c]| && tbl[c][k] == Entry(nodes[i], i + 1);
        assert nodes'[i] == nodes[i];
        assert tbl'[c][if c == h then k + 1 else k] == Entry(nodes[i], i + 1);
      } else {
        assert tbl'[h][0] == Entry(n, i + 1);
      }
    }
  }

  /** Equal numbers are given exactly to equal expressions. */
  lemma SameNumber(t: ValTable, v: nat, w: nat)
    requires t.Valid() && 1 <= v <= |t.nodes| && 1 <= w <= |t.nodes|
    ensures v == w <==> t.nodes[v - 1] == t.nodes[w - 1]
  {
  }
}
