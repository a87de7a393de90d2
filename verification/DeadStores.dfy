/** Dead-store removal: a write that is overwritten before it is read, or not wanted on
    exit from its block, is deleted. */
module DeadStores {
  import opened Bpf
  import opened Flow
  import opened Layout
  import opened Levels
  import opened PathFacts
  import opened Atoms
  import opened Liveness

  /** States that differ at most in the atoms of `Z`. */
  ghost predicate Except(Z: set<nat>, st: Store, st': Store) {
    forall a {:trigger st[a]} {:trigger st'[a]} :: 0 <= a < N_ATOMS && a !in Z ==> st[a] == st'[a]
  }

  predicate Untouched(s: Stmt, a: nat) {
    a !in Uses(s) && a !in DefSet(s)
  }

  /** A statement that neither reads nor writes `a` does not notice it. */
  lemma UntouchedStep(s: Stmt, a: nat, st: Store, st': Store, p: Packet)
    requires Untouched(s, a) && Except({a}, st, st') && Exec(s, st, p).Some?
    ensures Exec(s, st', p).Some? && Except({a}, Exec(s, st, p).value, Exec(s, st', p).value)
  {
    UsesOnly(s, st, st', p);
    forall b | 0 <= b < N_ATOMS && b !in {a} ensures Exec(s, st, p).value[b] == Exec(s, st', p).value[b] {
      if b !in DefSet(s) {
        OnlyDefines(s, st, p, b);
        OnlyDefines(s, st', p, b);
      }
    }
  }

  /** A statement that writes `a` without reading it makes up for the difference. */
  lemma OverwriteStep(s: Stmt, a: nat, st: Store, st': Store, p: Packet)
    requires a !in Uses(s) && DefSet(s) == {a} && Except({a}, st, st') && Exec(s, st, p).Some?
    ensures Exec(s, st', p) == Exec(s, st, p)
  {
    UsesOnly(s, st, st', p);
    var s1, s2 := Exec(s, st, p).value, Exec(s, st', p).value;
    forall b | 0 <= b < N_ATOMS ensures s1[b] == s2[b] {
      if b != a {
        OnlyDefines(s, st, p, b);
        OnlyDefines(s, st', p, b);
      }
    }
    assert s1 == s2;
  }

  function Dropped(c: seq<Stmt>, j: nat): seq<Stmt>
    requires j < |c|
  {
    c[j := c[j].(code := Nop)]
  }

  /** The last write to `a` in the list, not read since, is statement `j`. */
  ghost predicate LastWrite(c: seq<Stmt>, k: nat, a: nat, j: int)
    requires k <= |c|
  {
    j >= 0 ==>
      && j < k && DefSet(c[j]) == {a}
      && forall i {:trigger c[i]} :: j < i < k ==> Untouched(c[i], a)
  }

  /** Deleting it changes nothing but `a`. */
  lemma {:induction false} DropPrefix(c: seq<Stmt>, k: nat, a: nat, j: nat, st: Store, p: Packet)
    requires k <= |c| && a < N_ATOMS && LastWrite(c, k, a, j) && ExecList(c[..k], st, p).Some?
    ensures ExecList(Dropped(c, j)[..k], st, p).Some?
    ensures Except({a}, ExecList(c[..k], st, p).value, ExecList(Dropped(c, j)[..k], st, p).value)
    decreases k
  {
    var c' := Dropped(c, j);
    Snoc(c, k - 1);
    Snoc(c', k - 1);
    ExecSnoc(c[..k - 1], c[k - 1], st, p);
    ExecSnoc(c'[..k - 1], c'[k - 1], st, p);
    if k - 1 == j {
      assert c'[..j] == c[..j];
      var st0 := ExecList(c[..j], st, p).value;
      forall b | 0 <= b < N_ATOMS && b !in {a} ensures Exec(c[j], st0, p).value[b] == st0[b] {
        OnlyDefines(c[j], st0, p, b);
      }
    } else {
      assert LastWrite(c, k - 1, a, j);
      DropPrefix(c, k - 1, a, j, st, p);
      assert c'[k - 1] == c[k - 1] && Untouched(c[k - 1], a);
      UntouchedStep(c[k - 1], a, ExecList(c[..k - 1], st, p).value, ExecList(c'[..k - 1], st, p).value, p);
    }
  }

  /** So far the list runs as the original does, whenever that does not abort. */
  ghost predicate RunsAs(ss: seq<Stmt>, c: seq<Stmt>, k: nat, Z: set<nat>) {
    && |c| == |ss| && k <= |ss|
    && forall st, p {:trigger RunsAsAt(ss, c, k, Z, st, p)} :: RunsAsAt(ss, c, k, Z, st, p)
  }

  ghost predicate RunsAsAt(ss: seq<Stmt>, c: seq<Stmt>, k: nat, Z: set<nat>, st: Store, p: Packet)
    requires k <= |ss| == |c|
  {
    ExecList(ss[..k], st, p).Some? ==>
      ExecList(c[..k], st, p).Some? && Except(Z, ExecList(ss[..k], st, p).value, ExecList(c[..k], st, p).value)
  }

  /** The statement at `k` writes `a` and its last write, at `j`, has not been read. */
  lemma DropOverwritten(ss: seq<Stmt>, c: seq<Stmt>, k: nat, a: nat, j: nat)
    requires k < |ss| && RunsAs(ss, c, k, {}) && c[k] == ss[k] && a < N_ATOMS
    requires LastWrite(c, k, a, j) && a !in Uses(c[k]) && DefSet(c[k]) == {a}
    ensures RunsAs(ss, Dropped(c, j), k + 1, {})
  {
    var c', n := Dropped(c, j), k + 1;
    forall st, p ensures RunsAsAt(ss, c', n, {}, st, p) {
      Snoc(ss, k);
      Snoc(c', k);
      ExecSnoc(ss[..k], ss[k], st, p);
      ExecSnoc(c'[..k], c'[k], st, p);
      if ExecList(ss[..k + 1], st, p).Some? {
        assert RunsAsAt(ss, c, k, {}, st, p);
        DropPrefix(c, k, a, j, st, p);
        OverwriteStep(c[k], a, ExecList(ss[..k], st, p).value, ExecList(c'[..k], st, p).value, p);
      }
    }
  }

  lemma KeepStep(ss: seq<Stmt>, c: seq<Stmt>, k: nat)
    requires k < |ss| && RunsAs(ss, c, k, {}) && c[k] == ss[k]
    ensures RunsAs(ss, c, k + 1, {})
  {
    var n := k + 1;
    forall st, p ensures RunsAsAt(ss, c, n, {}, st, p) {
      Snoc(ss, k);
      Snoc(c, k);
      ExecSnoc(ss[..k], ss[k], st, p);
      ExecSnoc(c[..k], c[k], st, p);
      if ExecList(ss[..k + 1], st, p).Some? {
        assert RunsAsAt(ss, c, k, {}, st, p);
        assert ExecList(ss[..k], st, p).value == ExecList(c[..k], st, p).value;
      }
    }
  }

  /** Deleting an unread last write at the end gives up one atom. */
  lemma DropUnwanted(ss: seq<Stmt>, c: seq<Stmt>, Z: set<nat>, a: nat, j: nat)
    requires RunsAs(ss, c, |ss|, Z) && a < N_ATOMS && LastWrite(c, |c|, a, j)
    ensures RunsAs(ss, Dropped(c, j), |ss|, Z + {a})
  {
    var c' := Dropped(c, j);
    forall st, p ensures RunsAsAt(ss, c', |ss|, Z + {a}, st, p) {
      if ExecList(ss[..|ss|], st, p).Some? {
        assert RunsAsAt(ss, c, |ss|, Z, st, p);
        DropPrefix(c, |c|, a, j, st, p);
      }
    }
  }

  // ----- the pass over one block

  type LastTable = t: seq<int> | |t| == N_ATOMS witness seq(N_ATOMS, i => -1)

  ghost predicate TableOk(c: seq<Stmt>, k: nat, last: LastTable)
    requires k <= |c|
  {
    forall a {:trigger last[a]} :: 0 <= a < N_ATOMS ==> LastWrite(c, k, a, last[a])
  }

  /** Reads clear the table entries of the atoms read. */
  function Cleared(last: LastTable, s: Stmt): LastTable {
    seq(N_ATOMS, a requires 0 <= a < N_ATOMS => if a in Uses(s) then -1 else last[a])
  }

  lemma TableStep(c: seq<Stmt>, k: nat, last: LastTable, c': seq<Stmt>, last': LastTable)
    requires k < |c| == |c'| && TableOk(c, k, last) && c'[k] == c[k]
    requires
      match Defs(c[k])
      case None => c' == c && last' == Cleared(last, c[k])
      case Some(d) =>
        && d < N_ATOMS && last' == Cleared(last, c[k])[d := k]
        && c' == (if Cleared(last, c[k])[d] >= 0 then Dropped(c, last[d]) else c)
    ensures TableOk(c', k + 1, last')
  {
    forall a | 0 <= a < N_ATOMS ensures LastWrite(c', k + 1, a, last'[a]) {
      assert LastWrite(c, k, a, last[a]);
      if Defs(c[k]).Some? {
        assert LastWrite(c, k, Defs(c[k]).value, last[Defs(c[k]).value]);
      }
      if last'[a] >= 0 && last'[a] != k {
        forall i | last'[a] < i < k + 1 ensures Untouched(c'[i], a) {
          assert i < k ==> Untouched(c[i], a);
        }
      }
    }
  }

  lemma TableDrop(c: seq<Stmt>, last: LastTable, a: nat)
    requires TableOk(c, |c|, last) && a < N_ATOMS && 0 <= last[a] < |c|
    ensures TableOk(Dropped(c, last[a]), |c|, last[a := -1])
  {
    var c', last' := Dropped(c, last[a]), last[a := -1];
    assert LastWrite(c, |c|, a, last[a]);
    forall b | 0 <= b < N_ATOMS ensures LastWrite(c', |c'|, b, last'[b]) {
      assert LastWrite(c, |c|, b, last[b]);
    }
  }

  // ----- exactly what is deleted

  /** What happens first to an atom among statements `i` to `k`. */
  datatype Fate = Read | Overwritten | Left

  function FateOf(ss: seq<Stmt>, a: nat, i: nat, k: nat): Fate
    requires k <= |ss|
    decreases k - i
  {
    if i >= k then Left
    else if a in Uses(ss[i]) then Read
    else if a in DefSet(ss[i]) then Overwritten
    else FateOf(ss, a, i + 1, k)
  }

  lemma {:induction false} FateMore(ss: seq<Stmt>, a: nat, i: nat, k: nat)
    requires i <= k < |ss|
    ensures FateOf(ss, a, i, k + 1) ==
      if FateOf(ss, a, i, k) != Left then FateOf(ss, a, i, k)
      else if a in Uses(ss[k]) then Read else if a in DefSet(ss[k]) then Overwritten else Left
    decreases k - i
  {
    if i < k && a !in Uses(ss[i]) && a !in DefSet(ss[i]) {
      FateMore(ss, a, i + 1, k);
    }
  }

  /** The statement is deleted exactly if the atom it writes is overwritten unread. */
  ghost predicate SoFar(ss: seq<Stmt>, c: seq<Stmt>, k: nat, j: nat)
    requires j < |ss| == |c| && k <= |ss|
  {
    c[j] == if Defs(ss[j]).Some? && j < k && FateOf(ss, Defs(ss[j]).value, j + 1, k) == Overwritten
            then ss[j].(code := Nop) else ss[j]
  }

  /** The table holds the last write of the atom, if nothing has happened to it since. */
  ghost predicate LastIs(ss: seq<Stmt>, k: nat, a: nat, last: int, j: nat)
    requires k <= |ss| && j < |ss|
  {
    last == j <==> j < k && Defs(ss[j]) == Some(a) && FateOf(ss, a, j + 1, k) == Left
  }

  ghost predicate Tracked(ss: seq<Stmt>, c: seq<Stmt>, k: nat, last: LastTable) {
    && |c| == |ss| && k <= |ss|
    && (forall j {:trigger SoFar(ss, c, k, j)} :: 0 <= j < |ss| ==> SoFar(ss, c, k, j))
    && (forall a, j {:trigger LastIs(ss, k, a, last[a], j)} ::
      0 <= a < N_ATOMS && 0 <= j < |ss| ==> LastIs(ss, k, a, last[a], j))
  }

  lemma TrackStep(ss: seq<Stmt>, c: seq<Stmt>, k: nat, last: LastTable, c': seq<Stmt>, last': LastTable)
    requires k < |ss| && Tracked(ss, c, k, last) && |c'| == |ss| && Plain(ss[k]) && TableOk(c, k, last)
    requires
      match Defs(ss[k])
      case None => c' == c && last' == Cleared(last, ss[k])
      case Some(d) =>
        && d < N_ATOMS && last' == Cleared(last, ss[k])[d := k]
        && c' == (if Cleared(last, ss[k])[d] >= 0 then Dropped(c, last[d]) else c)
    ensures Tracked(ss, c', k + 1, last')
  {
    var n := k + 1;
    forall j | 0 <= j < |ss| ensures SoFar(ss, c', n, j) {
      SoFarStep(ss, c, k, last, c', j);
    }
    forall a, j | 0 <= a < N_ATOMS && 0 <= j < |ss| ensures LastIs(ss, n, a, last'[a], j) {
      assert LastIs(ss, k, a, last[a], j);
      if j < k {
        FateMore(ss, a, j + 1, k);
      }
    }
  }

  lemma SoFarStep(ss: seq<Stmt>, c: seq<Stmt>, k: nat, last: LastTable, c': seq<Stmt>, j: nat)
    requires k < |ss| && Tracked(ss, c, k, last) && |c'| == |ss| && j < |ss| && TableOk(c, k, last)
    requires
      match Defs(ss[k])
      case None => c' == c
      case Some(d) => d < N_ATOMS && c' == (if Cleared(last, ss[k])[d] >= 0 then Dropped(c, last[d]) else c)
    ensures SoFar(ss, c', k + 1, j)
  {
    assert SoFar(ss, c, k, j);
    if Defs(ss[k]).Some? {
      var d := Defs(ss[k]).value;
      assert LastWrite(c, k, d, last[d]);
      if last[d] >= 0 {
        assert LastIs(ss, k, d, last[d], last[d]);
        assert SoFar(ss, c, k, last[d]);
      }
    }
    if Defs(ss[j]).Some? && j < k {
      var a := Defs(ss[j]).value;
      FateMore(ss, a, j + 1, k);
      if a < N_ATOMS {
        assert LastIs(ss, k, a, last[a], j);
      }
    }
  }

  /** Deletes writes that are overwritten unread, remembering the last one of each atom. */
  method DropOverwrites(ss: seq<Stmt>) returns (c: seq<Stmt>, last: LastTable)
    requires forall k :: 0 <= k < |ss| ==> Plain(ss[k])
    ensures Thinned(ss, c) && RunsAs(ss, c, |ss|, {}) && TableOk(c, |c|, last) && Tracked(ss, c, |ss|, last)
  {
    c, last := ss, seq(N_ATOMS, a => -1);
    var k := 0;
    assert forall j :: 0 <= j < |ss| ==> SoFar(ss, c, 0, j);
    while k < |ss|
      invariant 0 <= k <= |ss| && Thinned(ss, c) && (forall i :: k <= i < |ss| ==> c[i] == ss[i])
      invariant RunsAs(ss, c, k, {}) && TableOk(c, k, last) && Tracked(ss, c, k, last)
    {
      ghost var c0, last0 := c, last;
      last := Cleared(last, c[k]);
      if Defs(c[k]).Some? {
        var d := Defs(c[k]).value;
        assert LastWrite(c, k, d, last0[d]);
        if last[d] >= 0 {
          DropOverwritten(ss, c, k, d, last[d]);
          c := Dropped(c, last[d]);
        } else {
          KeepStep(ss, c, k);
        }
        last := last[d := k];
      } else {
        KeepStep(ss, c, k);
      }
      TableStep(c0, k, last0, c, last);
      TrackStep(ss, c0, k, last0, c, last);
      k := k + 1;
    }
  }

  /** Only deletions have been made. */
  ghost predicate Thinned(ss: seq<Stmt>, c: seq<Stmt>) {
    |c| == |ss| && forall i {:trigger c[i]} :: 0 <= i < |c| ==> c[i] == ss[i] || c[i] == ss[i].(code := Nop)
  }

  /** A write is dead if it is overwritten unread, or left unread by the whole block and
      its branch and not wanted on exit. */
  predicate Dead(ss: seq<Stmt>, branch: Stmt, outUse: set<nat>, j: nat)
    requires j < |ss|
  {
    Defs(ss[j]).Some? &&
    var a := Defs(ss[j]).value;
    match FateOf(ss, a, j + 1, |ss|)
    case Read => false
    case Overwritten => true
    case Left => a !in Uses(branch) && a !in outUse
  }

  /** Of the writes left, those to atoms below `n` have been dealt with. */
  ghost predicate DealtWith(ss: seq<Stmt>, c: seq<Stmt>, branch: Stmt, outUse: set<nat>, n: nat, j: nat)
    requires j < |ss| == |c|
  {
    c[j] == if Dead(ss, branch, outUse, j) &&
      (FateOf(ss, Defs(ss[j]).value, j + 1, |ss|) == Overwritten || Defs(ss[j]).value < n)
            then ss[j].(code := Nop) else ss[j]
  }

  lemma DealStep(ss: seq<Stmt>, c: seq<Stmt>, c': seq<Stmt>, branch: Stmt, outUse: set<nat>, last0: LastTable, n: nat,
                 j: nat)
    requires j < |ss| == |c| == |c'| && n < N_ATOMS && DealtWith(ss, c, branch, outUse, n, j)
    requires LastIs(ss, |ss|, n, last0[n], j) && last0[n] < |ss|
    requires last0[n] >= 0 ==> DealtWith(ss, c, branch, outUse, n, last0[n]) && LastIs(ss, |ss|, n, last0[n], last0[n])
    requires c' == (if n !in Uses(branch) && last0[n] >= 0 && n !in outUse then Dropped(c, last0[n]) else c)
    ensures DealtWith(ss, c', branch, outUse, n + 1, j)
  {
  }

  /** The atoms given up are neither wanted outside nor read by the branch. */
  method DropUnwantedWrites(ss: seq<Stmt>, c0: seq<Stmt>, last0: LastTable, branch: Stmt, outUse: set<nat>)
    returns (c: seq<Stmt>, ghost Z: set<nat>)
    requires Thinned(ss, c0) && RunsAs(ss, c0, |ss|, {}) && TableOk(c0, |c0|, last0) && Tracked(ss, c0, |ss|, last0)
    requires forall k :: 0 <= k < |ss| ==> Plain(ss[k])
    ensures Thinned(ss, c) && RunsAs(ss, c, |ss|, Z) && Z !! outUse && forall a :: a in Z ==> a !in Uses(branch)
    ensures forall j :: 0 <= j < |ss| ==> c[j] == if Dead(ss, branch, outUse, j) then ss[j].(code := Nop) else ss[j]
  {
    c, Z := c0, {};
    var last, a := Cleared(last0, branch), 0;
    TableCleared(c, last0, branch);
    forall j | 0 <= j < |ss| ensures DealtWith(ss, c, branch, outUse, 0, j) {
      assert SoFar(ss, c0, |ss|, j);
    }
    while a < N_ATOMS
      invariant 0 <= a <= N_ATOMS && Thinned(ss, c) && RunsAs(ss, c, |ss|, Z) && TableOk(c, |c|, last)
      invariant forall b :: a <= b < N_ATOMS ==> last[b] == Cleared(last0, branch)[b]
      invariant Z !! outUse && forall b :: b in Z ==> b !in Uses(branch)
      invariant forall j {:trigger DealtWith(ss, c, branch, outUse, a, j)} ::
        0 <= j < |ss| ==> DealtWith(ss, c, branch, outUse, a, j)
    {
      ghost var c1, n := c, a;
      assert LastWrite(c0, |c0|, a, last0[a]) && last[a] == Cleared(last0, branch)[a];
      if last[a] >= 0 && a !in outUse {
        assert LastWrite(c, |c|, a, last[a]);
        DropUnwanted(ss, c, Z, a, last[a]);
        TableDrop(c, last, a);
        c, last, Z := Dropped(c, last[a]), last[a := -1], Z + {a};
      }
      a := a + 1;
      DealAll(ss, c1, c, branch, outUse, c0, last0, n, a);
    }
    forall j | 0 <= j < |ss| ensures c[j] == if Dead(ss, branch, outUse, j) then ss[j].(code := Nop) else ss[j] {
      assert DealtWith(ss, c, branch, outUse, a, j) && Plain(ss[j]);
    }
  }

  lemma DealAll(ss: seq<Stmt>, c: seq<Stmt>, c': seq<Stmt>, branch: Stmt, outUse: set<nat>, c0: seq<Stmt>,
                last0: LastTable, n: nat, m: nat)
    requires |ss| == |c| == |c'| && n < N_ATOMS && m == n + 1 && Tracked(ss, c0, |ss|, last0) && last0[n] < |ss|
    requires forall j {:trigger DealtWith(ss, c, branch, outUse, n, j)} ::
      0 <= j < |ss| ==> DealtWith(ss, c, branch, outUse, n, j)
    requires c' == (if n !in Uses(branch) && last0[n] >= 0 && n !in outUse then Dropped(c, last0[n]) else c)
    ensures forall j {:trigger DealtWith(ss, c', branch, outUse, m, j)} ::
      0 <= j < |ss| ==> DealtWith(ss, c', branch, outUse, m, j)
  {
    forall j | 0 <= j < |ss| ensures DealtWith(ss, c', branch, outUse, m, j) {
      assert DealtWith(ss, c, branch, outUse, n, j) && LastIs(ss, |ss|, n, last0[n], j);
      if last0[n] >= 0 {
        assert DealtWith(ss, c, branch, outUse, n, last0[n]) && LastIs(ss, |ss|, n, last0[n], last0[n]);
      }
      DealStep(ss, c, c', branch, outUse, last0, n, j);
    }
  }

  lemma TableCleared(c: seq<Stmt>, last: LastTable, s: Stmt)
    requires TableOk(c, |c|, last)
    ensures TableOk(c, |c|, Cleared(last, s))
  {
    forall a | 0 <= a < N_ATOMS ensures LastWrite(c, |c|, a, Cleared(last, s)[a]) {
      assert LastWrite(c, |c|, a, last[a]);
    }
  }

  /** What a list and its thinned form have in common. */
  ghost predicate SameFor(ss: seq<Stmt>, c: seq<Stmt>, D: set<nat>, st: Store, p: Packet) {
    ExecList(ss, st, p).Some? ==>
      ExecList(c, st, p).Some? && AgreeOn(D, ExecList(ss, st, p).value, ExecList(c, st, p).value)
  }

  /** Goes through the statements and then the branch, remembering unread last writes;
      those not wanted on exit go too. */
  method OptDeadstores(ss: seq<Stmt>, branch: Stmt, outUse: set<nat>) returns (c: seq<Stmt>)
    requires forall k :: 0 <= k < |ss| ==> Plain(ss[k])
    ensures |c| == |ss| && Thinned(ss, c)
    ensures forall j :: 0 <= j < |ss| ==> c[j] == if Dead(ss, branch, outUse, j) then ss[j].(code := Nop) else ss[j]
    ensures forall st, p {:trigger SameFor(ss, c, outUse + Uses(branch), st, p)} ::
      SameFor(ss, c, outUse + Uses(branch), st, p)
  {
    var last;
    c, last := DropOverwrites(ss);
    ghost var Z;
    c, Z := DropUnwantedWrites(ss, c, last, branch, outUse);
    forall st, p ensures SameFor(ss, c, outUse + Uses(branch), st, p) {
      assert ss[..|ss|] == ss && c[..|ss|] == c;
      assert RunsAsAt(ss, c, |ss|, Z, st, p);
    }
  }

  // ----- the pass over the graph

  /** The block with some of its writes deleted. */
  ghost predicate BlockThinned(n: Node, n': Node, outUse: set<nat>) {
    && n' == n.(stmts := n'.stmts) && Thinned(n.stmts, n'.stmts)
    && (forall j {:trigger n'.stmts[j]} :: 0 <= j < |n.stmts| ==>
          n'.stmts[j] == if Dead(n.stmts, n.s, outUse, j) then n.stmts[j].(code := Nop) else n.stmts[j])
    && forall st, p {:trigger SameFor(n.stmts, n'.stmts, outUse + Uses(n.s), st, p)} ::
         SameFor(n.stmts, n'.stmts, outUse + Uses(n.s), st, p)
  }

  ghost predicate ThinnedAt(g: Graph, g': Graph, rank: Rank, b: nat)
  {
    WellFormed(g, rank) && b in rank && b < |g| == |g'| && BlockThinned(g[b], g'[b], LiveOut(g, rank, b))
  }

  /** The blocks of `S` have been gone through, the others are as they were. */
  ghost predicate GraphThinned(g: Graph, g': Graph, rank: Rank, S: set<nat>) {
    && WellFormed(g, rank) && |g'| == |g|
    && (forall b {:trigger g'[b]} :: 0 <= b < |g| && b !in S ==> g'[b] == g[b])
    && (forall b {:trigger ThinnedAt(g, g', rank, b)} :: b in S ==> ThinnedAt(g, g', rank, b))
  }

  lemma ThinnedWf(g: Graph, g': Graph, rank: Rank, S: set<nat>)
    requires GraphThinned(g, g', rank, S)
    ensures WellFormed(g', rank)
  {
    forall b | 0 <= b < |g'| && b in rank ensures NodeOk(g', rank, b) {
      assert NodeOk(g, rank, b);
      assert b in S ==> ThinnedAt(g, g', rank, b);
    }
  }

  lemma NoChange(n: Node, outUse: set<nat>)
    ensures forall st, p {:trigger SameFor(n.stmts, n.stmts, outUse + Uses(n.s), st, p)} ::
      SameFor(n.stmts, n.stmts, outUse + Uses(n.s), st, p)
  {
  }

  /** From states that agree on what is wanted, a run of the old graph that does not
      abort has the verdict of the new one. */
  lemma {:induction false} ThinnedVerdict(g: Graph, g': Graph, rank: Rank, S: set<nat>, b: int, st: Store, st': Store,
                                          p: Packet)
    requires GraphThinned(g, g', rank, S) && WellFormed(g', rank) && b in rank && b >= 0
    requires AgreeOn(LiveIn(g, rank, b), st, st') && Run(g, rank, b, st, p).Some?
    ensures Run(g', rank, b, st', p) == Run(g, rank, b, st, p)
    decreases rank[b]
  {
    assert NodeOk(g, rank, b) && NodeOk(g', rank, b);
    var n, n', D, out := g[b], g'[b], LiveIn(g, rank, b), LiveOut(g, rank, b);
    NoChange(n, out);
    assert b in S ==> ThinnedAt(g, g', rank, b);
    ListAgree(n.stmts, D, st, st', p);
    assert SameFor(n.stmts, n'.stmts, out + Uses(n.s), st', p);
    if !n.Leaf() {
      var s1, s2 := ExecList(n.stmts, st, p).value, ExecList(n.stmts, st', p).value;
      var s3 := ExecList(n'.stmts, st', p).value;
      AgreeTrans(D + DefsOf(n.stmts), out + Uses(n.s), s1, s2, s3);
      BranchAgree(n.s, out + Uses(n.s), s1, s3);
      var c := if Holds(n.s, s1) then n.jt else n.jf;
      assert LiveIn(g, rank, c) <= out;
      ThinnedVerdict(g, g', rank, S, c, s1, s3, p);
    }
  }

  lemma AgreeTrans(D: set<nat>, E: set<nat>, s1: seq<Word>, s2: seq<Word>, s3: seq<Word>)
    requires |s1| == |s2| == |s3| == N_ATOMS && E <= D
    requires forall a :: a in D && a < N_ATOMS ==> s1[a] == s2[a]
    requires forall a :: a in E && a < N_ATOMS ==> s2[a] == s3[a]
    ensures forall a {:trigger s1[a]} {:trigger s3[a]} :: a in E && 0 <= a < N_ATOMS ==> s1[a] == s3[a]
  {
  }

  class DeadStorePass {
    ghost const rank: Rank
    const level: seq<nat>
    const levels: Rows
    const outUse: seq<set<nat>>
    var g: Graph

    constructor (g: Graph, ghost rank: Rank, level: seq<nat>, levels: Rows, outUse: seq<set<nat>>)
      ensures this.g == g && this.rank == rank && this.level == level && this.levels == levels && this.outUse == outUse
    {
      this.g, this.rank, this.level, this.levels, this.outUse := g, rank, level, levels, outUse;
    }

    method ThinBlock(b: nat, ghost g0: Graph, ghost S: set<nat>)
      requires GraphThinned(g0, g, rank, S) && b < |g| && b in rank && b !in S && b < |outUse|
      requires outUse[b] == LiveOut(g0, rank, b)
      modifies this`g
      ensures GraphThinned(g0, g, rank, S + {b})
    {
      assert NodeOk(g0, rank, b);
      var c := OptDeadstores(g[b].stmts, g[b].s, outUse[b]);
      ghost var g1 := g;
      g := g[b := g[b].(stmts := c)];
      forall x | x in S + {b} ensures ThinnedAt(g0, g, rank, x) {
        if x != b {
          assert ThinnedAt(g0, g1, rank, x);
        }
      }
    }

    /** Every reachable block, from the root's level down, given what is wanted on exit
        from each in the graph as it was. */
    method OptAll(root: nat)
      requires LevelsOf(g, rank, root, level, levels) && |outUse| == |g|
      requires forall b :: b in Reach(g, rank, root) && b in rank && b < |g| ==> outUse[b] == LiveOut(g, rank, b)
      modifies this`g
      ensures GraphThinned(old(g), g, rank, Reach(old(g), rank, root))
    {
      ghost var g0, S: set<nat> := g, {};
      SweepStart(g, rank, root, level, levels);
      var i := level[root] + 1;
      while i > 0
        invariant 0 <= i <= |levels| && GraphThinned(g0, g, rank, S)
        invariant i > 0 ==> Swept(g0, rank, root, levels, S, i - 1, 0)
        invariant i == 0 ==> S == Reach(g0, rank, root)
      {
        i := i - 1;
        S := OptLevel(root, i, g0, S);
        RowDone(g0, rank, root, level, levels, S, i);
      }
    }

    method OptLevel(root: nat, i: nat, ghost g0: Graph, ghost S0: set<nat>) returns (ghost S: set<nat>)
      requires LevelsOf(g0, rank, root, level, levels) && |outUse| == |g0|
      requires forall b :: b in Reach(g0, rank, root) && b in rank && b < |g0| ==> outUse[b] == LiveOut(g0, rank, b)
      requires i < |levels| && Swept(g0, rank, root, levels, S0, i, 0) && GraphThinned(g0, g, rank, S0)
      modifies this`g
      ensures Swept(g0, rank, root, levels, S, i, |levels[i]|) && GraphThinned(g0, g, rank, S)
    {
      S := S0;
      var k := 0;
      while k < |levels[i]|
        invariant k <= |levels[i]| && Swept(g0, rank, root, levels, S, i, k) && GraphThinned(g0, g, rank, S)
      {
        var b := levels[i][k];
        SweepStep(g0, rank, root, level, levels, S, i, k);
        ThinBlock(b, g0, S);
        S := S + {b};
        k := k + 1;
      }
    }
  }

  /** The pass keeps the verdict of every run that does not abort. */
  lemma DeadStoresVerdict(g: Graph, g': Graph, rank: Rank, root: nat, st: Store, p: Packet)
    requires WellFormed(g, rank) && root in rank && GraphThinned(g, g', rank, Reach(g, rank, root))
    requires Run(g, rank, root, st, p).Some?
    ensures WellFormed(g', rank) && Run(g', rank, root, st, p) == Run(g, rank, root, st, p)
  {
    ThinnedWf(g, g', rank, Reach(g, rank, root));
    ThinnedVerdict(g, g', rank, Reach(g, rank, root), root, st, st, p);
  }
}
