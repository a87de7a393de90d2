/** The peephole changes to one block: short runs of statements become cheaper ones, and the
    last operation is merged into the test. */
module Peephole {
  import opened Bpf
  import opened Flow
  import opened Atoms
  import opened Runs
  import opened Liveness
  import opened Masks

  // ----- lists with deleted statements

  /** The first statement from `i` on that has not been deleted. */
  function Next(ss: seq<Stmt>, i: nat): (j: nat)
    requires i <= |ss|
    ensures i <= j <= |ss| && (j < |ss| ==> !ss[j].code.Nop?)
    ensures forall k {:trigger ss[k]} :: i <= k < j ==> ss[k].code.Nop?
    decreases |ss| - i
  {
    if i == |ss| || !ss[i].code.Nop? then i else Next(ss, i + 1)
  }

  lemma {:induction false} NextIs(ss: seq<Stmt>, i: nat, j: nat)
    requires i <= j < |ss| && !ss[j].code.Nop? && forall k {:trigger ss[k]} :: i <= k < j ==> ss[k].code.Nop?
    ensures Next(ss, i) == j
    decreases j - i
  {
    if i < j {
      NextIs(ss, i + 1, j);
    }
  }

  method ThisOp(ss: seq<Stmt>, i: nat) returns (j: nat)
    requires i <= |ss|
    ensures j == Next(ss, i)
  {
    j := i;
    while j < |ss| && ss[j].code.Nop?
      invariant i <= j <= |ss| && Next(ss, j) == Next(ss, i)
    {
      j := j + 1;
    }
  }

  function From(ss: seq<Stmt>, i: nat, st: Store, p: Packet): Option<Store>
    requires i <= |ss|
  {
    ExecList(ss[i..], st, p)
  }

  lemma StepFrom(ss: seq<Stmt>, i: nat, st: Store, p: Packet)
    requires i < |ss|
    ensures From(ss, i, st, p) ==
      match Exec(ss[i], st, p) case None => None case Some(st1) => From(ss, i + 1, st1, p)
  {
    assert ss[i..][0] == ss[i] && ss[i..][1..] == ss[i + 1..];
  }

  lemma {:induction false} SkipNops(ss: seq<Stmt>, i: nat, j: nat, st: Store, p: Packet)
    requires i <= j <= |ss| && forall k {:trigger ss[k]} :: i <= k < j ==> ss[k].code.Nop?
    ensures From(ss, i, st, p) == From(ss, j, st, p)
    decreases j - i
  {
    if i < j {
      StepFrom(ss, i, st, p);
      SkipNops(ss, i + 1, j, st, p);
    }
  }

  /** The next statement that does something, and those behind it. */
  lemma SkipStep(ss: seq<Stmt>, i: nat, j: nat, st: Store, p: Packet)
    requires i <= j < |ss| && forall k {:trigger ss[k]} :: i <= k < j ==> ss[k].code.Nop?
    ensures From(ss, i, st, p) ==
      match Exec(ss[j], st, p) case None => None case Some(st1) => From(ss, j + 1, st1, p)
  {
    SkipNops(ss, i, j, st, p);
    StepFrom(ss, j, st, p);
  }

  // ----- states that may differ in X

  ghost predicate SameButX(st: Store, st': Store, keepX: bool) {
    forall a {:trigger st[a]} {:trigger st'[a]} :: 0 <= a < N_ATOMS && (a != X || keepX) ==> st[a] == st'[a]
  }

  ghost predicate Alike(r: Option<Store>, r': Option<Store>, keepX: bool) {
    match r
    case None => r' == None
    case Some(st) => r'.Some? && SameButX(st, r'.value, keepX)
  }

  /** Nothing from `i` on, and not the branch `b`, reads X before it is written. */
  predicate Unread(ss: seq<Stmt>, i: nat, b: Stmt)
    decreases |ss| - i
  {
    if i >= |ss| then X !in Uses(b)
    else X !in Uses(ss[i]) && (X in DefSet(ss[i]) || Unread(ss, i + 1, b))
  }

  lemma {:induction false} UnreadSame(ss: seq<Stmt>, ss': seq<Stmt>, i: nat, b: Stmt)
    requires |ss'| == |ss| && forall k {:trigger ss'[k]} :: i <= k < |ss| ==> ss'[k] == ss[k]
    ensures Unread(ss', i, b) == Unread(ss, i, b)
    decreases |ss| - i
  {
    if i < |ss| {
      UnreadSame(ss, ss', i + 1, b);
    }
  }

  /** X is read behind statement `i`. */
  ghost predicate ReadBehind(ss: seq<Stmt>, i: nat, b: Stmt) {
    X in Uses(b) || exists k {:trigger ss[k]} :: i <= k < |ss| && X in Uses(ss[k])
  }

  /** A value of X that is not read makes no difference. If X is read at all behind here,
      it is written first. */
  lemma {:induction false} UnreadRuns(ss: seq<Stmt>, i: nat, b: Stmt, st: Store, st': Store, p: Packet, keepX: bool)
    requires i <= |ss| && Unread(ss, i, b) && SameButX(st, st', false) && (keepX ==> ReadBehind(ss, i, b))
    ensures Alike(From(ss, i, st, p), From(ss, i, st', p), keepX)
    decreases |ss| - i
  {
    if i < |ss| {
      StepFrom(ss, i, st, p);
      StepFrom(ss, i, st', p);
      UnreadStmt(ss[i], st, st', p);
      if Exec(ss[i], st, p).Some? {
        if X in DefSet(ss[i]) {
          assert Exec(ss[i], st, p).value == Exec(ss[i], st', p).value;
        } else {
          UnreadRuns(ss, i + 1, b, Exec(ss[i], st, p).value, Exec(ss[i], st', p).value, p, keepX);
        }
      }
    }
  }

  lemma UnreadStmt(s: Stmt, st: Store, st': Store, p: Packet)
    requires X !in Uses(s) && SameButX(st, st', false)
    ensures Exec(s, st, p).Some? <==> Exec(s, st', p).Some?
    ensures Exec(s, st, p).Some? ==> SameButX(Exec(s, st, p).value, Exec(s, st', p).value, X in DefSet(s))
  {
    UsesOnly(s, st, st', p);
    if Exec(s, st, p).Some? {
      forall a | 0 <= a < N_ATOMS && (a != X || X in DefSet(s))
        ensures Exec(s, st, p).value[a] == Exec(s, st', p).value[a] {
        if a !in DefSet(s) {
          OnlyDefines(s, st, p, a);
          OnlyDefines(s, st', p, a);
        }
      }
    }
  }

  // ----- the three changes within a list

  /** A register read back as soon as it is written. */
  function ReadBack(ss: seq<Stmt>, i: nat, j: nat): seq<Stmt>
    requires i < |ss| && j < |ss|
  {
    if ss[i].code.St? && ss[j].code.LdxMem? && ss[i].k == ss[j].k then ss[j := ss[j].(code := Tax)] else ss
  }

  /** A constant copied to X. */
  function Swapped(ss: seq<Stmt>, i: nat, j: nat): seq<Stmt>
    requires i < |ss| && j < |ss|
  {
    if ss[i].code.LdImm? && ss[j].code.Tax?
    then ss[i := ss[i].(code := LdxImm)][j := ss[j].(code := Txa)]
    else ss
  }

  /** Where an addition of X, a copy to X and an indirect load follow the statement before
      `add`, each as the next one. */
  function LoadAt(ss: seq<Stmt>, add: nat): Option<(nat, nat)>
    requires add <= |ss|
  {
    if add < |ss| && ss[add].code == AluX(Add) then
      var tax := Next(ss, add + 1);
      if tax < |ss| && ss[tax].code.Tax? then
        var ild := Next(ss, tax + 1);
        if ild < |ss| && ss[ild].code.LdInd? then Some((tax, ild)) else None
      else None
    else None
  }

  function AddAt(ss: seq<Stmt>, j: nat): (add: nat)
    requires j < |ss|
    ensures j <= add <= |ss|
  {
    if ss[j].code.LdxMsh? then Next(ss, j + 1) else j
  }

  /** A constant offset added to X for one load: it goes into the load. */
  function Offset(ss: seq<Stmt>, i: nat, j: nat): seq<Stmt>
    requires i < |ss| && j < |ss|
  {
    var add := AddAt(ss, j);
    if !ss[i].code.LdImm? then ss
    else
      match LoadAt(ss, add)
      case None => ss
      case Some((tax, ild)) =>
        seq(|ss|, n requires 0 <= n < |ss| =>
          if n == ild then ss[n].(k := Wrap(ss[n].k + ss[i].k))
          else if n == i || n == add || n == tax then ss[n].(code := Nop)
          else ss[n])
  }

  /** What happens at statement `i` and the next one, `j`. */
  function Changed(ss: seq<Stmt>, i: nat, j: nat, xout: bool): (r: seq<Stmt>)
    requires i < |ss| && j < |ss|
    ensures |r| == |ss|
  {
    var r := Swapped(ReadBack(ss, i, j), i, j);
    if xout then r else Offset(r, i, j)
  }

  /** The list after the scan from `i` on, and the statement the scan takes for the last. */
  function Scanned(ss: seq<Stmt>, i: nat, xout: bool): (r: (seq<Stmt>, nat))
    requires i < |ss|
    ensures |r.0| == |ss| && r.1 < |ss|
    decreases |ss| - i
  {
    var s := Next(ss, i);
    if s == |ss| then (ss, i)
    else
      var n := Next(ss, s + 1);
      if n == |ss| then (ss, i) else Scanned(Changed(ss, s, n, xout), n, xout)
  }

  // ----- what the changes keep

  lemma Behind(ss: seq<Stmt>, ss': seq<Stmt>, i: nat, st: Store, p: Packet)
    requires |ss'| == |ss| && i <= |ss| && forall k {:trigger ss'[k]} :: i <= k < |ss| ==> ss'[k] == ss[k]
    ensures From(ss', i, st, p) == From(ss, i, st, p)
  {
    assert ss'[i..] == ss[i..];
  }

  lemma ReadBackRuns(ss: seq<Stmt>, i: nat, j: nat, st: Store, p: Packet)
    requires i < j < |ss| && j == Next(ss, i + 1)
    ensures From(ReadBack(ss, i, j), i, st, p) == From(ss, i, st, p)
  {
    var ss' := ReadBack(ss, i, j);
    StepFrom(ss, i, st, p);
    StepFrom(ss', i, st, p);
    match Exec(ss[i], st, p) {
      case None =>
      case Some(st1) =>
        SkipStep(ss, i + 1, j, st1, p);
        SkipStep(ss', i + 1, j, st1, p);
        if Exec(ss[j], st1, p).Some? {
          Behind(ss, ss', j + 1, Exec(ss[j], st1, p).value, p);
        }
    }
  }

  lemma SwappedRuns(ss: seq<Stmt>, i: nat, j: nat, st: Store, p: Packet)
    requires i < j < |ss| && j == Next(ss, i + 1)
    ensures From(Swapped(ss, i, j), i, st, p) == From(ss, i, st, p)
  {
    var ss' := Swapped(ss, i, j);
    if ss' != ss {
      StepFrom(ss, i, st, p);
      StepFrom(ss', i, st, p);
      SkipStep(ss, i + 1, j, st[A := ss[i].k], p);
      SkipStep(ss', i + 1, j, st[X := ss[i].k], p);
      var st2 := st[A := ss[i].k][X := ss[i].k];
      assert st2 == st[X := ss[i].k][A := ss[i].k];
      Behind(ss, ss', j + 1, st2, p);
    }
  }

  /** The addition, the copy and the load. */
  lemma LoadRuns(ss: seq<Stmt>, add: nat, tax: nat, ild: nat, st: Store, p: Packet)
    requires add < |ss| && LoadAt(ss, add) == Some((tax, ild))
    ensures add < tax < ild < |ss|
    ensures From(ss, add, st, p) ==
      match Load(p, Wrap(Wrap(st[A] as int + st[X]) + ss[ild].k), ss[ild].code.size)
      case None => None
      case Some(v) => From(ss, ild + 1, st[X := Wrap(st[A] as int + st[X])][A := v], p)
  {
    var x := Wrap(st[A] as int + st[X]);
    var st1 := st[A := x];
    var st2 := st1[X := x];
    StepFrom(ss, add, st, p);
    SkipStep(ss, add + 1, tax, st1, p);
    SkipStep(ss, tax + 1, ild, st2, p);
    match Load(p, Wrap(x + ss[ild].k), ss[ild].code.size) {
      case None =>
      case Some(v) => assert st2[A := v] == st[X := x][A := v];
    }
  }

  lemma WrapOffsets(a: Word, x: Word, k: Word)
    ensures Wrap(Wrap(a + x) + k) == Wrap(x + Wrap(k + a))
  {
    WrapAdd(a + x, k);
    WrapAdd(k + a, x);
  }

  /** What stands in between is deleted, but X loaded from the packet is not; the load gets
      the constant, and what follows is as it was. */
  ghost predicate MovedAt(ss: seq<Stmt>, ss': seq<Stmt>, i: nat, j: nat, add: nat, ild: nat, n: nat)
    requires n < |ss| == |ss'| && i < |ss|
  {
    if n < i || n > ild then ss'[n] == ss[n]
    else if n == ild then ss'[n] == ss[n].(k := Wrap(ss[n].k + ss[i].k))
    else if n == j < add then ss'[n] == ss[n]
    else ss'[n].code.Nop?
  }

  ghost predicate MovedInto(ss: seq<Stmt>, ss': seq<Stmt>, i: nat, j: nat, add: nat, ild: nat) {
    && |ss'| == |ss| && i < j <= add < ild < |ss|
    && forall n {:trigger ss'[n]} :: 0 <= n < |ss| ==> MovedAt(ss, ss', i, j, add, ild, n)
  }

  lemma LoadBetween(ss: seq<Stmt>, add: nat, n: nat)
    requires add <= |ss| && LoadAt(ss, add).Some?
    ensures
      var (tax, ild) := LoadAt(ss, add).value;
      add < tax < ild < |ss| && (add < n < ild && n != tax ==> ss[n].code.Nop?)
  {
    var tax := Next(ss, add + 1);
    assert add < n < tax ==> ss[n].code.Nop?;
    assert tax < n < Next(ss, tax + 1) ==> ss[n].code.Nop?;
  }

  lemma OffsetNth(ss: seq<Stmt>, i: nat, j: nat, n: nat)
    requires i < j < |ss| && n < |ss| && ss[i].code.LdImm? && LoadAt(ss, AddAt(ss, j)).Some?
    ensures |Offset(ss, i, j)| == |ss|
    ensures
      var add := AddAt(ss, j);
      var (tax, ild) := LoadAt(ss, add).value;
      Offset(ss, i, j)[n] ==
        if n == ild then ss[n].(k := Wrap(ss[n].k + ss[i].k))
        else if n == i || n == add || n == tax then ss[n].(code := Nop)
        else ss[n]
  {
  }

  lemma OffsetAt(ss: seq<Stmt>, i: nat, j: nat, n: nat)
    requires i < j < |ss| && n < |ss| && j == Next(ss, i + 1) && ss[i].code.LdImm? && LoadAt(ss, AddAt(ss, j)).Some?
    ensures |Offset(ss, i, j)| == |ss|
    ensures MovedAt(ss, Offset(ss, i, j), i, j, AddAt(ss, j), LoadAt(ss, AddAt(ss, j)).value.1, n)
  {
    OffsetNth(ss, i, j, n);
    LoadBetween(ss, AddAt(ss, j), n);
    assert i < n < j ==> ss[n].code.Nop?;
    assert j < n < AddAt(ss, j) ==> ss[n].code.Nop?;
  }

  lemma OffsetMoves(ss: seq<Stmt>, i: nat, j: nat)
    requires i < j < |ss| && j == Next(ss, i + 1) && ss[i].code.LdImm? && LoadAt(ss, AddAt(ss, j)).Some?
    ensures MovedInto(ss, Offset(ss, i, j), i, j, AddAt(ss, j), LoadAt(ss, AddAt(ss, j)).value.1)
  {
    forall n: nat | n < |ss| ensures MovedAt(ss, Offset(ss, i, j), i, j, AddAt(ss, j),
                                             LoadAt(ss, AddAt(ss, j)).value.1, n) {
      OffsetAt(ss, i, j, n);
    }
  }

  /** The same with the constant in the load. */
  lemma OffsetRuns(ss: seq<Stmt>, ss': seq<Stmt>, i: nat, j: nat, tax: nat, ild: nat, st: Store, p: Packet,
                   b: Stmt, keepX: bool)
    requires i < j < |ss| && j == Next(ss, i + 1) && ss[i].code.LdImm? && LoadAt(ss, AddAt(ss, j)) == Some((tax, ild))
    requires MovedInto(ss, ss', i, j, AddAt(ss, j), ild)
    requires Unread(ss, ild + 1, b) && (keepX ==> ReadBehind(ss, ild + 1, b))
    ensures Alike(From(ss, i, st, p), From(ss', i, st, p), keepX)
  {
    var add := AddAt(ss, j);
    StepFrom(ss, i, st, p);
    if j < add {
      OffsetBehind(ss, ss', i, j, add, tax, ild, ss[i].k, st, p, b, keepX);
    } else {
      OffsetNear(ss, ss', i, add, tax, ild, ss[i].k, st, p, b, keepX);
    }
  }

  lemma OffsetNear(ss: seq<Stmt>, ss': seq<Stmt>, i: nat, add: nat, tax: nat, ild: nat, k: Word, st: Store, p: Packet,
                   b: Stmt, keepX: bool)
    requires MovedInto(ss, ss', i, add, add, ild) && k == ss[i].k && add == Next(ss, i + 1)
    requires LoadAt(ss, add) == Some((tax, ild)) && Unread(ss, ild + 1, b) && (keepX ==> ReadBehind(ss, ild + 1, b))
    ensures Alike(From(ss, i + 1, st[A := k], p), From(ss', i, st, p), keepX)
  {
    MovedLoad(ss, ss', i, add, add, tax, ild, i, st, p, b, keepX);
    SkipNops(ss, i + 1, add, st[A := k], p);
  }

  lemma MovedLoad(ss: seq<Stmt>, ss': seq<Stmt>, i: nat, j: nat, add: nat, tax: nat, ild: nat, m: nat, st: Store,
                  p: Packet, b: Stmt, keepX: bool)
    requires MovedInto(ss, ss', i, j, add, ild) && LoadAt(ss, add) == Some((tax, ild)) && i <= m <= add
    requires m > j || j == add
    requires Unread(ss, ild + 1, b) && (keepX ==> ReadBehind(ss, ild + 1, b))
    ensures Alike(From(ss, add, st[A := ss[i].k], p), From(ss', m, st, p), keepX)
  {
    OffsetLoad(ss, ss', m, add, tax, ild, ss[i].k, st, p, b, keepX);
  }

  lemma MovedHead(ss: seq<Stmt>, ss': seq<Stmt>, i: nat, j: nat, add: nat, ild: nat, st: Store, p: Packet)
    requires MovedInto(ss, ss', i, j, add, ild) && j < add
    ensures From(ss', i, st, p) ==
      match Exec(ss[j], st, p) case None => None case Some(st2) => From(ss', j + 1, st2, p)
  {
    SkipStep(ss', i, j, st, p);
  }

  lemma MshBehind(s: Stmt, st: Store, k: Word, p: Packet)
    requires s.code.LdxMsh? && Exec(s, st, p).Some?
    ensures Exec(s, st[A := k], p) == Some(Exec(s, st, p).value[A := k])
  {
    var x: Word := 4 * (p.data[s.k] % 16);
    assert st[A := k][X := x] == st[X := x][A := k];
  }

  /** With X loaded from the packet in between. */
  lemma OffsetBehind(ss: seq<Stmt>, ss': seq<Stmt>, i: nat, j: nat, add: nat, tax: nat, ild: nat, k: Word, st: Store,
                     p: Packet, b: Stmt, keepX: bool)
    requires MovedInto(ss, ss', i, j, add, ild) && k == ss[i].k
    requires j < add && j == Next(ss, i + 1) && add == Next(ss, j + 1) && ss[j].code.LdxMsh?
    requires LoadAt(ss, add) == Some((tax, ild)) && Unread(ss, ild + 1, b) && (keepX ==> ReadBehind(ss, ild + 1, b))
    ensures Alike(From(ss, i + 1, st[A := k], p), From(ss', i, st, p), keepX)
  {
    MshOld(ss, i, j, add, st, k, p);
    MovedHead(ss, ss', i, j, add, ild, st, p);
    if Exec(ss[j], st, p).Some? {
      MovedLoad(ss, ss', i, j, add, tax, ild, j + 1, Exec(ss[j], st, p).value, p, b, keepX);
    }
  }

  lemma MshOld(ss: seq<Stmt>, i: nat, j: nat, add: nat, st: Store, k: Word, p: Packet)
    requires i < j < add < |ss| && j == Next(ss, i + 1) && add == Next(ss, j + 1) && ss[j].code.LdxMsh?
    ensures From(ss, i + 1, st[A := k], p) ==
      match Exec(ss[j], st, p) case None => None case Some(st2) => From(ss, add, st2[A := k], p)
  {
    SkipStep(ss, i + 1, j, st[A := k], p);
    if Exec(ss[j], st, p).Some? {
      MshBehind(ss[j], st, k, p);
      SkipNops(ss, j + 1, add, Exec(ss[j], st, p).value[A := k], p);
    }
  }

  lemma OffsetLoad(ss: seq<Stmt>, ss': seq<Stmt>, m: nat, add: nat, tax: nat, ild: nat, k: Word, st: Store, p: Packet,
                   b: Stmt, keepX: bool)
    requires m <= add < |ss| == |ss'| && LoadAt(ss, add) == Some((tax, ild)) && Unread(ss, ild + 1, b)
    requires keepX ==> ReadBehind(ss, ild + 1, b)
    requires forall n {:trigger ss'[n]} :: m <= n < ild ==> ss'[n].code.Nop?
    requires ss'[ild] == ss[ild].(k := Wrap(ss[ild].k + k))
    requires forall n {:trigger ss'[n]} :: ild < n < |ss| ==> ss'[n] == ss[n]
    ensures Alike(From(ss, add, st[A := k], p), From(ss', m, st, p), keepX)
  {
    LoadRuns(ss, add, tax, ild, st[A := k], p);
    SkipStep(ss', m, ild, st, p);
    WrapOffsets(k, st[X], ss[ild].k);
    match Load(p, Wrap(st[X] + Wrap(ss[ild].k + k)), ss[ild].code.size) {
      case None =>
      case Some(v) =>
        Behind(ss, ss', ild + 1, st[A := v], p);
        UnreadRuns(ss, ild + 1, b, st[A := k][X := Wrap(k + st[X])][A := v], st[A := v], p, keepX);
    }
  }

  // ----- what becomes of each statement

  predicate IsAlu(s: Stmt) {
    s.code.AluX? || s.code.AluK?
  }

  /** Operations other than an addition of X stay, and none appears; indirect loads stay; a
      deleted statement has an indirect load behind it. */
  ghost predicate KinAt(a: seq<Stmt>, b: seq<Stmt>, k: nat)
    requires k < |a| == |b|
  {
    && (a[k].code.LdInd? <==> b[k].code.LdInd?)
    && (IsAlu(b[k]) ==> b[k] == a[k])
    && (IsAlu(a[k]) && a[k].code != AluX(Add) ==> b[k] == a[k])
    && (a[k].code.Nop? ==> b[k].code.Nop?) && (Plain(a[k]) ==> Plain(b[k]))
    && (b[k].code.Nop? ==> a[k].code.Nop? || exists m {:trigger b[m]} :: k < m < |b| && b[m].code.LdInd?)
  }

  ghost predicate Kin(a: seq<Stmt>, b: seq<Stmt>) {
    |a| == |b| && forall k {:trigger KinAt(a, b, k)} :: 0 <= k < |a| ==> KinAt(a, b, k)
  }

  lemma KinTrans(a: seq<Stmt>, b: seq<Stmt>, c: seq<Stmt>)
    requires Kin(a, b) && Kin(b, c)
    ensures Kin(a, c)
  {
    forall k | 0 <= k < |a| ensures KinAt(a, c, k) {
      assert KinAt(a, b, k) && KinAt(b, c, k);
      if c[k].code.Nop? && b[k].code.Nop? && !a[k].code.Nop? {
        var m :| k < m < |b| && b[m].code.LdInd?;
        assert KinAt(b, c, m);
        assert c[m].code.LdInd?;
      }
    }
  }

  lemma KinSame(a: seq<Stmt>)
    ensures Kin(a, a)
  {
  }

  lemma ChangedKin(ss: seq<Stmt>, i: nat, j: nat, xout: bool)
    requires i < j < |ss| && j == Next(ss, i + 1) && !ss[i].code.Nop?
    ensures Kin(ss, Changed(ss, i, j, xout))
  {
    var a := ReadBack(ss, i, j);
    var b := Swapped(a, i, j);
    forall k | 0 <= k < |ss| ensures KinAt(ss, a, k) {
    }
    forall k | 0 <= k < |ss| ensures KinAt(a, b, k) {
    }
    KinTrans(ss, a, b);
    if b[i].code.LdImm? && LoadAt(b, AddAt(b, j)).Some? && !xout {
      OffsetKin(b, i, j);
      KinTrans(ss, b, Offset(b, i, j));
    }
  }

  lemma OffsetKin(ss: seq<Stmt>, i: nat, j: nat)
    requires i < j < |ss| && ss[i].code.LdImm? && LoadAt(ss, AddAt(ss, j)).Some?
    ensures Kin(ss, Offset(ss, i, j))
  {
    var ss', ild := Offset(ss, i, j), LoadAt(ss, AddAt(ss, j)).value.1;
    assert ss'[ild].code.LdInd?;
    forall k | 0 <= k < |ss| ensures KinAt(ss, ss', k) {
    }
  }

  lemma {:induction false} ScannedKin(ss: seq<Stmt>, i: nat, xout: bool)
    requires i < |ss|
    ensures Kin(ss, Scanned(ss, i, xout).0)
    decreases |ss| - i
  {
    var s := Next(ss, i);
    if s < |ss| && Next(ss, s + 1) < |ss| {
      var n := Next(ss, s + 1);
      ChangedKin(ss, s, n, xout);
      ScannedKin(Changed(ss, s, n, xout), n, xout);
      KinTrans(ss, Changed(ss, s, n, xout), Scanned(ss, i, xout).0);
    } else {
      KinSame(ss);
    }
  }

  /** Statement `l` is the last one that has not been deleted. */
  ghost predicate EndsIn(ss: seq<Stmt>, l: nat) {
    l < |ss| && !ss[l].code.Nop? && forall k {:trigger ss[k]} :: l < k < |ss| ==> ss[k].code.Nop?
  }

  /** What the scan takes for the last statement is it, or has been deleted. */
  lemma {:induction false} ScannedLast(ss: seq<Stmt>, i: nat, xout: bool)
    requires i < |ss|
    ensures
      var (ss', last) := Scanned(ss, i, xout);
      ss'[last].code.Nop? || EndsIn(ss', last)
    decreases |ss| - i
  {
    var s := Next(ss, i);
    if s < |ss| && Next(ss, s + 1) < |ss| {
      ScannedLast(Changed(ss, s, Next(ss, s + 1), xout), Next(ss, s + 1), xout);
    }
  }

  /** An operation the scanned list ends in the list ended in before. */
  lemma EndKept(a: seq<Stmt>, b: seq<Stmt>, l: nat)
    requires Kin(a, b) && EndsIn(b, l) && IsAlu(b[l])
    ensures EndsIn(a, l) && a[l] == b[l]
  {
    assert KinAt(a, b, l);
    forall k | l < k < |a| ensures a[k].code.Nop? {
      assert KinAt(a, b, k) && b[k].code.Nop?;
    }
  }

  ghost predicate SubLast(ss: seq<Stmt>) {
    exists l: nat {:trigger EndsIn(ss, l)} :: EndsIn(ss, l) && ss[l].code == AluX(Sub)
  }

  lemma SubKept(a: seq<Stmt>, b: seq<Stmt>)
    requires Kin(a, b) && SubLast(a)
    ensures SubLast(b)
  {
    var l: nat :| EndsIn(a, l) && a[l].code == AluX(Sub);
    assert KinAt(a, b, l);
    forall k | l < k < |b| ensures b[k].code.Nop? {
      assert KinAt(a, b, k) && a[k].code.Nop?;
    }
    assert EndsIn(b, l);
  }

  // ----- the scan keeps what the block does

  /** From `i` on, X as an indirect load used it is not read again: no block the generator
      makes depends on it. */
  ghost predicate Local(ss: seq<Stmt>, i: nat, b: Stmt) {
    forall n {:trigger ss[n]} :: i <= n < |ss| && ss[n].code.LdInd? ==> Unread(ss, n + 1, b)
  }

  lemma LocalSwapped(ss: seq<Stmt>, i: nat, j: nat, b: Stmt)
    requires i < j < |ss| && Local(ss, j, b)
    ensures Local(Swapped(ReadBack(ss, i, j), i, j), j, b)
  {
    var r := Swapped(ReadBack(ss, i, j), i, j);
    forall n | j <= n < |ss| && r[n].code.LdInd? ensures Unread(r, n + 1, b) {
      assert ss[n].code.LdInd?;
      UnreadSame(ss, r, n + 1, b);
    }
  }

  lemma LocalOffset(ss: seq<Stmt>, i: nat, j: nat, b: Stmt)
    requires i < j < |ss| && j == Next(ss, i + 1) && Local(ss, j, b)
    requires ss[i].code.LdImm? && LoadAt(ss, AddAt(ss, j)).Some?
    ensures Local(Offset(ss, i, j), j, b)
  {
    var ss' := Offset(ss, i, j);
    forall n | j <= n < |ss| && ss'[n].code.LdInd? ensures Unread(ss', n + 1, b) {
      OffsetAt(ss, i, j, n);
      assert ss[n].code.LdInd?;
      UnreadSame(ss, ss', n + 1, b);
    }
  }

  lemma LocalKept(ss: seq<Stmt>, i: nat, j: nat, xout: bool, b: Stmt)
    requires i < j < |ss| && j == Next(ss, i + 1) && Local(ss, j, b)
    ensures Local(Changed(ss, i, j, xout), j, b)
  {
    var r := Swapped(ReadBack(ss, i, j), i, j);
    LocalSwapped(ss, i, j, b);
    if r[i].code.LdImm? && LoadAt(r, AddAt(r, j)).Some? && !xout {
      NextIs(r, i + 1, j);
      LocalOffset(r, i, j, b);
    }
  }

  /** X matters at the end: a successor, the branch or a last subtraction wants it. */
  ghost predicate WantsX(ss: seq<Stmt>, xout: bool, b: Stmt) {
    xout || X in Uses(b) || SubLast(ss)
  }

  lemma SwappedAlike(ss: seq<Stmt>, i: nat, j: nat, st: Store, p: Packet)
    requires i < j < |ss| && j == Next(ss, i + 1)
    ensures From(Swapped(ReadBack(ss, i, j), i, j), i, st, p) == From(ss, i, st, p)
    ensures Next(Swapped(ReadBack(ss, i, j), i, j), i + 1) == j
  {
    var a := ReadBack(ss, i, j);
    ReadBackRuns(ss, i, j, st, p);
    NextIs(a, i + 1, j);
    SwappedRuns(a, i, j, st, p);
    NextIs(Swapped(a, i, j), i + 1, j);
  }

  lemma ChangedRuns(ss: seq<Stmt>, i: nat, j: nat, xout: bool, b: Stmt, keepX: bool, st: Store, p: Packet)
    requires i < j < |ss| && j == Next(ss, i + 1) && Local(ss, j, b) && (keepX ==> WantsX(ss, xout, b))
    ensures Alike(From(ss, i, st, p), From(Changed(ss, i, j, xout), i, st, p), keepX)
  {
    var r := Swapped(ReadBack(ss, i, j), i, j);
    SwappedAlike(ss, i, j, st, p);
    if r[i].code.LdImm? && LoadAt(r, AddAt(r, j)).Some? && !xout {
      var (tax, ild) := LoadAt(r, AddAt(r, j)).value;
      OffsetMoves(r, i, j);
      LoadUnread(ss, r, i, j, ild, xout, b, keepX);
      OffsetRuns(r, Offset(r, i, j), i, j, tax, ild, st, p, b, keepX);
    }
  }

  lemma LoadUnread(ss: seq<Stmt>, r: seq<Stmt>, i: nat, j: nat, ild: nat, xout: bool, b: Stmt, keepX: bool)
    requires i < j < ild < |ss| && Local(ss, j, b) && !xout && (keepX ==> WantsX(ss, xout, b))
    requires r == Swapped(ReadBack(ss, i, j), i, j) && r[ild].code.LdInd?
    ensures Unread(r, ild + 1, b) && (keepX ==> ReadBehind(r, ild + 1, b))
  {
    assert ss[ild] == r[ild];
    UnreadSame(ss, r, ild + 1, b);
    if keepX && X !in Uses(b) {
      ReadLast(ss, r, ild, b);
    }
  }

  lemma ReadLast(ss: seq<Stmt>, r: seq<Stmt>, ild: nat, b: Stmt)
    requires SubLast(ss) && |r| == |ss| && ild < |ss| && ss[ild].code.LdInd?
    requires forall k {:trigger r[k]} :: ild < k < |ss| ==> r[k] == ss[k]
    ensures ReadBehind(r, ild + 1, b)
  {
    var l: nat :| EndsIn(ss, l) && ss[l].code == AluX(Sub);
    assert l > ild && X in Uses(r[l]);
  }

  lemma PrefixRuns(ss: seq<Stmt>, ss': seq<Stmt>, i: nat, keepX: bool, st: Store, p: Packet)
    requires |ss'| == |ss| && i <= |ss| && forall k {:trigger ss'[k]} :: 0 <= k < i ==> ss'[k] == ss[k]
    requires forall st1 {:trigger From(ss, i, st1, p)} :: Alike(From(ss, i, st1, p), From(ss', i, st1, p), keepX)
    ensures Alike(ExecList(ss, st, p), ExecList(ss', st, p), keepX)
  {
    assert ss == ss[..i] + ss[i..] && ss' == ss'[..i] + ss'[i..] && ss'[..i] == ss[..i];
    ExecListAppend(ss[..i], ss[i..], st, p);
    ExecListAppend(ss[..i], ss'[i..], st, p);
    if ExecList(ss[..i], st, p).Some? {
      var st1 := ExecList(ss[..i], st, p).value;
      assert Alike(From(ss, i, st1, p), From(ss', i, st1, p), keepX);
    }
  }

  lemma {:induction false} ScannedRuns(ss: seq<Stmt>, i: nat, xout: bool, b: Stmt, keepX: bool, st: Store, p: Packet)
    requires i < |ss| && Local(ss, i, b) && (keepX ==> WantsX(ss, xout, b))
    ensures Alike(ExecList(ss, st, p), ExecList(Scanned(ss, i, xout).0, st, p), keepX)
    decreases |ss| - i
  {
    var s := Next(ss, i);
    if s < |ss| && Next(ss, s + 1) < |ss| {
      var n := Next(ss, s + 1);
      var ss' := Changed(ss, s, n, xout);
      forall st1 ensures Alike(From(ss, s, st1, p), From(ss', s, st1, p), keepX) {
        ChangedRuns(ss, s, n, xout, b, keepX, st1, p);
      }
      PrefixRuns(ss, ss', s, keepX, st, p);
      LocalKept(ss, s, n, xout, b);
      ChangedKin(ss, s, n, xout);
      if SubLast(ss) {
        SubKept(ss, ss');
      }
      ScannedRuns(ss', n, xout, b, keepX, st, p);
    }
  }

  // ----- what the scan achieves

  /** Statement `i` and its neighbour are not one of the two pairs that are changed. */
  ghost predicate PairDone(ss: seq<Stmt>, i: nat) {
    i < |ss| && !ss[i].code.Nop? && Next(ss, i + 1) < |ss| ==>
      var t := ss[Next(ss, i + 1)];
      !(ss[i].code.St? && t.code.LdxMem? && ss[i].k == t.k) && !(ss[i].code.LdImm? && t.code.Tax?)
  }

  lemma {:induction false} NextSame(ss: seq<Stmt>, ss': seq<Stmt>, i: nat)
    requires i <= |ss| == |ss'|
    requires forall k {:trigger ss'[k]} :: i <= k < |ss| ==> (ss'[k].code.Nop? <==> ss[k].code.Nop?)
    ensures Next(ss', i) == Next(ss, i)
    decreases |ss| - i
  {
    if i < |ss| {
      NextSame(ss, ss', i + 1);
    }
  }

  /** Whatever stands before the pair keeps its neighbour, or has the changed statement for
      one, which is none that matters. */
  lemma SwappedPairs(ss: seq<Stmt>, i: nat, j: nat, m: nat)
    requires i < j < |ss| && j == Next(ss, i + 1) && !ss[i].code.Nop? && m <= i
    requires m < i ==> PairDone(ss, m)
    ensures PairDone(Swapped(ReadBack(ss, i, j), i, j), m)
  {
    var r := Swapped(ReadBack(ss, i, j), i, j);
    SwappedShape(ss, i, j);
    NextSame(ss, r, m + 1);
    if m < i {
      NextUpto(ss, m + 1, i);
      EarlierPair(ss, r, i, m, Next(ss, m + 1));
    } else {
      ThisPair(ss, i, j);
      DonePair(r, i, j);
    }
  }

  lemma DonePair(r: seq<Stmt>, i: nat, j: nat)
    requires i < j < |r| && j == Next(r, i + 1)
    requires !(r[i].code.St? && r[j].code.LdxMem? && r[i].k == r[j].k) && !(r[i].code.LdImm? && r[j].code.Tax?)
    ensures PairDone(r, i)
  {
  }

  lemma SwappedShape(ss: seq<Stmt>, i: nat, j: nat)
    requires i < j < |ss|
    ensures
      var r := Swapped(ReadBack(ss, i, j), i, j);
      && |r| == |ss| && (r[i] == ss[i] || r[i].code.LdxImm?)
      && (forall k {:trigger r[k]} :: 0 <= k < i ==> r[k] == ss[k])
      && (forall k {:trigger r[k]} :: 0 <= k < |ss| ==> (r[k].code.Nop? <==> ss[k].code.Nop?))
  {
  }

  lemma EarlierPair(ss: seq<Stmt>, r: seq<Stmt>, i: nat, m: nat, n: nat)
    requires m < n <= i < |ss| == |r| && n == Next(ss, m + 1) == Next(r, m + 1) && PairDone(ss, m)
    requires forall k {:trigger r[k]} :: 0 <= k < i ==> r[k] == ss[k]
    requires r[i] == ss[i] || r[i].code.LdxImm?
    ensures PairDone(r, m)
  {
    assert r[m] == ss[m];
    if n < i {
      assert r[n] == ss[n];
    }
  }

  lemma ThisPair(ss: seq<Stmt>, i: nat, j: nat)
    requires i < j < |ss|
    ensures
      var r := Swapped(ReadBack(ss, i, j), i, j);
      && |r| == |ss| && !(r[i].code.St? && r[j].code.LdxMem? && r[i].k == r[j].k)
      && !(r[i].code.LdImm? && r[j].code.Tax?)
  {
  }

  lemma NextUpto(ss: seq<Stmt>, i: nat, j: nat)
    requires i <= j < |ss| && !ss[j].code.Nop?
    ensures Next(ss, i) <= j
  {
  }

  lemma OffsetPairs(ss: seq<Stmt>, ss': seq<Stmt>, i: nat, j: nat, add: nat, ild: nat, m: nat)
    requires MovedInto(ss, ss', i, j, add, ild) && !ss[i].code.Nop? && m <= i && (m < i ==> PairDone(ss, m))
    requires (j < add ==> ss[j].code.LdxMsh?) && ss[ild].code.LdInd?
    ensures PairDone(ss', m)
  {
    assert MovedAt(ss, ss', i, j, add, ild, m);
    if m < i && !ss'[m].code.Nop? {
      var n := Next(ss, m + 1);
      NextUpto(ss, m + 1, i);
      assert ss'[n] == ss'[n] && ss'[ild] == ss'[ild] && ss'[j] == ss'[j];
      if n < i {
        NextIs(ss', m + 1, n);
      } else if j < add {
        NextIs(ss', m + 1, j);
      } else {
        NextIs(ss', m + 1, ild);
      }
    }
  }

  lemma ChangedPairs(ss: seq<Stmt>, i: nat, j: nat, xout: bool, m: nat)
    requires i < j < |ss| && j == Next(ss, i + 1) && !ss[i].code.Nop? && m < j && (m < i ==> PairDone(ss, m))
    ensures PairDone(Changed(ss, i, j, xout), m)
  {
    var r := Swapped(ReadBack(ss, i, j), i, j);
    if m <= i {
      SwappedPairs(ss, i, j, m);
      NextIs(r, i + 1, j);
      if r[i].code.LdImm? && LoadAt(r, AddAt(r, j)).Some? && !xout {
        if m < i {
          SwappedPairs(ss, i, j, m);
        }
        OffsetMoves(r, i, j);
        OffsetPairs(r, Offset(r, i, j), i, j, AddAt(r, j), LoadAt(r, AddAt(r, j)).value.1, m);
      }
    } else {
      ChangedKin(ss, i, j, xout);
      assert ss[m].code.Nop? && KinAt(ss, Changed(ss, i, j, xout), m);
    }
  }

  /** After the scan no register is read back into X right after it is written, and no
      constant goes to X by way of the accumulator. */
  lemma {:induction false} ScannedPairs(ss: seq<Stmt>, i: nat, xout: bool, m: nat)
    requires i < |ss| && forall l: nat {:trigger PairDone(ss, l)} :: l < i ==> PairDone(ss, l)
    ensures PairDone(Scanned(ss, i, xout).0, m)
    decreases |ss| - i
  {
    var s := Next(ss, i);
    if s < |ss| && Next(ss, s + 1) < |ss| {
      var n := Next(ss, s + 1);
      forall l: nat | l < n ensures PairDone(Changed(ss, s, n, xout), l) {
        if i <= l < s {
          assert ss[l].code.Nop?;
        }
        ChangedPairs(ss, s, n, xout, l);
      }
      ScannedPairs(Changed(ss, s, n, xout), n, xout, m);
    } else if i <= m < |ss| {
      assert m != s ==> ss[m].code.Nop?;
    }
  }

  // ----- the test

  /** The operation in front of an equality test is merged into it. */
  function Merged(n: Node, last: nat, aout: bool, knownX: Option<Word>): Node
    requires last < |n.stmts|
  {
    var l, ss := n.stmts[last], n.stmts[last := n.stmts[last].(code := Nop)];
    if n.s.code != JmpK(Jeq) || aout then n
    else if l.code == AluX(Sub) then
      match knownX
      case Some(c) => n.(stmts := ss, s := n.s.(k := Wrap(n.s.k + c)))
      case None => if n.s.k == 0 then n.(stmts := ss, s := n.s.(code := JmpX(Jeq))) else n
    else if l.code == AluK(Sub) then n.(stmts := ss, s := n.s.(k := Wrap(n.s.k + l.k)))
    else if l.code == AluK(And) && n.s.k == 0 then
      Node(ss, Stmt(JmpK(Jset), l.k), n.jf, n.jt)
    else n
  }

  const ONES: Word := 0xffff_ffff

  /** A test of no bit never holds; a test of all bits is taken always to hold. */
  function NoBits(n: Node): Node {
    if n.s.code != JmpK(Jset) then n
    else if n.s.k == 0 then n.(jt := n.jf)
    else if n.s.k == ONES then n.(jf := n.jt)
    else n
  }

  /** A test of a known accumulator is decided. */
  function Decided(n: Node, knownA: Option<Word>): Node {
    if knownA == None || !n.s.code.JmpK? then n
    else if Compare(n.s.code.jmp, knownA.value, n.s.k) then n.(jf := n.jt)
    else n.(jt := n.jf)
  }

  /** The whole change to a block that branches: which of A and X are wanted behind it, and
      what they are known to hold at its end. A block without statements is left alone. */
  function Peeped(n: Node, xout: bool, aout: bool, knownA: Option<Word>, knownX: Option<Word>): Node {
    if n.stmts == [] then n
    else
      var (ss, last) := Scanned(n.stmts, 0, xout);
      Decided(NoBits(Merged(n.(stmts := ss), last, aout, knownX)), knownA)
  }

  /** Where control goes after the block. */
  function Goal(n: Node, st: Store): int {
    if Holds(n.s, st) then n.jt else n.jf
  }

  lemma SubZero(a: Word, x: Word, k: Word)
    ensures Wrap(a - x) == k <==> a == Wrap(k + x)
  {
  }

  /** The test made of an operation and an equality test: told from the accumulator before
      the operation, it comes out the same. */
  lemma MergedHolds(n: Node, l: Stmt, last: nat, knownX: Option<Word>, m: Store, o: Store, p: Packet)
    requires last < |n.stmts| && l == n.stmts[last] && Merged(n, last, false, knownX) != n
    requires Exec(l, m, p) == Some(o) && (knownX.Some? ==> o[X] == knownX.value)
    ensures Goal(Merged(n, last, false, knownX), m) == Goal(n, o)
  {
    if l.code == AluX(Sub) {
      SubZero(m[A], m[X], n.s.k);
    } else if l.code == AluK(Sub) {
      SubZero(m[A], l.k, n.s.k);
    }
  }

  lemma MergedStmts(n: Node, last: nat, knownX: Option<Word>)
    requires last < |n.stmts| && Merged(n, last, false, knownX) != n
    ensures Merged(n, last, false, knownX).stmts == n.stmts[last := n.stmts[last].(code := Nop)]
    ensures IsAlu(n.stmts[last]) && !n.stmts[last].code.op.Div?
  {
  }

  /** Everything but the accumulator is the same, and the new test tells what the old one
      told. */
  ghost predicate SameGoal(n: Node, n': Node, knownX: Option<Word>, st: Store, p: Packet) {
    match ExecList(n.stmts, st, p)
    case None => ExecList(n'.stmts, st, p) == None
    case Some(o) =>
      && ExecList(n'.stmts, st, p).Some?
      && var o' := ExecList(n'.stmts, st, p).value;
      && (forall a {:trigger o'[a]} :: 0 <= a < N_ATOMS && a != A ==> o'[a] == o[a])
      && ((knownX.Some? ==> o[X] == knownX.value) ==> Goal(n', o') == Goal(n, o))
  }

  lemma MergedGoal(n: Node, last: nat, knownX: Option<Word>, st: Store, p: Packet)
    requires last < |n.stmts| && (n.stmts[last].code.Nop? || EndsIn(n.stmts, last))
    ensures SameGoal(n, Merged(n, last, false, knownX), knownX, st, p)
  {
    var n' := Merged(n, last, false, knownX);
    if n' != n {
      MergedStmts(n, last, knownX);
      DropLast(n.stmts, last, st, p);
      if ExecList(n.stmts[..last], st, p).Some? {
        var m := ExecList(n.stmts[..last], st, p).value;
        var o := Exec(n.stmts[last], m, p).value;
        if knownX.Some? ==> o[X] == knownX.value {
          MergedHolds(n, n.stmts[last], last, knownX, m, o, p);
        }
      }
    }
  }

  lemma DropLast(ss: seq<Stmt>, last: nat, st: Store, p: Packet)
    requires EndsIn(ss, last)
    ensures
      var mid := ExecList(ss[..last], st, p);
      && ExecList(ss[last := ss[last].(code := Nop)], st, p) == mid
      && ExecList(ss, st, p) == match mid case None => None case Some(m) => Exec(ss[last], m, p)
  {
    var ss' := ss[last := ss[last].(code := Nop)];
    assert ss == ss[..last] + ss[last..] && ss' == ss[..last] + ss'[last..];
    ExecListAppend(ss[..last], ss[last..], st, p);
    ExecListAppend(ss[..last], ss'[last..], st, p);
    if ExecList(ss[..last], st, p).Some? {
      var m := ExecList(ss[..last], st, p).value;
      StepFrom(ss, last, m, p);
      SkipNops(ss', last, |ss|, m, p);
      assert ss[|ss|..] == [] && ss'[|ss|..] == [];
      if Exec(ss[last], m, p).Some? {
        SkipNops(ss, last + 1, |ss|, Exec(ss[last], m, p).value, p);
      }
    }
  }

  // ----- the whole block

  /** The test comes out as one of all bits. */
  predicate TestsOnes(n: Node, xout: bool, aout: bool) {
    && n.stmts != []
    && (n.s == Stmt(JmpK(Jset), ONES) ||
        (n.s == Stmt(JmpK(Jeq), 0) && !aout && n.stmts[Scanned(n.stmts, 0, xout).1] == Stmt(AluK(And), ONES)))
  }

  lemma NoBitsGoal(n: Node, o: Store)
    ensures Goal(NoBits(n), o) == if n.s == Stmt(JmpK(Jset), ONES) then n.jt else Goal(n, o)
    ensures n.s == Stmt(JmpK(Jset), ONES) ==> (Holds(n.s, o) <==> o[A] != 0)
  {
    OnesKept(o[A]);
  }

  lemma DecidedGoal(n: Node, knownA: Option<Word>, o: Store)
    requires knownA.Some? ==> o[A] == knownA.value
    ensures Goal(Decided(n, knownA), o) == Goal(n, o)
  {
  }

  /** What a caller knows of the state the block ends in. */
  predicate Trusted(knownA: Option<Word>, knownX: Option<Word>, o: Store) {
    (knownA.Some? ==> o[A] == knownA.value) && (knownX.Some? ==> o[X] == knownX.value)
  }

  /** A known accumulator has been folded: it is not the result of an operation. */
  ghost predicate FoldedEnd(ss: seq<Stmt>, knownA: Option<Word>) {
    knownA.Some? ==> forall l: nat {:trigger EndsIn(ss, l)} :: EndsIn(ss, l) ==> !IsAlu(ss[l])
  }

  /** The block aborts as before, leaves what is wanted behind it as before, and goes on as
      before unless it tests all bits of 0; then it goes the other way. */
  ghost predicate PeepedAs(n: Node, n': Node, out: set<nat>, knownA: Option<Word>, knownX: Option<Word>, st: Store,
                           p: Packet) {
    match ExecList(n.stmts, st, p)
    case None => ExecList(n'.stmts, st, p) == None
    case Some(o) =>
      && ExecList(n'.stmts, st, p).Some?
      && var o' := ExecList(n'.stmts, st, p).value;
      && AgreeOn(out, o, o')
      && (Trusted(knownA, knownX, o) ==> Goal(n', o') == NewGoal(n, X in out, A in out, o))
  }

  lemma SameBranch(b: Stmt, o: Store, o': Store)
    requires TwoWay(b) && SameButX(o, o', X in Uses(b))
    ensures Holds(b, o') == Holds(b, o)
  {
    UsesOnlyBranch(b, o, o');
  }

  /** The block after the scan does what it did before. */
  lemma ScannedBlock(n: Node, xout: bool, st: Store, p: Packet)
    requires n.stmts != [] && TwoWay(n.s) && Local(n.stmts, 0, n.s)
    ensures
      var ss := Scanned(n.stmts, 0, xout).0;
      Alike(ExecList(n.stmts, st, p), ExecList(ss, st, p), WantsX(n.stmts, xout, n.s))
    ensures
      var ss := Scanned(n.stmts, 0, xout).0;
      ExecList(n.stmts, st, p).Some? ==>
        Goal(n.(stmts := ss), ExecList(ss, st, p).value) == Goal(n, ExecList(n.stmts, st, p).value)
  {
    var ss := Scanned(n.stmts, 0, xout).0;
    ScannedRuns(n.stmts, 0, xout, n.s, WantsX(n.stmts, xout, n.s), st, p);
    if ExecList(n.stmts, st, p).Some? {
      SameBranch(n.s, ExecList(n.stmts, st, p).value, ExecList(ss, st, p).value);
    }
  }

  /** The scan leaves the end of the list as it was, as far as the test is concerned. */
  lemma ScannedEnd(ss: seq<Stmt>, xout: bool)
    requires ss != []
    ensures
      var (ss', last) := Scanned(ss, 0, xout);
      && (IsAlu(ss'[last]) ==> EndsIn(ss', last) && EndsIn(ss, last) && ss[last] == ss'[last])
      && (IsAlu(ss[last]) && ss[last].code != AluX(Add) ==> ss[last] == ss'[last])
      && (ss'[last].code.Nop? || EndsIn(ss', last))
  {
    var (ss', last) := Scanned(ss, 0, xout);
    ScannedKin(ss, 0, xout);
    ScannedLast(ss, 0, xout);
    assert KinAt(ss, ss', last);
    if IsAlu(ss'[last]) {
      EndKept(ss, ss', last);
    }
  }

  /** A known X is needed only for a subtraction of X, in front of which X is as it was. */
  lemma MergedSame(n: Node, n1: Node, xout: bool, knownX: Option<Word>, st: Store, p: Packet)
    requires n.stmts != [] && TwoWay(n.s) && Local(n.stmts, 0, n.s) && n1 == n.(stmts := Scanned(n.stmts, 0, xout).0)
    requires ExecList(n.stmts, st, p).Some? && (knownX.Some? ==> ExecList(n.stmts, st, p).value[X] == knownX.value)
    ensures ExecList(n1.stmts, st, p).Some?
    ensures
      var last := Scanned(n.stmts, 0, xout).1;
      var m := Merged(n1, last, false, knownX);
      && ExecList(m.stmts, st, p).Some?
      && Goal(m, ExecList(m.stmts, st, p).value) == Goal(n1, ExecList(n1.stmts, st, p).value)
  {
    var last := Scanned(n.stmts, 0, xout).1;
    ScannedBlock(n, xout, st, p);
    ScannedEnd(n.stmts, xout);
    if n1.stmts[last].code == AluX(Sub) {
      assert SubLast(n.stmts);
      MergedGoal(n1, last, knownX, st, p);
    } else {
      MergedGoal(n1, last, None, st, p);
      assert Merged(n1, last, false, None) == Merged(n1, last, false, knownX);
    }
  }

  lemma WantedAgree(out: set<nat>, o: Store, o1: Store, o': Store, keepX: bool)
    requires SameButX(o, o1, keepX) && (X in out ==> keepX)
    requires forall a {:trigger o'[a]} :: 0 <= a < N_ATOMS && (a != A || A in out) ==> o'[a] == o1[a]
    ensures AgreeOn(out, o, o')
  {
  }

  /** Aborts and what is left of A and the other atoms, where the test is not changed. */
  lemma MergedAgrees(n1: Node, last: nat, aout: bool, knownX: Option<Word>, st: Store, p: Packet)
    requires last < |n1.stmts| && (n1.stmts[last].code.Nop? || EndsIn(n1.stmts, last))
    ensures
      var ss := Merged(n1, last, aout, knownX).stmts;
      match ExecList(n1.stmts, st, p)
      case None => ExecList(ss, st, p) == None
      case Some(o1) =>
        && ExecList(ss, st, p).Some?
        && var o' := ExecList(ss, st, p).value;
        && forall a {:trigger o'[a]} :: 0 <= a < N_ATOMS && (a != A || aout) ==> o'[a] == o1[a]
  {
    if !aout {
      MergedGoal(n1, last, knownX, st, p);
    }
  }

  /** Two blocks abort alike and agree on what is wanted behind them. */
  ghost predicate AgreeBehind(ss: seq<Stmt>, ss': seq<Stmt>, out: set<nat>, st: Store, p: Packet) {
    match ExecList(ss, st, p)
    case None => ExecList(ss', st, p) == None
    case Some(o) => ExecList(ss', st, p).Some? && AgreeOn(out, o, ExecList(ss', st, p).value)
  }

  lemma ScannedAgrees(ss: seq<Stmt>, n1: Node, last: nat, out: set<nat>, knownX: Option<Word>, keepX: bool, st: Store,
                      p: Packet)
    requires last < |n1.stmts| && (n1.stmts[last].code.Nop? || EndsIn(n1.stmts, last))
    requires Alike(ExecList(ss, st, p), ExecList(n1.stmts, st, p), keepX) && (X in out ==> keepX)
    ensures AgreeBehind(ss, Merged(n1, last, A in out, knownX).stmts, out, st, p)
  {
    MergedAgrees(n1, last, A in out, knownX, st, p);
    if ExecList(ss, st, p).Some? {
      WantedAgree(out, ExecList(ss, st, p).value, ExecList(n1.stmts, st, p).value,
                  ExecList(Merged(n1, last, A in out, knownX).stmts, st, p).value, keepX);
    }
  }

  lemma PeepedParts(n: Node, xout: bool, aout: bool, knownA: Option<Word>, knownX: Option<Word>)
    returns (n1: Node, last: nat)
    requires n.stmts != []
    ensures (n1.stmts, last) == Scanned(n.stmts, 0, xout) && n1 == n.(stmts := n1.stmts)
    ensures Peeped(n, xout, aout, knownA, knownX) == Decided(NoBits(Merged(n1, last, aout, knownX)), knownA)
    ensures Peeped(n, xout, aout, knownA, knownX).stmts == Merged(n1, last, aout, knownX).stmts
  {
    last := Scanned(n.stmts, 0, xout).1;
    n1 := n.(stmts := Scanned(n.stmts, 0, xout).0);
  }

  /** Aborts and what is wanted behind the block. */
  lemma PeepedAgrees(n: Node, out: set<nat>, knownA: Option<Word>, knownX: Option<Word>, st: Store, p: Packet)
    requires n.stmts != [] && TwoWay(n.s) && Local(n.stmts, 0, n.s)
    ensures AgreeBehind(n.stmts, Peeped(n, X in out, A in out, knownA, knownX).stmts, out, st, p)
  {
    var n1, last := PeepedParts(n, X in out, A in out, knownA, knownX);
    ScannedBlock(n, X in out, st, p);
    ScannedLast(n.stmts, 0, X in out);
    ScannedAgrees(n.stmts, n1, last, out, knownX, WantsX(n.stmts, X in out, n.s), st, p);
  }

  /** Which way a block goes that tests all bits. */
  function NewGoal(n: Node, xout: bool, aout: bool, o: Store): int {
    if TestsOnes(n, xout, aout) && o[A] == 0 then (if Goal(n, o) == n.jt then n.jf else n.jt) else Goal(n, o)
  }

  /** Where nothing is merged into the test. */
  lemma UnmergedGoes(n: Node, n1: Node, last: nat, xout: bool, aout: bool, knownA: Option<Word>, knownX: Option<Word>,
                     st: Store, p: Packet)
    requires n.stmts != [] && TwoWay(n.s) && Local(n.stmts, 0, n.s)
    requires (n1.stmts, last) == Scanned(n.stmts, 0, xout) && n1 == n.(stmts := n1.stmts)
    requires Merged(n1, last, aout, knownX) == n1
    requires ExecList(n.stmts, st, p).Some? && Trusted(knownA, knownX, ExecList(n.stmts, st, p).value)
    ensures ExecList(n1.stmts, st, p).Some?
    ensures Goal(Decided(NoBits(n1), knownA), ExecList(n1.stmts, st, p).value) ==
      NewGoal(n, xout, aout, ExecList(n.stmts, st, p).value)
  {
    ScannedBlock(n, xout, st, p);
    var o, o1 := ExecList(n.stmts, st, p).value, ExecList(n1.stmts, st, p).value;
    assert o1[A] == o[A];
    NoBitsGoal(n1, o1);
    DecidedGoal(NoBits(n1), knownA, o1);
    ScannedEnd(n.stmts, xout);
  }

  /** Where something is. */
  lemma MergedGoes(n: Node, n1: Node, last: nat, xout: bool, knownX: Option<Word>, st: Store, p: Packet)
    requires n.stmts != [] && TwoWay(n.s) && Local(n.stmts, 0, n.s)
    requires (n1.stmts, last) == Scanned(n.stmts, 0, xout) && n1 == n.(stmts := n1.stmts)
    requires Merged(n1, last, false, knownX) != n1
    requires ExecList(n.stmts, st, p).Some? && Trusted(None, knownX, ExecList(n.stmts, st, p).value)
    ensures
      var m := Merged(n1, last, false, knownX);
      && ExecList(m.stmts, st, p).Some?
      && Goal(NoBits(m), ExecList(m.stmts, st, p).value) == NewGoal(n, xout, false, ExecList(n.stmts, st, p).value)
  {
    var m := Merged(n1, last, false, knownX);
    MergedSame(n, n1, xout, knownX, st, p);
    ScannedBlock(n, xout, st, p);
    NoBitsGoal(m, ExecList(m.stmts, st, p).value);
    ScannedEnd(n.stmts, xout);
  }

  /** An operation is merged into the test only if the accumulator is not known. */
  lemma MergedUnknown(n: Node, n1: Node, last: nat, xout: bool, aout: bool, knownA: Option<Word>, knownX: Option<Word>)
    requires n.stmts != [] && (n1.stmts, last) == Scanned(n.stmts, 0, xout)
    requires Merged(n1, last, aout, knownX) != n1 && FoldedEnd(n.stmts, knownA)
    ensures !aout && knownA == None
  {
    ScannedEnd(n.stmts, xout);
  }

  /** Which way the new block goes. */
  lemma PeepedGoes(n: Node, out: set<nat>, knownA: Option<Word>, knownX: Option<Word>, st: Store, p: Packet)
    requires n.stmts != [] && TwoWay(n.s) && Local(n.stmts, 0, n.s) && FoldedEnd(n.stmts, knownA)
    requires ExecList(n.stmts, st, p).Some? && Trusted(knownA, knownX, ExecList(n.stmts, st, p).value)
    ensures
      var n' := Peeped(n, X in out, A in out, knownA, knownX);
      && ExecList(n'.stmts, st, p).Some?
      && Goal(n', ExecList(n'.stmts, st, p).value) == NewGoal(n, X in out, A in out, ExecList(n.stmts, st, p).value)
  {
    var n1, last := PeepedParts(n, X in out, A in out, knownA, knownX);
    if Merged(n1, last, A in out, knownX) == n1 {
      UnmergedGoes(n, n1, last, X in out, A in out, knownA, knownX, st, p);
    } else {
      MergedUnknown(n, n1, last, X in out, A in out, knownA, knownX);
      MergedGoes(n, n1, last, X in out, knownX, st, p);
    }
  }

  /** The change to a block is right on every packet on which it is not a test of all bits
      of 0, and wrong on those. */
  lemma PeepedBlock(n: Node, out: set<nat>, knownA: Option<Word>, knownX: Option<Word>, st: Store, p: Packet)
    requires TwoWay(n.s) && Local(n.stmts, 0, n.s) && FoldedEnd(n.stmts, knownA)
    ensures PeepedAs(n, Peeped(n, X in out, A in out, knownA, knownX), out, knownA, knownX, st, p)
  {
    if n.stmts != [] {
      PeepedAgrees(n, out, knownA, knownX, st, p);
      if ExecList(n.stmts, st, p).Some? && Trusted(knownA, knownX, ExecList(n.stmts, st, p).value) {
        PeepedGoes(n, out, knownA, knownX, st, p);
      }
    }
  }

  // ----- the computation

  /** The changes at one pair of neighbours. */
  method Change(ss: seq<Stmt>, i: nat, j: nat, xout: bool) returns (r: seq<Stmt>)
    requires i < j < |ss|
    ensures r == Changed(ss, i, j, xout)
  {
    r := ss;
    if r[i].code.St? && r[j].code.LdxMem? && r[i].k == r[j].k {
      r := r[j := r[j].(code := Tax)];
    }
    if r[i].code.LdImm? && r[j].code.Tax? {
      r := r[i := r[i].(code := LdxImm)][j := r[j].(code := Txa)];
    }
    if r[i].code.LdImm? && !xout {
      r := IntoLoad(r, i, j);
    }
  }

  method IntoLoad(ss: seq<Stmt>, i: nat, j: nat) returns (r: seq<Stmt>)
    requires i < j < |ss| && ss[i].code.LdImm?
    ensures r == Offset(ss, i, j)
  {
    var add := j;
    if ss[j].code.LdxMsh? {
      add := ThisOp(ss, j + 1);
    }
    var found := FindLoad(ss, add);
    if found == None {
      return ss;
    }
    var (tax, ild) := found.value;
    OffsetIs(ss, i, j, tax, ild);
    r := ss[ild := ss[ild].(k := Wrap(ss[ild].k + ss[i].k))];
    r := r[i := ss[i].(code := Nop)][add := ss[add].(code := Nop)][tax := ss[tax].(code := Nop)];
  }

  method FindLoad(ss: seq<Stmt>, add: nat) returns (r: Option<(nat, nat)>)
    requires add <= |ss|
    ensures r == LoadAt(ss, add)
  {
    if add == |ss| || ss[add].code != AluX(Add) {
      return None;
    }
    var tax := ThisOp(ss, add + 1);
    if tax == |ss| || !ss[tax].code.Tax? {
      return None;
    }
    var ild := ThisOp(ss, tax + 1);
    if ild == |ss| || !ss[ild].code.LdInd? {
      return None;
    }
    r := Some((tax, ild));
  }

  lemma OffsetIs(ss: seq<Stmt>, i: nat, j: nat, tax: nat, ild: nat)
    requires i < j < |ss| && ss[i].code.LdImm? && LoadAt(ss, AddAt(ss, j)) == Some((tax, ild))
    ensures
      var add := AddAt(ss, j);
      i < j <= add < tax < ild < |ss| &&
      Offset(ss, i, j) == ss[ild := ss[ild].(k := Wrap(ss[ild].k + ss[i].k))][i := ss[i].(code := Nop)]
                            [add := ss[add].(code := Nop)][tax := ss[tax].(code := Nop)]
  {
  }

  method Scan(ss: seq<Stmt>, xout: bool) returns (r: seq<Stmt>, last: nat)
    requires ss != []
    ensures (r, last) == Scanned(ss, 0, xout)
  {
    r, last := ss, 0;
    while true
      invariant last < |r| && Scanned(r, last, xout) == Scanned(ss, 0, xout)
      decreases |r| - last
    {
      var s := ThisOp(r, last);
      if s == |r| {
        break;
      }
      var next := ThisOp(r, s + 1);
      if next == |r| {
        break;
      }
      r := Change(r, s, next, xout);
      last := next;
    }
  }

  /** The whole routine, for a block that branches. */
  method OptPeep(n: Node, out: set<nat>, knownA: Option<Word>, knownX: Option<Word>) returns (n': Node)
    requires TwoWay(n.s)
    ensures n' == Peeped(n, X in out, A in out, knownA, knownX)
    ensures Local(n.stmts, 0, n.s) && FoldedEnd(n.stmts, knownA) ==>
      forall st, p {:trigger ExecList(n'.stmts, st, p)} :: PeepedAs(n, n', out, knownA, knownX, st, p)
  {
    if n.stmts == [] {
      n' := n;
    } else {
      var ss, last := Scan(n.stmts, X in out);
      n' := n.(stmts := ss);
      if n'.s.code == JmpK(Jeq) && A !in out {
        n' := Merge(n', last, knownX);
      }
      if n'.s.code == JmpK(Jset) {
        if n'.s.k == 0 {
          n' := n'.(jt := n'.jf);
        }
        if n'.s.k == ONES {
          n' := n'.(jf := n'.jt);
        }
      }
      if knownA.Some? && n'.s.code.JmpK? {
        n' := if Compare(n'.s.code.jmp, knownA.value, n'.s.k) then n'.(jf := n'.jt) else n'.(jt := n'.jf);
      }
    }
    if Local(n.stmts, 0, n.s) && FoldedEnd(n.stmts, knownA) {
      forall st, p ensures PeepedAs(n, n', out, knownA, knownX, st, p) {
        PeepedBlock(n, out, knownA, knownX, st, p);
      }
    }
  }

  method Merge(n: Node, last: nat, knownX: Option<Word>) returns (n': Node)
    requires last < |n.stmts| && n.s.code == JmpK(Jeq)
    ensures n' == Merged(n, last, false, knownX)
  {
    n' := n;
    var l, ss := n.stmts[last], n.stmts[last := n.stmts[last].(code := Nop)];
    if l.code == AluX(Sub) {
      if knownX.Some? {
        n' := n.(stmts := ss, s := n.s.(k := Wrap(n.s.k + knownX.value)));
      } else if n.s.k == 0 {
        n' := n.(stmts := ss, s := n.s.(code := JmpX(Jeq)));
      }
    } else if l.code == AluK(Sub) {
      n' := n.(stmts := ss, s := n.s.(k := Wrap(n.s.k + l.k)));
    } else if l.code == AluK(And) && n.s.k == 0 {
      n' := Node(ss, Stmt(JmpK(Jset), l.k), n.jf, n.jt);
    }
  }

  // ----- the graph with the changed block

  /** Below the block nothing has changed. */
  lemma {:induction false} RunBelow(g: Graph, rank: Rank, b: nat, n': Node, x: int, st: Store, p: Packet)
    requires b < |g| && WellFormed(g, rank) && WellFormed(g[b := n'], rank) && x in rank && b in rank &&
      rank[x] < rank[b]
    ensures Run(g[b := n'], rank, x, st, p) == Run(g, rank, x, st, p)
    decreases rank[x]
  {
    assert NodeOk(g, rank, x);
    if ExecList(g[x].stmts, st, p).Some? && !g[x].Leaf() {
      var st1 := ExecList(g[x].stmts, st, p).value;
      RunBelow(g, rank, b, n', Taken(g, x, st1), st1, p);
    }
  }

  /** A run that does not come to the block is the same; one that does goes on from there. */
  lemma {:induction false} RunTo(g: Graph, rank: Rank, b: nat, n': Node, x: int, st: Store, p: Packet)
    requires b < |g| && WellFormed(g, rank) && WellFormed(g[b := n'], rank) && x in rank && b in rank
    ensures
      match Enters(g, rank, x, st, p, b)
      case None => Run(g[b := n'], rank, x, st, p) == Run(g, rank, x, st, p)
      case Some(sb) =>
        Run(g, rank, x, st, p) == Run(g, rank, b, sb, p) &&
          Run(g[b := n'], rank, x, st, p) == Run(g[b := n'], rank, b, sb, p)
    decreases rank[x]
  {
    assert NodeOk(g, rank, x);
    if x != b && ExecList(g[x].stmts, st, p).Some? && !g[x].Leaf() {
      var st1 := ExecList(g[x].stmts, st, p).value;
      RunTo(g, rank, b, n', Taken(g, x, st1), st1, p);
    }
  }

  lemma MergedNode(n: Node, last: nat, aout: bool, knownX: Option<Word>)
    requires last < |n.stmts| && TwoWay(n.s)
    ensures
      var n' := Merged(n, last, aout, knownX);
      TwoWay(n'.s) && ((n'.jt == n.jt && n'.jf == n.jf) || (n'.jt == n.jf && n'.jf == n.jt))
  {
  }

  lemma PeepedNode(n: Node, xout: bool, aout: bool, knownA: Option<Word>, knownX: Option<Word>)
    requires TwoWay(n.s)
    ensures
      var n' := Peeped(n, xout, aout, knownA, knownX);
      TwoWay(n'.s) && (n'.jt == n.jt || n'.jt == n.jf) && (n'.jf == n.jt || n'.jf == n.jf)
  {
    if n.stmts != [] {
      var n1, last := PeepedParts(n, xout, aout, knownA, knownX);
      MergedNode(n1, last, aout, knownX);
    }
  }

  lemma PeepedPlain(n: Node, xout: bool, aout: bool, knownA: Option<Word>, knownX: Option<Word>, k: nat)
    requires forall m {:trigger n.stmts[m]} :: 0 <= m < |n.stmts| ==> Plain(n.stmts[m])
    ensures
      var ss := Peeped(n, xout, aout, knownA, knownX).stmts;
      |ss| == |n.stmts| && (k < |ss| ==> Plain(ss[k]))
  {
    if n.stmts != [] {
      var n1, last := PeepedParts(n, xout, aout, knownA, knownX);
      ScannedKin(n.stmts, 0, xout);
      MergedAt(n1, last, aout, knownX, k);
      if k < |n.stmts| {
        assert KinAt(n.stmts, n1.stmts, k) && Plain(n.stmts[k]);
      }
    }
  }

  lemma MergedAt(n: Node, last: nat, aout: bool, knownX: Option<Word>, k: nat)
    requires last < |n.stmts|
    ensures
      var ss := Merged(n, last, aout, knownX).stmts;
      |ss| == |n.stmts| && (k < |ss| ==> ss[k] == n.stmts[k] || ss[k].code.Nop?)
  {
  }

  lemma PeepedWf(g: Graph, rank: Rank, b: nat, xout: bool, aout: bool, knownA: Option<Word>, knownX: Option<Word>)
    requires WellFormed(g, rank) && b in rank && b < |g| && !g[b].Leaf()
    ensures WellFormed(g[b := Peeped(g[b], xout, aout, knownA, knownX)], rank)
  {
    var g' := g[b := Peeped(g[b], xout, aout, knownA, knownX)];
    assert NodeOk(g, rank, b);
    PeepedNode(g[b], xout, aout, knownA, knownX);
    forall k: nat | k < |g'[b].stmts| ensures Plain(g'[b].stmts[k]) {
      PeepedPlain(g[b], xout, aout, knownA, knownX, k);
    }
    forall i | 0 <= i < |g'| && i in rank ensures NodeOk(g', rank, i) {
      assert NodeOk(g, rank, i);
    }
  }

  /** The program's verdict after the change to a block, given what is wanted behind it: a
      run that does not come to it keeps its verdict, and one that does goes on as before,
      unless it tests all bits of 0. */
  lemma PeepedVerdict(g: Graph, rank: Rank, root: nat, b: nat, knownA: Option<Word>, knownX: Option<Word>, st: Store,
                      p: Packet)
    requires WellFormed(g, rank) && root in rank && b in rank && b < |g| && !g[b].Leaf()
    requires Local(g[b].stmts, 0, g[b].s) && FoldedEnd(g[b].stmts, knownA)
    ensures
      var out := LiveOut(g, rank, b);
      var g' := g[b := Peeped(g[b], X in out, A in out, knownA, knownX)];
      && WellFormed(g', rank)
      && match Enters(g, rank, root, st, p, b)
         case None => Run(g', rank, root, st, p) == Run(g, rank, root, st, p)
         case Some(sb) =>
           match ExecList(g[b].stmts, sb, p)
           case None => Run(g', rank, root, st, p) == None == Run(g, rank, root, st, p)
           case Some(o) =>
             var c := NewGoal(g[b], X in out, A in out, o);
             && c in rank && Goal(g[b], o) in rank && Run(g, rank, root, st, p) == Run(g, rank, Goal(g[b], o), o, p)
             && (Trusted(knownA, knownX, o) ==> Run(g', rank, root, st, p) == Run(g, rank, c, o, p))
  {
    var out := LiveOut(g, rank, b);
    var n' := Peeped(g[b], X in out, A in out, knownA, knownX);
    assert NodeOk(g, rank, b);
    PeepedWf(g, rank, b, X in out, A in out, knownA, knownX);
    RunTo(g, rank, b, n', root, st, p);
    if Enters(g, rank, root, st, p, b).Some? {
      PeepedFrom(g, rank, b, knownA, knownX, Enters(g, rank, root, st, p, b).value, p);
    }
  }

  lemma PeepedFrom(g: Graph, rank: Rank, b: nat, knownA: Option<Word>, knownX: Option<Word>, sb: Store, p: Packet)
    requires WellFormed(g, rank) && b in rank && b < |g| && !g[b].Leaf()
    requires Local(g[b].stmts, 0, g[b].s) && FoldedEnd(g[b].stmts, knownA)
    ensures
      var out := LiveOut(g, rank, b);
      var g' := g[b := Peeped(g[b], X in out, A in out, knownA, knownX)];
      && WellFormed(g', rank)
      && match ExecList(g[b].stmts, sb, p)
         case None => Run(g', rank, b, sb, p) == None == Run(g, rank, b, sb, p)
         case Some(o) =>
           var c := NewGoal(g[b], X in out, A in out, o);
           && c in rank && Goal(g[b], o) in rank && Run(g, rank, b, sb, p) == Run(g, rank, Goal(g[b], o), o, p)
           && (Trusted(knownA, knownX, o) ==> Run(g', rank, b, sb, p) == Run(g, rank, c, o, p))
  {
    var out := LiveOut(g, rank, b);
    var n' := Peeped(g[b], X in out, A in out, knownA, knownX);
    var g' := g[b := n'];
    assert NodeOk(g, rank, b);
    PeepedWf(g, rank, b, X in out, A in out, knownA, knownX);
    assert NodeOk(g', rank, b);
    PeepedBlock(g[b], out, knownA, knownX, sb, p);
    if ExecList(g[b].stmts, sb, p).Some? {
      var o, o' := ExecList(g[b].stmts, sb, p).value, ExecList(n'.stmts, sb, p).value;
      var c := NewGoal(g[b], X in out, A in out, o);
      if Trusted(knownA, knownX, o) {
        GoesOn(g, rank, b, n', c, o, o', p);
      }
    }
  }

  lemma GoesOn(g: Graph, rank: Rank, b: nat, n': Node, c: int, o: Store, o': Store, p: Packet)
    requires b < |g| && WellFormed(g, rank) && WellFormed(g[b := n'], rank) && b in rank && !g[b].Leaf()
    requires (c == g[b].jt || c == g[b].jf) && AgreeOn(LiveOut(g, rank, b), o, o')
    ensures c in rank && Run(g[b := n'], rank, c, o', p) == Run(g, rank, c, o, p)
  {
    assert NodeOk(g, rank, b);
    RunBelow(g, rank, b, n', c, o', p);
    assert AgreeOn(LiveIn(g, rank, c), o, o');
    LiveSound(g, rank, c, o, o', p);
  }

  // ----- what the changes achieve

  /** Afterwards no operation in front of an equality test is left that could be part of it,
      and a test whose outcome is taken to be known leads to one place only. */
  lemma PeepedDone(n: Node, xout: bool, aout: bool, knownA: Option<Word>, knownX: Option<Word>)
    requires n.stmts != []
    ensures
      var last, n' := Scanned(n.stmts, 0, xout).1, Peeped(n, xout, aout, knownA, knownX);
      && last < |n'.stmts|
      && (n'.s.code == JmpK(Jeq) && !aout ==>
            var op := n'.stmts[last].code;
            op != AluK(Sub) && (op == AluX(Sub) ==> knownX == None && n'.s.k != 0) && (op == AluK(And) ==> n'.s.k != 0))
      && (n'.s.code == JmpK(Jset) && (n'.s.k == 0 || n'.s.k == ONES) ==> n'.jt == n'.jf)
      && (n'.s.code.JmpK? && knownA.Some? ==> n'.jt == n'.jf)
  {
    var n1, last := PeepedParts(n, xout, aout, knownA, knownX);
    MergeDone(n1, last, aout, knownX);
    TestDone(Merged(n1, last, aout, knownX), knownA);
  }

  lemma MergeDone(n: Node, last: nat, aout: bool, knownX: Option<Word>)
    requires last < |n.stmts|
    ensures
      var m := Merged(n, last, aout, knownX);
      && last < |m.stmts|
      && (m.s.code == JmpK(Jeq) && !aout ==>
            var op := m.stmts[last].code;
            op != AluK(Sub) && (op == AluX(Sub) ==> knownX == None && m.s.k != 0) && (op == AluK(And) ==> m.s.k != 0))
  {
  }

  lemma TestDone(m: Node, knownA: Option<Word>)
    ensures
      var t := Decided(NoBits(m), knownA);
      && t.s == m.s && t.stmts == m.stmts
      && (m.s.code == JmpK(Jset) && (m.s.k == 0 || m.s.k == ONES) ==> t.jt == t.jf)
      && (m.s.code.JmpK? && knownA.Some? ==> t.jt == t.jf)
  {
  }

  /** The load of `tcp[2:2]`: the constant goes into it. */
  const TCP_LOAD: seq<Stmt> :=
    [Stmt(LdImm, 2), Stmt(LdxMsh, 14), Stmt(AluX(Add), 0), Stmt(Tax, 0), Stmt(LdInd(HalfSize), 14)]

  const TCP_FOLDED: seq<Stmt> :=
    [Stmt(Nop, 2), Stmt(LdxMsh, 14), Stmt(Nop, 0), Stmt(Nop, 0), Stmt(LdInd(HalfSize), 16)]

  lemma TcpOffset()
    ensures Changed(TCP_LOAD, 0, 1, false) == TCP_FOLDED
  {
    var ss := TCP_LOAD;
    assert Next(ss, 2) == 2 && Next(ss, 3) == 3 && Next(ss, 4) == 4;
    assert AddAt(ss, 1) == 2;
    assert LoadAt(ss, 2) == Some((3, 4));
    assert |Offset(ss, 0, 1)| == 5;
  }

  lemma TcpRest()
    ensures Scanned(TCP_FOLDED, 1, false).0 == TCP_FOLDED
  {
    var r := TCP_FOLDED;
    assert Next(r, 5) == 5 && Next(r, 4) == 4 && Next(r, 3) == 4 && Next(r, 2) == 4 && Next(r, 1) == 1;
    assert Changed(r, 1, 4, false) == r;
    assert Scanned(r, 4, false).0 == r;
  }

  lemma TcpLoadFolded()
    ensures Scanned(TCP_LOAD, 0, false).0 == TCP_FOLDED
  {
    assert Next(TCP_LOAD, 0) == 0 && Next(TCP_LOAD, 1) == 1;
    TcpOffset();
    TcpRest();
  }

  // ----- a test of all bits

  /** Four bytes masked with all ones and compared with 0. */
  const ALL_ONES: Node :=
    Node([Stmt(LdAbs(WordSize), 0), Stmt(AluK(And), ONES)], Stmt(JmpK(Jeq), 0), 1, 2)

  const ZEROES: Packet := Packet([0, 0, 0, 0], 4)

  lemma AllOnesRun(st: Store)
    ensures ExecList(ALL_ONES.stmts, st, ZEROES) == Some(st[A := 0])
  {
    var ss, st1 := ALL_ONES.stmts, st[A := 0];
    assert ss[0..] == ss && ss[2..] == [];
    StepFrom(ss, 0, st, ZEROES);
    StepFrom(ss, 1, st1, ZEROES);
    assert st1[A := 0] == st1;
  }

  /** On four bytes of 0 the test holds, and the block the changes make of it says that it
      does not. */
  lemma AllOnesLost(st: Store)
    ensures
      var n' := Peeped(ALL_ONES, false, false, None, None);
      && ExecList(ALL_ONES.stmts, st, ZEROES).Some? && Goal(ALL_ONES, ExecList(ALL_ONES.stmts, st, ZEROES).value) == 1
      && ExecList(n'.stmts, st, ZEROES).Some? && Goal(n', ExecList(n'.stmts, st, ZEROES).value) == 2
  {
    var ss := ALL_ONES.stmts;
    AllOnesRun(st);
    assert Next(ss, 0) == 0 && Next(ss, 1) == 1 && Next(ss, 2) == 2;
    assert Scanned(ss, 0, false) == (ss, 1);
    assert TestsOnes(ALL_ONES, false, false);
    PeepedBlock(ALL_ONES, {}, None, None, st, ZEROES);
  }
}
