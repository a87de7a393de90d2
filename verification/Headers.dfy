/** What port and encapsulation filters accept, in terms of the bytes of the packet. */
module Headers {
  import opened Bpf
  import opened Fragment
  import opened Language
  import opened Masks
  import opened Wire
  import opened Seal

  /** The big-endian 16- and 32-bit numbers at an offset. */
  function U16(d: seq<Byte>, at: nat): nat
    requires at + 2 <= |d|
  {
    Number(d, at, 2)
  }

  function U32(d: seq<Byte>, at: nat): Word
    requires at + 4 <= |d|
  {
    NumberBytes(d, at, 4);
    Number(d, at, 4)
  }

  lemma BothAccept(a: Outcome, b: Outcome)
    ensures And3(a, b) == Accept <==> a == Accept && b == Accept
  {
  }

  // ----- fields

  lemma HalfLoad(p: Packet, at: nat)
    ensures Load(p, at, HalfSize) == if at + 2 > |p.data| then None else Some(U16(p.data, at))
    ensures at + 2 <= |p.data| ==> BigEndian(p.data, at, HalfSize) == U16(p.data, at)
  {
    LoadIs(p, at, HalfSize);
  }

  lemma WordLoad(p: Packet, at: nat)
    requires at + 4 <= |p.data|
    ensures BigEndian(p.data, at, WordSize) == U32(p.data, at)
  {
    LoadIs(p, at, WordSize);
  }

  lemma HalfField(env: Env, rel: OffRel, offset: Word, v: Word, p: Packet)
    requires !rel.OrTranIpv4? && Base(env, rel) + offset < WORD_LIMIT
    ensures
      var at := Base(env, rel) + offset;
      FieldMeaning(env, rel, offset, HalfSize, Equals(v), p) ==
      if at + 2 > |p.data| then Abort else Decide(U16(p.data, at) == v)
  {
    HalfLoad(p, Base(env, rel) + offset);
  }

  lemma ByteField(env: Env, rel: OffRel, offset: Word, v: Word, p: Packet)
    requires !rel.OrTranIpv4? && Base(env, rel) + offset < WORD_LIMIT
    ensures
      var at := Base(env, rel) + offset;
      FieldMeaning(env, rel, offset, ByteSize, Equals(v), p) ==
      if at + 1 > |p.data| then Abort else Decide(p.data[at] == v)
  {
  }

  // ----- ports

  /** The protocols a port qualifier stands for. */
  predicate Selected(proto: PortProto, n: Byte) {
    match proto
    case Udp => n == 17
    case Tcp => n == 6
    case Sctp => n == 132
    case AnyPortProto => n == 17 || n == 6 || n == 132
  }

  /** The 16-bit number at `at` is there and is the port. */
  predicate PortIs(d: seq<Byte>, at: nat, port: Word) {
    at + 2 <= |d| && U16(d, at) == port
  }

  /** Source port at the start of the transport header, destination port after it. */
  predicate PortsMatch(d: seq<Byte>, h: nat, port: Word, dir: Dir) {
    match dir
    case Src => PortIs(d, h, port)
    case Dst => PortIs(d, h + 2, port)
    case SrcOrDst => PortIs(d, h, port) || PortIs(d, h + 2, port)
    case SrcAndDst => PortIs(d, h, port) && PortIs(d, h + 2, port)
  }

  /** The bottom-of-stack bit of the entry at `at`. */
  predicate Bottom(d: seq<Byte>, at: nat, isSet: bool) {
    at + 3 <= |d| && d[at + 2] % 2 == if isSet then 1 else 0
  }

  /** What says which network layer it is: the two bytes of the type field, or, behind
      labels, the bottom-of-stack bit of the last one and the version nibble. */
  predicate SaysType(env: Env, t: EtherType, d: seq<Byte>) {
    if env.labelDepth == 0 then
      env.offLinktype + 2 <= |d| && TypeBytes(t, d[env.offLinktype], d[env.offLinktype + 1])
    else
      && env.offNl >= 4 && Bottom(d, env.offNl - 4, true)
      && env.offNl < |d| && d[env.offNl] / 16 == if t.EtherIpv6? then 6 else 4
  }

  /** The type field of each network layer. */
  predicate TypeBytes(t: EtherType, hi: Byte, lo: Byte) {
    match t
    case EtherIp => hi == 8 && lo == 0
    case EtherIpv6 => hi == 0x86 && lo == 0xdd
    case EtherArp => hi == 8 && lo == 6
    case EtherRevarp => hi == 0x80 && lo == 0x35
    case EtherMpls => hi == 0x88 && lo == 0x47
  }

  lemma TypeBytesCode(t: EtherType, d: seq<Byte>, at: nat)
    requires at + 2 <= |d|
    ensures U16(d, at) == EtherCode(t) <==> TypeBytes(t, d[at], d[at + 1])
  {
    NumberBytes(d, at, 2);
  }

  function IpVersion(t: EtherType): Byte {
    if t.EtherIpv6? then 6 else 4
  }

  /** An IPv4 packet of a selected protocol, not a later fragment, with the port in the
      header that follows the IP header, whose length the packet itself gives. The fields
      are those of section 3.1 of RFC 791. */
  predicate CarriesPort(env: Env, d: seq<Byte>, port: Word, proto: PortProto, dir: Dir) {
    && SaysType(env, EtherIp, d)
    && env.offNl + 9 < |d| && Selected(proto, d[env.offNl + 9])
    && U16(d, env.offNl + 6) % 8192 == 0
    && PortsMatch(d, env.offNl + 4 * (d[env.offNl] % 16), port, dir)
  }

  lemma PortAtomExact(env: Env, off: Word, port: Word, p: Packet)
    requires env.offNl + 64 < WORD_LIMIT && off <= 2 && env.offNl < |p.data|
    ensures
      var at := env.offNl + 4 * (p.data[env.offNl] % 16) + off;
      PortAtomMeaning(env, off, port, p) == if at + 2 > |p.data| then Abort else Decide(U16(p.data, at) == port)
  {
    var x := 4 * (p.data[env.offNl] % 16);
    assert Ihl(env, p) == Some(x) && Wrap(env.offNl + off) == env.offNl + off;
    assert Wrap(x + (env.offNl + off)) == env.offNl + x + off;
    HalfLoad(p, env.offNl + x + off);
  }

  lemma PortDirExact(env: Env, port: Word, dir: Dir, p: Packet)
    requires env.offNl + 64 < WORD_LIMIT && env.offNl < |p.data|
    ensures PortDirMeaning(env, port, dir, p) == Accept <==>
            PortsMatch(p.data, env.offNl + 4 * (p.data[env.offNl] % 16), port, dir)
  {
    PortAtomExact(env, 0, port, p);
    PortAtomExact(env, 2, port, p);
  }

  lemma FirstFragExact(env: Env, p: Packet)
    requires env.offNl + 64 < WORD_LIMIT
    ensures FirstFragMeaning(env, p) ==
      if env.offNl + 8 > |p.data| then Abort else Decide(U16(p.data, env.offNl + 6) % 8192 == 0)
  {
    assert Wrap(env.offNl + 6) == env.offNl + 6;
    HalfLoad(p, env.offNl + 6);
    if env.offNl + 8 <= |p.data| {
      var x := U16(p.data, env.offNl + 6);
      assert FieldValue(env, OrNet, 6, HalfSize, p) == Some(x);
      MaskFragment(x);
    } else {
      assert FieldValue(env, OrNet, 6, HalfSize, p) == None;
    }
  }

  /** The tests behind one protocol number. */
  predicate OpMatches(env: Env, port: Word, proto: Byte, dir: Dir, d: seq<Byte>) {
    && env.offNl + 9 < |d| && d[env.offNl + 9] == proto
    && U16(d, env.offNl + 6) % 8192 == 0
    && PortsMatch(d, env.offNl + 4 * (d[env.offNl] % 16), port, dir)
  }

  lemma ThreeAccept(a: Outcome, b: Outcome, c: Outcome)
    ensures And3(And3(a, b), c) == Accept <==> a == Accept && b == Accept && c == Accept
    ensures a != Accept ==> And3(And3(a, b), c) == a
  {
  }

  lemma PortOpExact(env: Env, port: Word, proto: Byte, dir: Dir, p: Packet)
    requires env.offNl + 64 < WORD_LIMIT
    ensures PortOpMeaning(env, port, proto, dir, p) == Accept <==> OpMatches(env, port, proto, dir, p.data)
    ensures env.offNl + 9 >= |p.data| ==> PortOpMeaning(env, port, proto, dir, p) == Abort
    ensures env.offNl + 9 < |p.data| && p.data[env.offNl + 9] != proto ==>
      PortOpMeaning(env, port, proto, dir, p) == Reject
  {
    var a := FieldMeaning(env, OrNet, 9, ByteSize, Equals(proto), p);
    ThreeAccept(a, FirstFragMeaning(env, p), PortDirMeaning(env, port, dir, p));
    ByteField(env, OrNet, 9, proto, p);
    if env.offNl + 9 < |p.data| {
      BehindProto(env, port, dir, p);
    }
  }

  lemma BehindProto(env: Env, port: Word, dir: Dir, p: Packet)
    requires env.offNl + 64 < WORD_LIMIT && env.offNl + 9 < |p.data|
    ensures FirstFragMeaning(env, p) == Accept <==> U16(p.data, env.offNl + 6) % 8192 == 0
    ensures PortDirMeaning(env, port, dir, p) == Accept <==>
      PortsMatch(p.data, env.offNl + 4 * (p.data[env.offNl] % 16), port, dir)
  {
    FirstFragExact(env, p);
    PortDirExact(env, port, dir, p);
  }

  // ----- encapsulation

  /** `vlan t1 and ... and vlan tv and mpls l1 and ... and mpls lk`. */
  function StackFilter(tags: seq<Word>, labels: seq<Word>): Filter
    requires |tags| + |labels| > 0
    decreases |tags| + |labels|
  {
    if labels != [] then
      var last := Mpls(Some(labels[|labels| - 1]));
      if |tags| + |labels| == 1 then last else Both(StackFilter(tags, labels[..|labels| - 1]), last)
    else
      var last := Vlan(Some(tags[|tags| - 1]));
      if |tags| == 1 then last else Both(StackFilter(tags[..|tags| - 1], []), last)
  }

  /** The layout behind `v` tags and `k` labels. */
  function StackEnv(v: nat, k: nat): Env
    requires 4 * (v + k) + 64 < WORD_LIMIT
  {
    Env(12 + 4 * v, 14 + 4 * v + 4 * k, 17 + 4 * v + 4 * k, k)
  }

  /** Tag `i`: its type field and, in the low 12 bits of what follows, its identifier. */
  predicate TagAt(d: seq<Byte>, i: nat, tag: Word) {
    16 + 4 * i <= |d| && U16(d, 12 + 4 * i) == 0x8100 && U16(d, 14 + 4 * i) % 4096 == tag
  }

  /** A label stack entry: the label in the upper 20 bits, as in section 2.1 of RFC 3032. */
  predicate LabelAt(d: seq<Byte>, at: nat, value: Word) {
    at + 4 <= |d| && U32(d, at) / 4096 == value
  }

  /** The tags in order, then the MPLS type, then the labels in order, none but the last
      the bottom of the stack. */
  predicate StackMatches(d: seq<Byte>, tags: seq<Word>, labels: seq<Word>) {
    var v := |tags|;
    && (forall i {:trigger tags[i]} :: 0 <= i < v ==> TagAt(d, i, tags[i]))
    && (labels != [] ==> 14 + 4 * v <= |d| && U16(d, 12 + 4 * v) == 0x8847)
    && LabelsMatch(d, v, labels) && NoneBottom(d, v, |labels| - 1)
  }

  predicate LabelsMatch(d: seq<Byte>, v: nat, labels: seq<Word>) {
    forall j {:trigger LabelOf(d, v, labels, j)} :: 0 <= j < |labels| ==> LabelOf(d, v, labels, j)
  }

  /** Label `j` of the stack behind `v` tags. */
  predicate LabelOf(d: seq<Byte>, v: nat, labels: seq<Word>, j: nat)
    requires j < |labels|
  {
    LabelAt(d, 14 + 4 * v + 4 * j, labels[j])
  }

  predicate NoneBottom(d: seq<Byte>, v: nat, n: int) {
    forall j {:trigger Inner(d, v, j)} :: 0 <= j < n ==> Inner(d, v, j)
  }

  predicate Inner(d: seq<Byte>, v: nat, j: nat) {
    Bottom(d, 14 + 4 * v + 4 * j, false)
  }

  lemma EnvAfterTag(v: nat)
    requires 4 * v + 68 < WORD_LIMIT
    ensures AfterVlan(StackEnv(v, 0)) == StackEnv(v + 1, 0)
  {
  }

  lemma EnvAfterLabel(v: nat, k: nat)
    requires 4 * (v + k) + 68 < WORD_LIMIT
    ensures AfterMpls(StackEnv(v, k)) == StackEnv(v, k + 1)
  {
  }

  lemma {:induction false} TagsAfter(tags: seq<Word>)
    requires |tags| > 0 && 4 * |tags| + 64 < WORD_LIMIT
    ensures Shifts(StackFilter(tags, []), StackEnv(|tags|, 0))
    decreases |tags|
  {
    var v := |tags|;
    EnvAfterTag(v - 1);
    if v > 1 {
      TagsAfter(tags[..v - 1]);
      ShiftsBoth(StackFilter(tags[..v - 1], []), Vlan(Some(tags[v - 1])), StackEnv(v - 1, 0));
    } else {
      assert ETHERNET == StackEnv(0, 0);
      ShiftsIs(Vlan(Some(tags[0])), StackEnv(1, 0));
    }
  }

  /** The layout behind the filter, on Ethernet. */
  ghost predicate Shifts(f: Filter, env: Env) {
    forall u {:trigger Opened(u)} :: Opened(u) ==> After(f, ETHERNET) == env
  }

  lemma ShiftsIs(f: Filter, env: Env)
    ensures Shifts(f, env) <==> After(f, ETHERNET) == env
  {
    assert Opened(Key);
  }

  lemma ShiftsBoth(l: Filter, r: Filter, env: Env)
    requires Shifts(l, env)
    ensures Shifts(Both(l, r), After(r, env))
  {
    ShiftsIs(l, env);
    ShiftsIs(Both(l, r), After(r, env));
  }

  lemma {:induction false} StackAfter(tags: seq<Word>, labels: seq<Word>)
    requires |tags| + |labels| > 0 && 4 * (|tags| + |labels|) + 64 < WORD_LIMIT
    ensures Shifts(StackFilter(tags, labels), StackEnv(|tags|, |labels|))
    decreases |labels|
  {
    var v, k := |tags|, |labels|;
    if labels == [] {
      TagsAfter(tags);
    } else {
      EnvAfterLabel(v, k - 1);
      if v + k > 1 {
        StackAfter(tags, labels[..k - 1]);
        ShiftsBoth(StackFilter(tags, labels[..k - 1]), Mpls(Some(labels[k - 1])), StackEnv(v, k - 1));
      } else {
        assert ETHERNET == StackEnv(0, 0);
        ShiftsIs(Mpls(Some(labels[0])), StackEnv(0, 1));
      }
    }
  }

  /** A field compared under a mask. */
  lemma MaskedField(env: Env, rel: OffRel, offset: Word, size: Size, v: Word, mask: Word, p: Packet)
    requires !rel.OrTranIpv4? && mask != FULL_MASK
    ensures
      var at := Wrap(Base(env, rel) + offset);
      FieldMeaning(env, rel, offset, size, MaskEquals(v, mask), p) == Accept <==>
      at + Width(size) <= |p.data| && BitAnd(BigEndian(p.data, at, size), mask) == v
  {
  }

  lemma MaskedHalf(env: Env, offset: Word, v: Word, p: Packet)
    requires v < 4096
    ensures FieldMeaning(env, OrLink, offset, HalfSize, MaskEquals(v, 0x0fff), p) == Accept <==>
            offset + 2 <= |p.data| && U16(p.data, offset) % 4096 == v
  {
    var mask: Word := 0x0fff;
    MaskedField(env, OrLink, offset, HalfSize, v, mask, p);
    assert Wrap(Base(env, OrLink) + offset) == offset;
    if offset + 2 <= |p.data| {
      HalfLoad(p, offset);
      MaskVlan(U16(p.data, offset));
    }
  }

  lemma SameLabel(x: Word, v: Word)
    requires v < 0x10_0000
    ensures x / 4096 * 4096 == Wrap(v * 4096) <==> x / 4096 == v
  {
  }

  lemma MaskedLabel(env: Env, offset: Word, v: Word, p: Packet)
    requires v < 0x10_0000
    ensures FieldMeaning(env, OrLink, offset, WordSize, MaskEquals(Wrap(v * 4096), 0xffff_f000), p) == Accept <==>
            LabelAt(p.data, offset, v)
  {
    var mask: Word := 0xffff_f000;
    MaskedField(env, OrLink, offset, WordSize, Wrap(v * 4096), mask, p);
    assert Wrap(Base(env, OrLink) + offset) == offset;
    if offset + 4 <= |p.data| {
      WordLoad(p, offset);
      MaskLabel(U32(p.data, offset));
      SameLabel(U32(p.data, offset), v);
    }
  }

  lemma MaskedBit(env: Env, rel: OffRel, offset: Word, isSet: bool, p: Packet)
    requires !rel.OrTranIpv4?
    ensures
      var at := Wrap(Base(env, rel) + offset);
      FieldMeaning(env, rel, offset, ByteSize, MaskEquals(if isSet then 1 else 0, 1), p) == Accept <==>
      at < |p.data| && p.data[at] % 2 == if isSet then 1 else 0
  {
    var at := Wrap(Base(env, rel) + offset);
    MaskedField(env, rel, offset, ByteSize, if isSet then 1 else 0, 1, p);
    if at < |p.data| {
      Mask1(p.data[at]);
    }
  }

  lemma MaskedVersion(env: Env, n: Byte, p: Packet)
    requires n < 16
    ensures FieldMeaning(env, OrNet, 0, ByteSize, MaskEquals(16 * n, 0xf0), p) == Accept <==>
            env.offNl < |p.data| && p.data[env.offNl] / 16 == n
  {
    assert Wrap(Base(env, OrNet) + 0) == env.offNl;
    MaskedField(env, OrNet, 0, ByteSize, 16 * n, 0xf0, p);
    if env.offNl < |p.data| {
      MaskVersion(p.data[env.offNl]);
    }
  }

  /** One more tag behind `v` others. */
  lemma TagExact(v: nat, tag: Word, p: Packet)
    requires 4 * v + 64 < WORD_LIMIT && tag < 4096
    ensures Admits(Vlan(Some(tag)), StackEnv(v, 0), p) <==> TagAt(p.data, v, tag)
  {
    var env := StackEnv(v, 0);
    HalfField(env, OrLink, env.offLinktype, 0x8100, p);
    MaskedHalf(env, env.offNl, tag, p);
    AdmitsIs(Vlan(Some(tag)), env, p);
  }

  /** Any tag behind `v` others. */
  lemma AnyTagExact(v: nat, p: Packet)
    requires 4 * v + 64 < WORD_LIMIT
    ensures Meaning(Vlan(None), StackEnv(v, 0), p) == Accept <==>
      14 + 4 * v <= |p.data| && U16(p.data, 12 + 4 * v) == 0x8100
  {
    HalfField(StackEnv(v, 0), OrLink, 12 + 4 * v, 0x8100, p);
  }

  /** What a label filter looks at before the label: the entry above it, or the type. */
  lemma AboveExact(v: nat, k: nat, p: Packet)
    requires 4 * (v + k) + 64 < WORD_LIMIT
    ensures MplsMeaning(None, StackEnv(v, k), p) == Accept <==>
            if k > 0 then Bottom(p.data, 14 + 4 * v + 4 * (k - 1), false)
            else 14 + 4 * v <= |p.data| && U16(p.data, 12 + 4 * v) == 0x8847
  {
    var env := StackEnv(v, k);
    if k > 0 {
      assert Wrap(env.offNl - 2) == env.offNl - 2;
      MaskedBit(env, OrLink, Wrap(env.offNl - 2), false, p);
    } else {
      HalfField(env, OrLink, env.offLinktype, 0x8847, p);
    }
  }

  /** One more label behind `v` tags and `k` labels. */
  lemma LabelExact(v: nat, k: nat, value: Word, p: Packet)
    requires 4 * (v + k) + 64 < WORD_LIMIT && value < 0x10_0000
    ensures Admits(Mpls(Some(value)), StackEnv(v, k), p) <==>
            && (if k > 0 then Bottom(p.data, 14 + 4 * v + 4 * (k - 1), false)
                else 14 + 4 * v <= |p.data| && U16(p.data, 12 + 4 * v) == 0x8847)
            && LabelAt(p.data, 14 + 4 * v + 4 * k, value)
  {
    var env := StackEnv(v, k);
    AdmitsIs(Mpls(Some(value)), env, p);
    AboveExact(v, k, p);
    MaskedLabel(env, env.offNl, value, p);
    BothAccept(MplsMeaning(None, env, p),
               FieldMeaning(env, OrLink, env.offNl, WordSize, MaskEquals(Wrap(value * 4096), 0xffff_f000), p));
  }

  /** The filter accepts the packet. */
  ghost predicate Admits(f: Filter, env: Env, p: Packet) {
    forall u {:trigger Opened(u)} :: Opened(u) ==> Meaning(f, env, p) == Accept
  }

  lemma AdmitsIs(f: Filter, env: Env, p: Packet)
    ensures Admits(f, env, p) <==> Meaning(f, env, p) == Accept
  {
    assert Opened(Key);
  }

  lemma AdmitsBoth(l: Filter, r: Filter, env: Env, p: Packet)
    requires Shifts(l, env)
    ensures Admits(Both(l, r), ETHERNET, p) <==> Admits(l, ETHERNET, p) && Admits(r, env, p)
  {
    ShiftsIs(l, env);
    AdmitsIs(Both(l, r), ETHERNET, p);
    AdmitsIs(l, ETHERNET, p);
    AdmitsIs(r, env, p);
    BothAccept(Meaning(l, ETHERNET, p), Meaning(r, env, p));
  }

  lemma LabelLast(v: nat, labels: seq<Word>, p: Packet)
    requires labels != [] && 4 * (v + |labels|) + 64 < WORD_LIMIT && labels[|labels| - 1] < 0x10_0000
    ensures Admits(Mpls(Some(labels[|labels| - 1])), StackEnv(v, |labels| - 1), p) <==> LastLabel(p.data, v, labels)
  {
    var k := |labels| - 1;
    LabelExact(v, k, labels[k], p);
    if k > 0 {
      assert Inner(p.data, v, k - 1) <==> Bottom(p.data, 14 + 4 * v + 4 * (k - 1), false);
    }
    assert LabelOf(p.data, v, labels, k) <==> LabelAt(p.data, 14 + 4 * v + 4 * k, labels[k]);
  }

  /** A stack of tags and labels, of any depth. */
  lemma {:induction false} StackExact(tags: seq<Word>, labels: seq<Word>, p: Packet)
    requires |tags| + |labels| > 0 && 4 * (|tags| + |labels|) + 64 < WORD_LIMIT
    requires forall i :: 0 <= i < |tags| ==> tags[i] < 4096
    requires forall j :: 0 <= j < |labels| ==> labels[j] < 0x10_0000
    ensures Admits(StackFilter(tags, labels), ETHERNET, p) <==> StackMatches(p.data, tags, labels)
    decreases |tags| + |labels|
  {
    var v, k := |tags|, |labels|;
    assert ETHERNET == StackEnv(0, 0);
    if labels != [] {
      var last := Mpls(Some(labels[k - 1]));
      LabelLast(v, labels, p);
      StackMore(p.data, tags, labels);
      if v + k > 1 {
        var rest := StackFilter(tags, labels[..k - 1]);
        StackAfter(tags, labels[..k - 1]);
        StackExact(tags, labels[..k - 1], p);
        AdmitsBoth(rest, last, StackEnv(v, k - 1), p);
      }
    } else {
      TagsExact(tags, p);
    }
  }

  lemma {:induction false} TagsExact(tags: seq<Word>, p: Packet)
    requires |tags| > 0 && 4 * |tags| + 64 < WORD_LIMIT && forall i :: 0 <= i < |tags| ==> tags[i] < 4096
    ensures Admits(StackFilter(tags, []), ETHERNET, p) <==> StackMatches(p.data, tags, [])
    decreases |tags|
  {
    var v := |tags|;
    assert ETHERNET == StackEnv(0, 0);
    var last := Vlan(Some(tags[v - 1]));
    TagExact(v - 1, tags[v - 1], p);
    TagsMore(p.data, tags);
    if v > 1 {
      var rest := StackFilter(tags[..v - 1], []);
      TagsAfter(tags[..v - 1]);
      TagsExact(tags[..v - 1], p);
      AdmitsBoth(rest, last, StackEnv(v - 1, 0), p);
    }
  }

  /** What the last label adds. */
  predicate LastLabel(d: seq<Byte>, v: nat, labels: seq<Word>)
    requires labels != []
  {
    var k := |labels|;
    && (if k > 1 then Inner(d, v, k - 2) else 14 + 4 * v <= |d| && U16(d, 12 + 4 * v) == 0x8847)
    && LabelOf(d, v, labels, k - 1)
  }

  lemma StackMore(d: seq<Byte>, tags: seq<Word>, labels: seq<Word>)
    requires labels != []
    ensures StackMatches(d, tags, labels) <==>
      StackMatches(d, tags, labels[..|labels| - 1]) && LastLabel(d, |tags|, labels)
  {
    LabelsMore(d, |tags|, labels);
    InnerMore(d, |tags|, |labels| - 1);
  }

  lemma LabelsMore(d: seq<Byte>, v: nat, labels: seq<Word>)
    requires labels != []
    ensures LabelsMatch(d, v, labels) <==>
      LabelsMatch(d, v, labels[..|labels| - 1]) && LabelOf(d, v, labels, |labels| - 1)
  {
    var l := labels[..|labels| - 1];
    forall j | 0 <= j < |l| ensures LabelOf(d, v, l, j) <==> LabelOf(d, v, labels, j) {
    }
    assert LabelsMatch(d, v, labels) ==> LabelsMatch(d, v, l) by {
      if LabelsMatch(d, v, labels) {
        forall j | 0 <= j < |l| ensures LabelOf(d, v, l, j) {
          assert LabelOf(d, v, labels, j);
        }
      }
    }
  }

  lemma InnerMore(d: seq<Byte>, v: nat, n: nat)
    ensures NoneBottom(d, v, n) <==> NoneBottom(d, v, n - 1) && (n > 0 ==> Inner(d, v, n - 1))
  {
  }

  lemma TagsMore(d: seq<Byte>, tags: seq<Word>)
    requires tags != []
    ensures StackMatches(d, tags, []) <==>
      StackMatches(d, tags[..|tags| - 1], []) && TagAt(d, |tags| - 1, tags[|tags| - 1])
  {
    var t := tags[..|tags| - 1];
    assert forall i {:trigger tags[i]} {:trigger t[i]} :: 0 <= i < |t| ==> tags[i] == t[i];
  }

  /** A test of the network layer, with or without labels in front. */
  lemma TypeExact(env: Env, t: EtherType, p: Packet)
    requires env.offLinktype + 2 < WORD_LIMIT && (env.labelDepth > 0 ==> env.offNl >= 4)
    ensures LinkTypeMeaning(env, t, p) == Accept <==> SaysType(env, t, p.data)
  {
    if env.labelDepth == 0 {
      HalfField(env, OrLink, env.offLinktype, EtherCode(t), p);
      if env.offLinktype + 2 <= |p.data| {
        TypeBytesCode(t, p.data, env.offLinktype);
      }
    } else {
      MaskedBit(env, OrNet, WORD_LIMIT - 2, true, p);
      assert Wrap(env.offNl + (WORD_LIMIT - 2)) == env.offNl - 2;
      MaskedVersion(env, IpVersion(t), p);
      BothAccept(FieldMeaning(env, OrNet, WORD_LIMIT - 2, ByteSize, MaskEquals(1, 1), p),
                 FieldMeaning(env, OrNet, 0, ByteSize, MaskEquals(16 * IpVersion(t), 0xf0), p));
    }
  }

  /** A port filter accepts exactly the packets that carry the port, behind tags and labels
      as well. */
  lemma PortExact(env: Env, port: Word, proto: PortProto, dir: Dir, p: Packet)
    requires env.offNl + 64 < WORD_LIMIT && env.offLinktype + 2 < WORD_LIMIT && (env.labelDepth > 0 ==> env.offNl >= 4)
    ensures PortMeaning(env, port, proto, dir, p) == Accept <==> CarriesPort(env, p.data, port, proto, dir)
  {
    TypeExact(env, EtherIp, p);
    PortOpExact(env, port, IPPROTO_UDP, dir, p);
    PortOpExact(env, port, IPPROTO_TCP, dir, p);
    PortOpExact(env, port, IPPROTO_SCTP, dir, p);
  }

  /** `... and ip` behind tags looks at the type field behind them, and behind a label stack
      at the last label's bottom-of-stack bit and the version nibble behind it; so does any
      other network layer that can be asked for there. */
  lemma EncapsulatedType(tags: seq<Word>, labels: seq<Word>, t: EtherType, p: Packet)
    requires |tags| + |labels| > 0 && 4 * (|tags| + |labels|) + 64 < WORD_LIMIT
    requires forall i :: 0 <= i < |tags| ==> tags[i] < 4096
    requires forall j :: 0 <= j < |labels| ==> labels[j] < 0x10_0000
    requires LinkTypeKnown(StackEnv(|tags|, |labels|), t)
    ensures Admits(Both(StackFilter(tags, labels), Ether(t)), ETHERNET, p) <==>
      StackMatches(p.data, tags, labels) && SaysType(StackEnv(|tags|, |labels|), t, p.data)
  {
    StackExact(tags, labels, p);
    StackAfter(tags, labels);
    TypeBehind(StackFilter(tags, labels), StackEnv(|tags|, |labels|), t, p);
  }

  lemma TypeBehind(stack: Filter, env: Env, t: EtherType, p: Packet)
    requires Shifts(stack, env) && env.offLinktype + 2 < WORD_LIMIT && env.offNl >= 4
    ensures Admits(Both(stack, Ether(t)), ETHERNET, p) <==> Admits(stack, ETHERNET, p) && SaysType(env, t, p.data)
  {
    AdmitsBoth(stack, Ether(t), env, p);
    AdmitsIs(Ether(t), env, p);
    TypeExact(env, t, p);
  }

  /** A port behind a stack of tags and labels. */
  lemma EncapsulatedPort(tags: seq<Word>, labels: seq<Word>, port: Word, proto: PortProto, dir: Dir, p: Packet)
    requires |tags| + |labels| > 0 && 4 * (|tags| + |labels|) + 128 < WORD_LIMIT
    requires forall i :: 0 <= i < |tags| ==> tags[i] < 4096
    requires forall j :: 0 <= j < |labels| ==> labels[j] < 0x10_0000
    ensures Admits(Both(StackFilter(tags, labels), Port(port, proto, dir)), ETHERNET, p) <==>
      StackMatches(p.data, tags, labels) && CarriesPort(StackEnv(|tags|, |labels|), p.data, port, proto, dir)
  {
    StackExact(tags, labels, p);
    StackAfter(tags, labels);
    PortBehind(StackFilter(tags, labels), StackEnv(|tags|, |labels|), port, proto, dir, p);
  }

  lemma PortBehind(stack: Filter, env: Env, port: Word, proto: PortProto, dir: Dir, p: Packet)
    requires Shifts(stack, env) && env.offNl + 64 < WORD_LIMIT && env.offLinktype + 2 < WORD_LIMIT && env.offNl >= 4
    ensures Admits(Both(stack, Port(port, proto, dir)), ETHERNET, p) <==>
      Admits(stack, ETHERNET, p) && CarriesPort(env, p.data, port, proto, dir)
  {
    AdmitsBoth(stack, Port(port, proto, dir), env, p);
    AdmitsIs(Port(port, proto, dir), env, p);
    PortExact(env, port, proto, dir, p);
  }
}
