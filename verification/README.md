# The filter compiler

A model of libpcap's BPF filter compiler: the code generator (`pcap/gencode.c`), the
optimizer and the linearizer (`pcap/optimize.c`), and the retargeting of a finished
program to the Linux kernel's cooked mode (`pcap/pcap-linux.c`). It follows a filter
expression from its three-valued meaning on a packet (accept, reject, abort) through the
block graph and the optimizer's passes to the flat program, and says at every step what
the verdict on every packet is.

The main results:

* `Compiler.PcapCompile`: for every filter expression of the modelled language, the
  generator, backpatching and the linearizer together yield a program whose verdict on
  every packet is the expression's, whatever the registers hold, and which the kernel's
  validity check accepts. Compilation is refused exactly when nothing of a packet is to be
  kept, some construct is not available or an expression needs more than 16 registers; and
  a filter of ordinary size is never too large (`Compiler.Room` is read off the filter).
* `Optimizer.CompileOptimized`: the same with jump threading, rewriting of statements,
  dead-store removal and block interning in between, each of which has done what it can,
  for every packet on which the expression has an answer. It holds of every steady filter (`Compiler.SteadyFilter`): in
  it nothing is divided by a constant 0, and a constant that is divided or shifted by a
  constant is one on which folding agrees with the machine. Of the others it holds under
  conditions on the constants the optimizer has found. Each pass works on facts computed
  afresh for the graph it is given.
* Each analysis is exact (levels, dominators, edge dominators, closure, liveness) or sound
  (value numbers) for all paths or runs; each transformation (threading,
  pulling tests up, rewriting statements, peephole changes, deleting stores, merging
  blocks, retargeting) keeps the verdict under conditions that are stated, and where the
  code does not keep what it promises, the exact condition is.

How the modules fit together:

* `Bpf` (the machine), `Flow` (block graphs and their runs), `Lists`, `Seal` (a way to keep
  large predicates folded), `Atoms`, `Runs` and `Traces` (what statements read and write,
  runs block by block).
* `Language` (expressions and their meaning), `Fragment`, `Backpatch`, `Fields`, `Codegen`,
  `Arithmetic`, `Compiler`; `Wire`, `Masks`, `Items`, `Headers` and `Guards` say what the
  meanings amount to in the bytes of a packet, without using the routines they share with
  the generator.
* `Layout`, `Linearize`, `Validity`.
* `Dag`, `Levels`, `Sweep`, `PathFacts`, `Liveness`, `LivePaths`, `DeadStores`, `Values`,
  `Folding`, `Numbering`, `Constancy`, `ValueSweep`, `Sizes`, `Peephole`, `Rewriting`, `JumpThread`,
  `Pullup`, `Interning`, `Renumber`, `Optimizer`; `Shortfalls` holds filters on which the
  optimizer does not keep what it promises.
* `Kernel`.

Conventions. Words are 32-bit and unsigned. Blocks are named by their index in a pool, as
they are by their address in the source, with -1 for the null pointer; fields are updated
in place and lists are threaded through the blocks as in the source. A graph is acyclic
when a rank falls along its edges (`Flow.WellFormed`). A block is closed when it reads
only atoms it has itself written (`Runs.ClosedBlock`); `Compiler.Generate` shows that the
generator makes no others. The hash function of the value table is arbitrary.

Where the code does not do what it says:

* The comments say an item is loaded only if the packet contains its protocol
  (`pcap/gencode.c:5490-5555`), but `gen_arth` keeps the checks of the left operand only
  (`pcap/gencode.c:5676-5700`). `Guards.DroppedCheck` is a filter and a packet that show
  it; `Guards.ChecksSuffice` says exactly for which comparisons it makes no difference.
* `fold_op` computes on signed integers what the machine computes on unsigned words
  (`pcap/optimize.c:622-677`); `Folding.FoldDisagrees` is a case where it matters, and
  `Folding.FoldExact` says exactly for which constants the results agree. Rewriting is
  proved for graphs in which no fold that is performed meets others (`ValueSweep.Good`).
  That can be read off the numbers the pass has computed and does not depend on the run;
  it concerns division, right shifts, and shifts by 32 or more. `Compiler.SteadyFilter`
  can be read off the filter.
* A division by X becomes a division by a constant when X is known, also when it is known
  to be 0 (`pcap/optimize.c:1062-1069`), and the validity check then refuses the program.
  `Rewriting.RewrittenZeroFree` says exactly when, and `Shortfalls.DivisionRefused` shows
  it for `ether[0] / 0 = 1`.
* Pulling a test up runs its loads earlier: a packet too short for the pulled test loses a
  verdict that an earlier test of the chain would have given. `Shortfalls.PullLosesVerdict`
  is a filter and a packet that show it; `Pullup.MovedExact` and `Optimizer.PullTest` say
  exactly on which packets the verdict is kept.
* `opt_peep` takes a test of all 32 bits always to hold (`pcap/optimize.c:898-907`), which it
  does not for a word of 0. `Peephole.AllOnesLost` is a block and a packet;
  `Peephole.PeepedBlock` says exactly when a changed block goes the wrong way.
* `fix_offset` moves the offset of indirect loads as well (`pcap/pcap-linux.c:2074-2090`),
  which changes the address when it wraps around into the header:
  `Kernel.WrappedLoadRejected` is such a program, `Kernel.IndirectExact` the condition.
* `vstore` drops a store when the atom already has the number to be stored, also when that
  number is 0 for unknown (`pcap/optimize.c:609-620`); `Numbering.UnknownCopyDropped` is a
  case where it matters. `Numbering.DropExact`: dropping a copy is right exactly when the
  number is not 0. Only a graph with a block that reads an atom which its predecessors do
  not agree on and which it has not written itself gets there (`Numbering.KnownCopies`);
  graphs of closed blocks never do.

## Model

| member | source | states |
|---|---|---|
| `Backpatch.Pool.BackPatch` | pcap/gencode.c:439-456 | walking a list through JT or JF by each block's own sense, every block on it gets the target in that field and nothing else changes |
| `Backpatch.Pool.Merge` | pcap/gencode.c:461-474 | two disjoint lists threaded through the blocks become one, read in order |
| `Backpatch.Pool.GenAnd` | pcap/gencode.c:502-512 | the pending expression whose yes exits were the left operand's is the joined one: left yes exits lead to the right head, the no lists are merged; blocks of neither operand are untouched |
| `Backpatch.Pool.GenOr` | pcap/gencode.c:514-523 | the same with yes and no exchanged |
| `Backpatch.Pool.GenNot` | pcap/gencode.c:525-530 | flipping one block's sense turns the expression into its negation, both lists exchanged |
| `Backpatch.Pool.NewTest` | pcap/gencode.c:304-327 | a fresh block is a pending expression of one test, both exits open |
| `Backpatch.Pool.FinishParse` | pcap/gencode.c:475-499 | the graph in memory is the expression closed: yes exits go to a leaf returning the snapshot length, no exits to one returning 0, and the root is the head |
| `Backpatch.JoinPending` | pcap/gencode.c:502-523 | the two-list invariant (true exits, false exits, each threaded by sense) holds of the result of joining two expressions |
| `Fragment.AndDenotes` | pcap/gencode.c:502-512 | joining on yes exits is three-valued short-circuit conjunction, for every initial state and packet |
| `Fragment.OrDenotes` | pcap/gencode.c:514-523 | joining on no exits is three-valued short-circuit disjunction |
| `Fragment.NotDenotes` | pcap/gencode.c:525-530 | exchanging the exits is three-valued negation |
| `Fragment.CloseWf` | pcap/gencode.c:475-499 | the closed graph is acyclic and has no open exit |
| `Fragment.CloseRun` | pcap/gencode.c:475-499 | the closed graph reaches the snapshot-length leaf exactly when the expression accepts, the 0 leaf exactly when it rejects, and aborts exactly when it aborts |
| `Fields.LoadLeaves` | pcap/gencode.c:1292-1350 | the loading statements leave the field's value in the accumulator, and abort exactly when the packet does not hold the field |
| `Fields.FieldReversed` | pcap/gencode.c:632-656 | a reversed comparison is the negation of the direct one, aborts staying aborts |
| `Codegen.CodeGen.GenNcmp` | pcap/gencode.c:632-656 | one block that masks and compares a field means the field test |
| `Codegen.CodeGen.GenLen` | pcap/gencode.c:5740-5775 | `len` comparisons mean the comparison with the length on the wire |
| `Codegen.CodeGen.GenIpfrag` | pcap/gencode.c:3728-3743 | accepts exactly packets whose fragment offset is zero |
| `Codegen.CodeGen.GenBcmp` | pcap/gencode.c:587-624 | for a byte string of any positive length, the chain cut from the tail in as many words as there are, a half word and a byte accepts exactly when the packet reaches the end of the string and holds those bytes |
| `Codegen.CodeGen.Chunks` | pcap/gencode.c:587-624 | each width is used while that many bytes are left, and the chain built so far always tests exactly the bytes behind the cut |
| `Codegen.ChunkTail` | pcap/gencode.c:587-624 | testing the bytes behind a chunk and then the chunk tests everything from its first byte, each byte once |
| `Fields.BigEndianInjective` | pcap/gencode.c:587-624 | a load equals the constant made of some bytes exactly when the packet holds those bytes |
| `Codegen.CodeGen.GenLinktype` | pcap/gencode.c:1911-1960 | one test of the type field, or, behind a label stack, of the bottom-of-stack bit and the IP version (in bytes: `Headers.TypeExact`) |
| `Codegen.CodeGen.GenPortop` | pcap/gencode.c:3771-3810 | the chain for one protocol: protocol number, first fragment, then the ports by direction |
| `Codegen.CodeGen.GenPort` | pcap/gencode.c:3812-3859 | the whole port test, with the three protocols tried when none is named |
| `Codegen.CodeGen.GenVlan` | pcap/gencode.c:6354-6423 | the tag test at the offsets before the call; later tests see them moved by 4; refused exactly behind a label stack |
| `Codegen.CodeGen.GenMpls` | pcap/gencode.c:6428-6492 | the label test, the entry above not being the bottom of the stack; later tests see the network offset moved by 4 |
| `Headers.PortExact` | pcap/gencode.c:3728-3859 | a port filter, behind tags and labels or not, accepts exactly unfragmented or first-fragment IPv4 packets of protocol 17, 6 or 132, as asked, that hold the port at 4*IHL behind the network header (section 3.1 of RFC 791) |
| `Headers.StackExact` | pcap/gencode.c:6354-6492 | any stack of tags and labels accepts exactly frames with those identifiers in order, and no label before the last marked bottom of stack |
| `Headers.TypeExact` | pcap/gencode.c:1911-1960 | a test of the network layer accepts exactly when the type field holds that layer's two bytes (8,0 for IP, 0x86,0xdd for IPv6, 8,6 for ARP, 0x80,0x35 for RARP, 0x88,0x47 for MPLS), or, behind labels, the last one is marked bottom of stack and the version nibble is 4, or 6 for IPv6 |
| `Headers.AnyTagExact` | pcap/gencode.c:6354-6423 | `vlan` without an identifier accepts exactly frames with a tag |
| `Headers.EncapsulatedType` | pcap/gencode.c:3129-3156 | behind any stack of tags and labels, a test of the network layer looks at the type field, or, if there are labels, at the bottom-of-stack bit of the last one and at the version nibble (section 2.1 of RFC 3032) |
| `Headers.EncapsulatedPort` | pcap/gencode.c:3812-3859 | a port test behind any stack of tags and labels accepts exactly frames with that stack whose network layer, 4 bytes further for each, carries the port |
| `Masks.MaskLabel` | pcap/gencode.c:6480-6487 | the mask selects the upper 20 bits |
| `Masks.MaskFragment` | pcap/gencode.c:3728-3743 | the mask selects the 13-bit fragment offset |
| `Items.ItemExact` | pcap/gencode.c:5342-5572 | an item of 1, 2 or 4 bytes at the offset, at the offset behind the link layer, or behind 4*IHL more, is the number these bytes make, the highest first; there is a value exactly when the packet holds all of them |
| `Items.ItemKnown` | pcap/gencode.c:5351-5369 | items of 1, 2 and 4 bytes are accepted and no others, and behind a label stack only those of IP among the network layers |
| `Items.FieldExact` | pcap/gencode.c:1292-1350 | a field test looks at the number made of the field's bytes and the bits its mask selects; it aborts exactly when the packet does not hold the field |
| `Items.BytesExact` | pcap/gencode.c:587-624 | a byte string is compared with the bytes from its address on, and aborts exactly when the packet does not reach its end |
| `Items.LengthExact` | pcap/gencode.c:5740-5775 | a length test compares the length on the wire as asked |
| `Items.BinExact` | pcap/gencode.c:5676-5700 | an operation has the sum, difference, product or quotient of its operands in their order mod 2^32, or the bits that and, or and shifts make; no value without both operands or with divisor 0 |
| `Items.MinusExact` | pcap/gencode.c:5658-5674 | a negated value is its difference from 0 mod 2^32 |
| `Items.ConnectivesExact` | pcap/gencode.c:502-530 | `and`, `or` and `not` accept as expected; an operand that is not needed is not asked and cannot abort |
| `Wire.LoadIs` | pcap/bpf/net/bpf_filter.c:247-297 | a load takes 4, 2 or 1 bytes, all of which the packet must hold, the highest first |
| `Wire.CompareIs` | pcap/bpf/net/bpf_filter.c:398-432 | the tests are equality, the two unsigned orderings and having a bit in common |
| `Wire.AluBits` | pcap/bpf/net/bpf_filter.c:434-498 | and, or and the two shifts, bit by bit |
| `Arithmetic.Registers.AllocReg` | pcap/gencode.c:5707-5728 | the first free register going round from the last one becomes used; allocation fails exactly when all 16 are in use |
| `Arithmetic.ArithCode.GenLoad` | pcap/gencode.c:5342-5572 | the item replaces its offset: the code computes it, other registers in use are not disturbed, and the protocol's checks are put behind those of the offset |
| `Arithmetic.ArithCode.GenArth` | pcap/gencode.c:5676-5700 | the combined code leaves the operation's value mod 2^32 in the result register and gives both operands' registers back |
| `Arithmetic.ArithCode.GenNeg` | pcap/gencode.c:5658-5674 | the code leaves the negated value in the same register |
| `Arithmetic.ArithCode.GenRelation` | pcap/gencode.c:5574-5618 | the block branches as the direct comparison of the two values, reversed on request, behind the protocol checks of both operands |
| `Arithmetic.ArithCode.Compile` | pcap/gencode.c:5313-5738 | any expression tree, left operand first, computes its value without clobbering a live register, and fails exactly when it is malformed or needs more registers than are free |
| `Arithmetic.TwoOperands` | pcap/gencode.c:5676-5700 | the left value survives the code of the right operand |
| `Arithmetic.BinComputes` | pcap/gencode.c:5676-5700 | the straight-line code of an operation computes it, or aborts exactly when a load or division has no result |
| `Arithmetic.LoadComputes` | pcap/gencode.c:5342-5572 | the straight-line code of an item computes it |
| `Arithmetic.FetchTests` | pcap/gencode.c:5574-5618 | subtract-and-compare-with-0 is equality mod 2^32, the other comparisons are made against X |
| `Guards.DroppedCheck` | pcap/gencode.c:5676-5700 | a comparison with an item in the right operand of an addition accepts a packet that does not carry the item's protocol |
| `Guards.ChecksSuffice` | pcap/gencode.c:5574-5618 | for any two operands behind any stack of tags and labels, passing the checks in front of the comparison guarantees the protocols of all items of both exactly when the checks kept contradict each other or already require what the dropped ones require |
| `Guards.GuardKept` | pcap/gencode.c:5606-5618 | the checks in front of a comparison pass exactly on packets that carry the protocols kept of both operands |
| `Guards.RelationExact` | pcap/gencode.c:5574-5618 | a comparison accepts exactly the packets that, byte by byte, carry the protocols kept and on which both operands have values that are equal, larger, not smaller, or share a bit, as asked |
| `Compiler.FilterCompiler.Compile` | pcap/gencode.c:349-397 | any filter expression becomes a pending expression with the filter's three-valued meaning, in an unchanged register table and the layout the expression leaves; refused exactly when some part is |
| `Compiler.BuiltAt` | pcap/gencode.c:349-397 | what the generator's routines chain together means what the filter says |
| `Compiler.PcapCompile` | pcap/gencode.c:349-397 | without the optimizer, the flat program gives the filter's answer on every packet from every register state: snapshot length, 0, or an abort; it passes validation; it is refused exactly when the snapshot length is 0 or the generator refuses the filter; and it is too large only if a size read off the filter reaches 2^32 |
| `Compiler.CompileEmpty` | pcap/gencode.c:382-383 | the empty expression always compiles, to a program that accepts every packet |
| `Compiler.Generate` | pcap/gencode.c:349-397 | the generated graph is acyclic, gives the filter's answer, divides by no constant, keeps within the size read off the filter, and each of its blocks reads only what it has itself written |
| `Compiler.RoomLinear` | pcap/gencode.c:349-397 | the code of a filter is no longer than 84 statements for each part of it |
| `Optimizer.CompileOptimized` | pcap/gencode.c:349-397 | a graph that answers as the filter does is threaded as far as edge dominators allow, then rewritten, then freed of exactly its dead stores, then merged until no two blocks do the same, and the program is that graph laid out; it gives the filter's answer on every packet on which it has one, and passes validation, for every steady filter: no divisor is a constant 0, and where a constant is divided or shifted by a constant, folding them agrees with the machine; for any other filter when no fold performed disagrees and no divisor was known to be 0; compilation fails only where a constant is divided by the constant 0, and never for a steady filter |
| `Linearize.Linearizer.ConvertCode` | pcap/optimize.c:2061-2213 | blocks are laid out from the end, each after its successors; a branch out of 8-bit range sets a long-jump flag and the pass fails |
| `Linearize.Linearizer.ConvertFully` | pcap/optimize.c:2229-2247 | the pass is repeated at most 2n+1 times, since every failure sets a flag that is never cleared |
| `Linearize.Linearizer.IcodeToFcode` | pcap/optimize.c:2220-2250 | the flat array has the verdict of the graph on every packet and state, jumps forward only, passes validation exactly when the graph does not divide by the constant 0, and every reserved slot holds its long jump |
| `Linearize.Linearizer.CountStmts` | pcap/optimize.c:1944-1955 | the count equals the sum of the block sizes, marks and all |
| `Layout.LaidRuns` | pcap/optimize.c:2061-2213 | code laid out as described runs as the graph does from every block |
| `Layout.DistGrows` | pcap/optimize.c:2176-2211 | branch distances never shrink when more long jumps are reserved |
| `Layout.JustifyMore` | pcap/optimize.c:2176-2211 | a reserved long jump stays needed in later passes, so it is filled |
| `Layout.BuiltValidates` | pcap/bpf/net/bpf_filter.c:515-566 | the finished program passes the validity check exactly when neither it nor the graph divides by the constant 0 |
| `Layout.BuiltRuns` | pcap/optimize.c:2061-2250 | the whole array, started at its first instruction, is the graph started at its root |
| `Validity.ValidatedEnds` | pcap/bpf/net/bpf_filter.c:515-566 | a program that passes the validity check stays within its instructions until it returns or a load, a divisor in X or a register makes a statement abort |
| `Levels.Leveler.FindLevels` | pcap/optimize.c:216-253 | each reachable block and no other is on the list of its distance from the leaves, once |
| `PathFacts.PathFinder.FindDom` | pcap/optimize.c:258-287 | one sweep down the levels reaches the fixpoint of the dominator equations |
| `PathFacts.PathFinder.FindEdom` | pcap/optimize.c:289-326 | the same for edges |
| `PathFacts.PathFinder.FindClosure` | pcap/optimize.c:334-357 | the same for the union equations of the backward closure |
| `PathFacts.DominatorsExact` | pcap/optimize.c:258-287 | a block is in the set exactly when every path from the root passes it |
| `PathFacts.EdgeDominatorsExact` | pcap/optimize.c:289-326 | an edge is in the set exactly when every path of edges from the root to this edge takes it |
| `PathFacts.ClosureExact` | pcap/optimize.c:334-357 | a block is in the set exactly when some path leads from it |
| `Sweep.EveryPath` | pcap/optimize.c:258-326 | visiting every node once, predecessors first, and intersecting computes exactly what lies on all paths |
| `Sweep.SomePath` | pcap/optimize.c:334-357 | with union instead, exactly what lies on some path |
| `Dag.HeightBound` | pcap/optimize.c:216-253 | levels are fewer than blocks, so the table of levels suffices |
| `Liveness.LiveSets.ComputeLocalUd` | pcap/optimize.c:448-505 | used is what is read before it is written, killed is what is written before it is read |
| `Liveness.LiveSets.FindUd` | pcap/optimize.c:510-534 | one sweep up the levels computes live-in and live-out of every reachable block, the sets of `LivePaths.LiveInExact` |
| `LivePaths.LiveInExact` | pcap/optimize.c:448-534 | an atom is live on entry to a block exactly when some path from the block reads it, in a statement or a branch, before anything on the path writes it |
| `LivePaths.LiveOutExact` | pcap/optimize.c:448-534 | it is live on exit exactly when such a path begins with a successor |
| `Liveness.LiveSound` | pcap/optimize.c:365-534 | two states that agree on a block's live-in have the same verdict from there, aborts included |
| `DeadStores.OptDeadstores` | pcap/optimize.c:1139-1184 | deleted are exactly the writes overwritten unread and those left unread and not wanted outside; every run that does not abort then agrees on the atoms wanted outside and by the branch |
| `LivePaths.DeadExact` | pcap/optimize.c:1139-1184 | a write counts as dead exactly when what it writes is read by no later statement before being overwritten, and by neither the branch nor anything behind the block unless overwritten |
| `DeadStores.DeadStorePass.OptAll` | pcap/optimize.c:1165-1184 | the pass over all blocks with live-out computed for the graph |
| `DeadStores.DeadStoresVerdict` | pcap/optimize.c:1139-1184 | the pass keeps the verdict of every run that does not abort |
| `Values.ValTable.F` | pcap/optimize.c:575-607 | the number returned names the expression; older numbers keep theirs; at most one is new |
| `Values.SameNumber` | pcap/optimize.c:575-607 | two numbers are equal exactly when their expressions are |
| `Values.DenGrows` | pcap/optimize.c:575-607 | a number keeps its meaning when more are handed out |
| `Numbering.OptStmt` | pcap/optimize.c:951-1137 | one statement, altered or not: refused exactly when it is to be altered and divides a known constant by the known constant 0; otherwise, from a state consistent with the known numbers and if folding agrees on the constants there are, a run that does not abort reaches the same state and the new numbers are right for it; the atom written gets the number of the expression computed, or of the constant or simpler expression it is altered to; altered, it no longer stores what is there or computes what is known, and divides by the constant 0 exactly if its divisor was known to be 0 |
| `Numbering.OptList` | pcap/optimize.c:951-1137 | the same for a statement list, with the numbers before each statement as a trace: A, X and M end up as in the original on every run if every fold on the trace agrees; refused only with the statement that divides a constant by 0 |
| `Numbering.RefusedAborts` | pcap/optimize.c:622-677 | a statement that is refused aborts in every state the numbers describe |
| `Numbering.DropExact` | pcap/optimize.c:609-620 | a copy between two atoms of equal number is dropped, and that is right in every state consistent with the known numbers exactly when the number is not 0 |
| `Numbering.UnknownCopyDropped` | pcap/optimize.c:609-620 | such a copy with number 0 and a state in which dropping it matters |
| `Numbering.KnownCopies` | pcap/optimize.c:609-620 | in a list that reads only atoms known on entry or written before, no copy has an unknown number |
| `Folding.FoldExact` | pcap/optimize.c:622-677 | folding on signed integers gives the machine's unsigned result exactly for the operands described, for every operation |
| `Folding.FoldDisagrees` | pcap/optimize.c:663-665 | a constant on which the folded right shift differs from the machine's |
| `Folding.NoEffectExact` | pcap/optimize.c:1014-1031 | the operations deleted are those by 0 that change no accumulator, subtraction excepted |
| `Folding.ClearsExact` | pcap/optimize.c:1014-1031 | those replaced by 0 are those by 0 that leave 0 whatever the accumulator is |
| `Numbering.OptFold` | pcap/optimize.c:622-677 | two known operands become a constant load, and only a division by zero is reported instead |
| `ValueSweep.JoinPreds` | pcap/optimize.c:1213-1239 | an atom keeps a number on entry exactly when all predecessors agree on it |
| `ValueSweep.BlockValues.FindInedges` | pcap/optimize.c:1643-1670 | each block's list holds exactly the edges into it from reachable blocks, once each |
| `ValueSweep.BlockValues.OptBlk` | pcap/optimize.c:1186-1284 | a block whose predecessors have been dealt with, closed or not: its entry numbers are those all predecessors bring, its exit numbers and new statements are those of its symbolic execution, and if all blocks so far are good they are true of every run; or the pass stops in it at a division of a constant by 0 |
| `ValueSweep.BlockValues.OptBlks` | pcap/optimize.c:1604-1618 | any acyclic graph: the pass fails only when rewriting and at a statement that divides a constant by 0; otherwise every reachable block has been executed, statement by statement, from exactly what its in-edges agree on, and if none reads an atom of unknown number and every fold agrees, every known exit number is the value the atom has on every run and the new statements do what the old ones did; no more numbers than two a statement and one a block were handed out |
| `ValueSweep.SpentUnderMaxVal` | pcap/optimize.c:2027-2038 | two numbers a statement and one a block stay below three for each |
| `Sizes.MaxValShrinks` | pcap/optimize.c:2027-2038 | tables sized once serve every later graph: blocks reachable and statements never become more from pass to pass |
| `ValueSweep.EntryFacts` | pcap/optimize.c:1206-1239 | the joined numbers are true of every run that enters the block, rewritten predecessors or not |
| `ValueSweep.ClosedTrue` | pcap/optimize.c:1604-1618 | without rewriting, in a graph of closed blocks every known number at the exit of every reachable block is the value the atom has on every run |
| `ValueSweep.StopAborts` | pcap/optimize.c:622-677 | every run that comes to the statement where the pass stopped aborts there |
| `Rewriting.RewrittenVerdict` | pcap/optimize.c:951-1137 | if no block reads an atom of unknown number and no fold performed disagrees with the machine, every run that does not abort has the same verdict in the rewritten graph |
| `Rewriting.RewrittenZeroFree` | pcap/optimize.c:1062-1069 | the rewritten graph divides by the constant 0 exactly if some reachable statement divides by what is known to be 0 there |
| `Rewriting.SteadyAgree` | pcap/optimize.c:951-1137 | whether every fold agrees and no divisor is known to be 0 can be read off the statements before the pass is run: in a graph of steady lists both hold, whatever is known on entry to a block |
| `Rewriting.SteadyNeverStops` | pcap/optimize.c:622-677 | the pass never stops in a graph of steady lists |
| `Rewriting.DeletedAfter` | pcap/optimize.c:1241-1271 | in a rewritten graph, deleting all statements of a block that returns, or behind which nothing is wanted and whose A and X leave with the numbers they enter with, keeps every verdict of a run that does not abort |
| `Rewriting.FoldedEnds` | pcap/optimize.c:951-1137 | a rewritten list that ends in an operation leaves an accumulator that is not known, so a merged test is never decided by a number that belongs to the old one |
| `Rewriting.PeepedAfter` | pcap/optimize.c:698-938 | with the constants rewriting has found and what is wanted behind the block, the peephole changes keep every verdict of a run that does not abort, unless the block tests all bits of a word that is 0; then the run goes on with the other successor |
| `Shortfalls.DivisionRefused` | pcap/optimize.c:1062-1069 | for the filter `ether[0] / 0 = 1`, which the generator accepts, the program of the graph as generated passes validation and the program of the rewritten graph does not |
| `Shortfalls.QuotientAnswers` | pcap/gencode.c:5574-5618 | the graph that is used there answers as that filter does, with an abort on every packet |
| `Peephole.OptPeep` | pcap/optimize.c:698-938 | the block after the scan over neighbouring statements, the merging of the last operation into the test and the decision of tests; it aborts as before, leaves what is wanted behind it as before, and goes on as before unless it tests all bits of 0 |
| `Peephole.ScannedRuns` | pcap/optimize.c:712-817 | a register read back, a constant copied to X and a constant offset folded into a load: the list aborts as before and leaves the same state, but for X where no successor, no branch and no last subtraction wants it |
| `Peephole.ScannedPairs` | pcap/optimize.c:724-745 | after the scan no register is loaded into X right after it is stored, and no constant goes to X by way of the accumulator |
| `Peephole.PeepedDone` | pcap/optimize.c:820-938 | after the changes no operation that could be part of an equality test is left in front of it, and a test taken to be decided leads to one place |
| `Peephole.TcpLoadFolded` | pcap/optimize.c:746-817 | the load of `tcp[2:2]`: the constant goes into the load and three statements are deleted |
| `Peephole.MergedHolds` | pcap/optimize.c:826-896 | subtract-then-compare and mask-then-compare-with-0, made one test of the accumulator before the operation, come out the same |
| `Peephole.PeepedBlock` | pcap/optimize.c:698-938 | for every block, state and packet: the changed block is right exactly when it does not test all bits of 0 |
| `Peephole.PeepedVerdict` | pcap/optimize.c:698-938 | in any graph, with what is live behind the block: a run that does not come to it keeps its verdict, aborts included, and one that does goes on as before, or the other way where the block tests all bits of 0 |
| `Peephole.AllOnesLost` | pcap/optimize.c:898-907 | a block that compares four masked bytes with 0, and a packet on which the changed block goes the wrong way |
| `Optimizer.RewriteStatements` | pcap/optimize.c:1604-1624 | levels, in-edges and one rewriting pass over any acyclic graph: it fails only at a division of a constant by 0; otherwise every reachable block is rewritten, nothing grows, and verdicts of runs that do not abort are kept if no block reads an atom of unknown number and every fold agrees |
| `JumpThread.DominatorTaken` | pcap/optimize.c:1363-1416 | control that passes an edge has passed its edge dominators |
| `JumpThread.DecidedRight` | pcap/optimize.c:1309-1361 | a test declared decided by an edge goes that way whenever the edge was taken |
| `JumpThread.Threader.OptJ` | pcap/optimize.c:1363-1416 | one edge is moved, onto the old trace and strictly lower, hop by hop: past a block whose branches agree, or past a test that an edge dominator has made, or made of the same accumulator for equality with another constant, and never where a wanted atom has another number; afterwards no edge dominator moves it any further; the repeated search ends |
| `JumpThread.Threader.Sweep` | pcap/optimize.c:1626-1631 | after the ascending sweep every edge still leads onto the old trace; and where an edge dominator has made the same test of an equal accumulator as the block the edge leads to, the successor on its side (with equal operands) or the false one (behind the true side of an equality test for another constant) is in data conflict; an edge may still end at a block whose two branches agree |
| `JumpThread.ThreadedWf` | pcap/optimize.c:1363-1416 | the graph stays acyclic |
| `JumpThread.ThreadedVerdict` | pcap/optimize.c:1363-1416 | every run that does not abort keeps its verdict, and the new trace is a subsequence of the old one |
| `Optimizer.ThreadJumps` | pcap/optimize.c:1604-1631 | levels, edge dominators, values and liveness computed for the graph, then the sweep: verdicts kept, no edge dominator moves any edge further, and only pointers have changed |
| `Pullup.SingleEntry` | pcap/optimize.c:1444-1502 | a chain member that the top of the chain dominates is entered from the member above it only |
| `Pullup.Puller.FindDiff` | pcap/optimize.c:1440-1461 | the block found ends a chain of dominated tests with the same exit |
| `Pullup.Puller.Pull` | pcap/optimize.c:1419-1602 | a test is moved exactly when all predecessors leave one number and the chain of dominated tests has the pattern looked for; then the pointers change as moving that test to the front requires, otherwise nothing does |
| `Pullup.Puller.RedirectIn` | pcap/optimize.c:1492-1500 | every predecessor's pointer to the block is redirected, both of them if both lead there |
| `Pullup.MovedWf` | pcap/optimize.c:1484-1502 | moving a test creates no cycle |
| `Pullup.MovedExact` | pcap/optimize.c:1419-1602 | from every block off the moved part of the chain, for every state and packet and both kinds of chain, the verdict is kept exactly when the pulled test does not abort, the run never comes to the place it is pulled to, or there was no verdict |
| `Pullup.PullExact` | pcap/optimize.c:1419-1602 | asking the pulled test first keeps the verdict of the chain exactly when that test does not abort or there was none |
| `Pullup.ChainValue` | pcap/optimize.c:1419-1602 | a verdict reached along the chain is the one reached with the later test asked first |
| `Optimizer.PullTest` | pcap/optimize.c:1419-1602 | with dominators, in-edges and values computed for the graph, and what these mean, one attempt moves a test exactly when all predecessors leave one number and the chain has the pattern; the program's verdict is then kept exactly when the pulled test does not abort, the run does not come to where it was pulled to, or there was none; blocks and statements have not become more |
| `Shortfalls.PullLosesVerdict` | pcap/optimize.c:1419-1602 | for the filter `ether[0] > 5 or ether[1] > 5 or ether[0] > ether[100]` the third test is moved, and a packet of two bytes that the filter accepts is no longer accepted |
| `Shortfalls.ThreeAnswers` | pcap/gencode.c:5574-5618 | the graph that is used there answers as that filter does |
| `Interning.EqSlist` | pcap/optimize.c:1788-1806 | the two lists are equal once deleted statements are skipped |
| `Interning.StripApart` | pcap/optimize.c:1788-1806 | skipping deleted statements goes statement by statement |
| `Interning.Interner.InternBlocks` | pcap/optimize.c:1820-1862 | every block is replaced by a representative: two reachable blocks with equal statements and branch whose successors have the same representatives have the same one; all pointers lead to representatives and only these are left; every run keeps its verdict, aborts included |
| `Interning.Interner.LinkBlocks` | pcap/optimize.c:1834-1846 | every reachable block with an equal one further on is linked to one that is not itself linked |
| `Interning.RootUnlinked` | pcap/optimize.c:1834-1846 | the root is never linked |
| `Interning.RoundShrinks` | pcap/optimize.c:1847-1862 | a round that moves a pointer leaves fewer blocks reachable |
| `Interning.RedirectedRun` | pcap/optimize.c:1847-1862 | following the links changes no run |
| `Renumber.Numberer.NumberBlocks` | pcap/optimize.c:1908-1924 | every reachable block gets a number, the root 0, and numbers and blocks are inverse to each other |
| `Renumber.RenamedRun` | pcap/optimize.c:1908-1924 | naming blocks by number changes no run |
| `Optimizer.Optimize` | pcap/optimize.c:1731-1757 | threading, rewriting, dead-store removal and merging one after the other, with tables sized once: each has done all it can on the graph the one before left; verdicts of runs that do not abort are kept if every fold agrees; blocks and statements have not become more; no division by the constant 0 unless a divisor was known to be 0 |
| `Optimizer.RemoveDeadStores` | pcap/optimize.c:1139-1184 | levels and liveness computed for any acyclic graph, then the pass: verdicts of runs that do not abort are kept |
| `Kernel.FixOffset` | pcap/pcap-linux.c:2074-2103 | an offset into the payload is moved down by the header length, the protocol's goes to the reserved offset, any other is refused and left |
| `Kernel.FixProgram` | pcap/pcap-linux.c:1981-2070 | the copy is the program rewritten instruction by instruction; it gives up exactly when a load refers to another header field |
| `Kernel.FixedAccepts` | pcap/pcap-linux.c:1981-2103 | on a payload and its protocol the rewritten program accepts exactly when the original accepts the whole frame, aborts included, when no indirect load of the run wraps into the header |
| `Kernel.IndirectExact` | pcap/pcap-linux.c:2074-2090 | a rewritten indirect load agrees with the original on all frames exactly when its address does not wrap into the header |
| `Kernel.WrappedLoadRejected` | pcap/pcap-linux.c:2074-2090 | a program whose indirect load wraps is accepted before and aborts after |
| `Kernel.VerdictsOnly` | pcap/pcap-linux.c:2020-2041 | outside cooked mode no packet changes sides |

## Left out

- The scanner and the grammar: filters are given as trees, and the generator's routines are called in the order the grammar's actions call them; names, addresses and services are numbers already.
- Link layers other than Ethernet, `inbound`, `host`, `net`, `portrange`, `protochain` and the address tests of 802.11: long case lists over the same building blocks.
- IPv6 transport tests, as in a build without INET6.
- opt_root and the fixpoint of opt_loop: the passes are proved one by one and in one row of four; `done` gives no measure.
- The order of passes inside opt_blk: there, the deletion of all statements, peephole changes and dead-store removal follow each block's symbolic execution at once, without renumbering and with liveness computed before the pass; here they are steps of their own, each on facts computed afresh, and the row of four passes in `Optimizer.Optimize` leaves the first two out.
- Memory exhaustion, longjmp and chunk freeing: allocation always succeeds; the one limit kept is that a program has fewer than 2^32 instructions (`Compiler.TooLarge`).
- The bit vectors behind dominator and liveness sets, the intrusive `link` fields of level lists and the pointer chains of the hash table: they are sets and sequences here.
- Loads within four bytes of the end of the 32-bit address space: the interpreter's bounds check wraps there, while a load in the model is out of range.
- Shifts by 32 or more: the machine of the model shifts everything out; the source language leaves them undefined, and folding them is allowed to give anything.
- Calls into the operating system: attaching the rewritten program is not part of this model.
- Optimizer.RewriteStatements: the verdict is claimed if no block reads an atom of unknown number and no fold disagrees with the machine (`Numbering.UnknownCopyDropped` and `Folding.FoldDisagrees` are the cases shut out).
- Numbering.OptStmt: speaks of runs that do not abort and that read no atom whose number is unknown.
- Codegen.CodeGen.GenLinktype: Ethernet type fields of five protocols only; the LLC and length-field cases of the link-type tests are left out.
- JumpThread.ThreadedVerdict: for graphs of closed blocks, as the generator makes them; nothing is claimed of graphs in which rewriting has left reads of other blocks' atoms.
- Peephole.PeepedVerdict: for blocks in which X is not read again after an indirect load has used it, unless written in between; the source counts on its generator for that (`pcap/optimize.c:755-762`), and it is not proved of the generator here.
- Kernel.FixedAccepts: for programs that refer to offset 14 by absolute half-word loads only and never load the packet length.
- Optimizer.CompileOptimized: without the pull-ups, which may lose verdicts on short packets; `Optimizer.PullTest` is their own statement. The answer "expression rejects all packets" for an optimized graph that is one rejecting leaf is not given.
