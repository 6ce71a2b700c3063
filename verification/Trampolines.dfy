/** The 32-bit trampoline builder: instructions at the start of a function are moved so that
    a jump can be written over them, and run the same from their new place. */
module Trampolines {

  type Byte = b: int | 0 <= b < 256
  type Memory = int -> Byte

  const MODULUS := 0x1_0000_0000
  const JMP_REL := 5
  const JMP_REL_SHORT := 2
  const JCC_REL := 6
  const MAX_IPS := 8
  const SLOT_SIZE := 32

  datatype Option<T> = None | Some(value: T)

  /** What the disassembler says about an instruction; the immediates are signed. */
  datatype RawInst = Inst(error: bool, len: int, opcode: int, opcode2: int, imm8: int, imm32: int)

  type Inst = i: RawInst |
      1 <= i.len <= 15 && 0 <= i.opcode < 256 && 0 <= i.opcode2 < 256 && (i.opcode2 != 0 ==> i.opcode == 0x0F)
    witness Inst(false, 1, 0x90, 0, 0, 0)

  /** The disassembler reads the bytes from an address on. */
  type Decoder = seq<Byte> -> Inst

  function Address(x: int): int {
    x % MODULUS
  }

  function Window(mem: Memory, at: int, n: nat): (w: seq<Byte>)
    ensures |w| == n && forall i :: 0 <= i < n ==> w[i] == mem(at + i)
  {
    seq(n, i requires 0 <= i < n => mem(at + i))
  }

  function Decode(hde: Decoder, mem: Memory, at: int): Inst {
    hde(Window(mem, at, 15))
  }

  // --- Kinds of instructions ---------------------------------------------------------

  predicate IsCall(i: Inst) {
    i.opcode == 0xE8
  }

  predicate IsJump(i: Inst) {
    i.opcode == 0xE9 || i.opcode == 0xEB
  }

  predicate IsShortJcc(i: Inst) {
    0x70 <= i.opcode < 0x80
  }

  predicate IsLoop(i: Inst) {
    0xE0 <= i.opcode < 0xE4
  }

  predicate IsBranch(i: Inst) {
    IsShortJcc(i) || IsLoop(i) || 0x80 <= i.opcode2 < 0x90
  }

  predicate IsReturn(i: Inst) {
    i.opcode == 0xC2 || i.opcode == 0xC3
  }

  /** The kinds as bit patterns of the opcode. */
  lemma KindsByMask(i: Inst)
    ensures IsCall(i) <==> i.opcode as bv8 == 0xE8
    ensures IsJump(i) <==> i.opcode as bv8 & 0xFD == 0xE9
    ensures IsBranch(i) <==>
      i.opcode as bv8 & 0xF0 == 0x70 || i.opcode as bv8 & 0xFC == 0xE0 || i.opcode2 as bv8 & 0xF0 == 0x80
    ensures IsLoop(i) <==> i.opcode as bv8 & 0xFC == 0xE0
    ensures IsReturn(i) <==> i.opcode as bv8 & 0xFE == 0xC2
  {
  }

  function ConditionCode(i: Inst): int {
    (if i.opcode != 0x0F then i.opcode else i.opcode2) % 16
  }

  function Displacement(i: Inst): int {
    if i.opcode == 0xEB || IsShortJcc(i) || IsLoop(i) then i.imm8 else i.imm32
  }

  /** Where a relative call, jump or branch at `at` leads. */
  function Destination(i: Inst, at: int): int {
    Address(at + i.len + Displacement(i))
  }

  // --- Relocating one instruction ----------------------------------------------------

  datatype Piece = Copied(len: int) | CallTo(dest: int) | JumpTo(dest: int) | BranchTo(cc: int, dest: int)

  datatype Move = Failed | Moved(piece: Piece, jmpDest: int, finished: bool)

  function Size(p: Piece): int {
    match p
    case Copied(len) => len
    case CallTo(_) => JMP_REL
    case JumpTo(_) => JMP_REL
    case BranchTo(_, _) => JCC_REL
  }

  predicate Internal(target: int, dest: int) {
    target <= dest < target + JMP_REL
  }

  function Farther(jmpDest: int, dest: int): int {
    if jmpDest < dest then dest else jmpDest
  }

  function Relocate(i: Inst, target: int, oldPos: int, jmpDest: int): Move {
    var at := target + oldPos;
    if i.error then Failed
    else if oldPos >= JMP_REL then Moved(JumpTo(at), jmpDest, true)
    else if IsCall(i) then Moved(CallTo(Destination(i, at)), jmpDest, false)
    else if IsJump(i) then
      var dest := Destination(i, at);
      if Internal(target, dest) then Moved(Copied(i.len), Farther(jmpDest, dest), false)
      else Moved(JumpTo(dest), jmpDest, at >= jmpDest)
    else if IsBranch(i) then
      var dest := Destination(i, at);
      if Internal(target, dest) then Moved(Copied(i.len), Farther(jmpDest, dest), false)
      else if IsLoop(i) then Failed
      else Moved(BranchTo(ConditionCode(i), dest), jmpDest, false)
    else Moved(Copied(i.len), jmpDest, IsReturn(i) && at >= jmpDest)
  }

  // --- The whole trampoline ----------------------------------------------------------

  datatype Entry = Entry(oldIP: nat, newIP: nat, piece: Piece)

  datatype Plan = Plan(entries: seq<Entry>, oldEnd: int, newEnd: int)

  /** The instructions from `oldPos` on, as they are moved to `newPos` on; `n` have been
      moved already. */
  function Build(hde: Decoder, mem: Memory, target: int, size: int, oldPos: nat, newPos: nat, n: nat, jmpDest: int): Option<Plan>
    decreases if oldPos < JMP_REL then JMP_REL - oldPos else 0
  {
    var i := Decode(hde, mem, target + oldPos);
    match Relocate(i, target, oldPos, jmpDest)
    case Failed => None
    case Moved(piece, jmpDest', finished) =>
      if target + oldPos < jmpDest' && Size(piece) != i.len then None
      else if newPos + Size(piece) > size || n >= MAX_IPS then None
      else
        var entry := Entry(oldPos, newPos, piece);
        if finished then Some(Plan([entry], oldPos + i.len, newPos + Size(piece)))
        else
          match Build(hde, mem, target, size, oldPos + i.len, newPos + Size(piece), n + 1, jmpDest')
          case None => None
          case Some(rest) => Some(rest.(entries := [entry] + rest.entries))
  }

  predicate IsCodePadding(mem: Memory, at: int, size: int) {
    && (mem(at) == 0x00 || mem(at) == 0x90 || mem(at) == 0xCC)
    && forall k :: at < k < at + size ==> mem(k) == mem(at)
  }

  datatype Patch = NoRoom | AtTarget | Above

  /** Where the jump to the detour can go once `oldEnd` bytes have been moved away. */
  function PatchPlace(mem: Memory, target: int, oldEnd: int, executableAbove: bool): Patch {
    if oldEnd >= JMP_REL || IsCodePadding(mem, target + oldEnd, JMP_REL - oldEnd) then AtTarget
    else if oldEnd < JMP_REL_SHORT && !IsCodePadding(mem, target + oldEnd, JMP_REL_SHORT - oldEnd) then NoRoom
    else if executableAbove && IsCodePadding(mem, target - JMP_REL, JMP_REL) then Above
    else NoRoom
  }

  function Create(hde: Decoder, mem: Memory, target: int, size: int, executableAbove: bool): Option<(Plan, Patch)> {
    match Build(hde, mem, target, size, 0, 0, 0, 0)
    case None => None
    case Some(plan) =>
      var patch := PatchPlace(mem, target, plan.oldEnd, executableAbove);
      if patch == NoRoom then None else Some((plan, patch))
  }

  // --- Bytes -------------------------------------------------------------------------

  function LittleEndian(x: int): (bytes: seq<Byte>)
    ensures |bytes| == 4
  {
    var u := x % MODULUS;
    [u % 256, u / 256 % 256, u / 65536 % 256, u / 16777216 % 256]
  }

  function Word(bytes: seq<Byte>): int
    requires |bytes| == 4
  {
    var b0: int, b1: int, b2: int, b3: int := bytes[0], bytes[1], bytes[2], bytes[3];
    b0 + 256 * b1 + 65536 * b2 + 16777216 * b3
  }

  lemma WordLittleEndian(x: int)
    ensures Word(LittleEndian(x)) == x % MODULUS
  {
    var u := x % MODULUS;
    assert u / 65536 == u / 256 / 256;
    assert u / 16777216 == u / 65536 / 256;
  }

  /** The bytes a moved instruction becomes at `at`. */
  function Encode(p: Piece, mem: Memory, from: int, at: int): seq<Byte> {
    match p
    case Copied(len) => if len < 0 then [] else Window(mem, from, len)
    case CallTo(dest) => [0xE8] + LittleEndian(dest - (at + JMP_REL))
    case JumpTo(dest) => [0xE9] + LittleEndian(dest - (at + JMP_REL))
    case BranchTo(cc, dest) => [0x0F, 0x80 + cc % 16] + LittleEndian(dest - (at + JCC_REL))
  }

  // --- What instructions mean --------------------------------------------------------

  datatype Effect<M> = Fall(m: M) | Exit(m: M, addr: int) | Invoke(m: M, addr: int)

  /** The parts of the processor that do not depend on where an instruction stands: the
      condition codes, the counting branches, and everything else as a function of the
      instruction's bytes. */
  datatype Cpu<!M> =
    Cpu(cond: (int, M) -> bool, count: (seq<Byte>, M) -> (bool, M), plain: (seq<Byte>, M) -> Effect<M>)

  datatype Outcome<M> = Goes(m: M, to: int) | Calls(m: M, dest: int, back: int)

  /** One instruction, executed at `at`. */
  function Step<M>(cpu: Cpu<M>, hde: Decoder, mem: Memory, at: int, m: M): Outcome<M> {
    var i := Decode(hde, mem, at);
    var bytes := Window(mem, at, i.len);
    if IsCall(i) then Calls(m, Destination(i, at), at + i.len)
    else if IsJump(i) then Goes(m, Destination(i, at))
    else if IsBranch(i) then
      var (taken, m') := if IsLoop(i) then cpu.count(bytes, m) else (cpu.cond(ConditionCode(i), m), m);
      Goes(m', if taken then Destination(i, at) else at + i.len)
    else
      match cpu.plain(bytes, m)
      case Fall(m') => Goes(m', at + i.len)
      case Exit(m', addr) => Goes(m', addr)
      case Invoke(m', addr) => Calls(m', addr, at + i.len)
  }

  /** The decoder looks at the bytes of the instruction only, and knows the three
      instructions the builder writes. */
  ghost predicate DecoderOk(hde: Decoder) {
    && (forall s, t {:trigger SameInstruction(hde, s, t)} :: SameInstruction(hde, s, t) ==> hde(t) == hde(s))
    && (forall s {:trigger KnowsJumps(hde, s)} :: |s| == 15 ==> KnowsJumps(hde, s))
  }

  predicate SameInstruction(hde: Decoder, s: seq<Byte>, t: seq<Byte>) {
    |s| == 15 && |t| == 15 && s[..hde(s).len] == t[..hde(s).len]
  }

  ghost predicate KnowsJumps(hde: Decoder, s: seq<Byte>)
    requires |s| == 15
  {
    var i := hde(s);
    && (s[0] == 0xE8 || s[0] == 0xE9 ==> i.opcode == s[0] && i.len == JMP_REL && i.imm32 % MODULUS == Word(s[1..5]))
    && (s[0] == 0x0F && 0x80 <= s[1] < 0x90 ==>
          i.opcode == s[0] && i.opcode2 == s[1] && i.len == JCC_REL && i.imm32 % MODULUS == Word(s[2..6]))
  }

  /** A return leaves. */
  ghost predicate ReturnsLeave<M(!new)>(cpu: Cpu<M>, hde: Decoder) {
    forall s, m {:trigger ReturnLeaves(cpu, hde, s, m)} :: ReturnLeaves(cpu, hde, s, m)
  }

  predicate ReturnLeaves<M>(cpu: Cpu<M>, hde: Decoder, s: seq<Byte>, m: M) {
    |s| == 15 && IsReturn(hde(s)) ==> cpu.plain(s[..hde(s).len], m).Exit?
  }

  // --- Moved instructions decode as what they were ------------------------------------

  lemma WindowPrefix(mem: Memory, at: int, n: nat)
    requires n <= 15
    ensures Window(mem, at, 15)[..n] == Window(mem, at, n)
  {
  }

  lemma CopiedDecodes(hde: Decoder, mem: Memory, mem2: Memory, from: int, at: int)
    requires DecoderOk(hde)
    requires var len := Decode(hde, mem, from).len; Window(mem2, at, len) == Window(mem, from, len)
    ensures Decode(hde, mem2, at) == Decode(hde, mem, from)
  {
    var s, t, len := Window(mem, from, 15), Window(mem2, at, 15), Decode(hde, mem, from).len;
    WindowPrefix(mem, from, len);
    WindowPrefix(mem2, at, len);
    assert SameInstruction(hde, s, t);
  }

  /** A displacement that is right modulo the word size leads to the destination. */
  lemma OperandLeads(dest: int, next: int, imm: int)
    requires 0 <= dest < MODULUS && imm % MODULUS == (dest - next) % MODULUS
    ensures Address(next + imm) == dest
  {
    assert (imm - (dest - next)) % MODULUS == 0;
    var k := (imm - (dest - next)) / MODULUS;
    assert next + imm == dest + k * MODULUS;
  }

  lemma JumpDecodes(hde: Decoder, mem: Memory, at: int, opcode: Byte, dest: int)
    requires DecoderOk(hde) && 0 <= dest < MODULUS && (opcode == 0xE8 || opcode == 0xE9)
    requires Window(mem, at, JMP_REL) == [opcode] + LittleEndian(dest - (at + JMP_REL))
    ensures var i := Decode(hde, mem, at); i.opcode == opcode && i.len == JMP_REL && Destination(i, at) == dest
  {
    var s := Window(mem, at, 15);
    WindowPrefix(mem, at, JMP_REL);
    assert KnowsJumps(hde, s);
    assert s[1..5] == s[..5][1..] == LittleEndian(dest - (at + JMP_REL));
    assert s[0] == s[..5][0];
    WordLittleEndian(dest - (at + JMP_REL));
    OperandLeads(dest, at + JMP_REL, hde(s).imm32);
  }

  lemma BranchDecodes(hde: Decoder, mem: Memory, at: int, cc: int, dest: int)
    requires DecoderOk(hde) && 0 <= dest < MODULUS && 0 <= cc < 16
    requires Window(mem, at, JCC_REL) == [0x0F, 0x80 + cc] + LittleEndian(dest - (at + JCC_REL))
    ensures var i := Decode(hde, mem, at);
      i.opcode == 0x0F && i.opcode2 == 0x80 + cc && i.len == JCC_REL && Destination(i, at) == dest
  {
    var s := Window(mem, at, 15);
    WindowPrefix(mem, at, JCC_REL);
    assert KnowsJumps(hde, s);
    assert s[2..6] == s[..6][2..] == LittleEndian(dest - (at + JCC_REL));
    assert s[0] == s[..6][0] && s[1] == s[..6][1];
    WordLittleEndian(dest - (at + JCC_REL));
    OperandLeads(dest, at + JCC_REL, hde(s).imm32);
  }

  // --- Instruction boundaries ----------------------------------------------------------

  /** Decoding straight on from the offset `from` comes to the offset `d`. */
  ghost predicate Boundary(hde: Decoder, mem: Memory, target: int, from: nat, d: int)
    decreases d - from
  {
    from == d || (from < d && Boundary(hde, mem, target, from + Decode(hde, mem, target + from).len, d))
  }

  predicate BranchesInside(hde: Decoder, mem: Memory, target: int, o: nat) {
    var i := Decode(hde, mem, target + o);
    !IsCall(i) && (IsJump(i) || IsBranch(i)) && Internal(target, Destination(i, target + o))
  }

  /** How much longer the instruction at an offset becomes when it is moved. */
  function Growth(hde: Decoder, mem: Memory, target: int, o: nat): int {
    var i := Decode(hde, mem, target + o);
    match Relocate(i, target, o, 0)
    case Failed => 0
    case Moved(piece, _, _) => Size(piece) - i.len
  }

  /** How much longer the instructions from one offset up to another become. */
  function Growths(hde: Decoder, mem: Memory, target: int, from: nat, to: int): int
    decreases to - from
  {
    if from >= to then 0
    else Growth(hde, mem, target, from) + Growths(hde, mem, target, from + Decode(hde, mem, target + from).len, to)
  }

  ghost predicate ForwardAt(hde: Decoder, mem: Memory, target: int, o: nat) {
    var d := Destination(Decode(hde, mem, target + o), target + o) - target;
    o < d && Boundary(hde, mem, target, o, d)
  }

  /** The jump leads back over instructions whose total length stays the same. */
  ghost predicate BackwardAt(hde: Decoder, mem: Memory, target: int, o: nat) {
    var d := Destination(Decode(hde, mem, target + o), target + o) - target;
    0 <= d <= o && Boundary(hde, mem, target, 0, d) && Growths(hde, mem, target, d, o) == 0
  }

  /** Moved jumps inside the overwritten bytes lead to instruction boundaries, and those that
      lead back pass over instructions whose total length stays the same. */
  ghost predicate JumpsLead(hde: Decoder, mem: Memory, target: int, plan: Plan) {
    forall k {:trigger plan.entries[k]} ::
      0 <= k < |plan.entries| && plan.entries[k].oldIP < JMP_REL && BranchesInside(hde, mem, target, plan.entries[k].oldIP) ==>
        ForwardAt(hde, mem, target, plan.entries[k].oldIP) || BackwardAt(hde, mem, target, plan.entries[k].oldIP)
  }

  predicate Moves(plan: Plan, k: int, oldIP: int, newIP: int) {
    0 <= k < |plan.entries| && plan.entries[k].oldIP == oldIP && plan.entries[k].newIP == newIP
  }

  predicate MovedTo(plan: Plan, oldIP: int, newIP: int) {
    exists k {:trigger Moves(plan, k, oldIP, newIP)} :: 0 <= k < |plan.entries| && Moves(plan, k, oldIP, newIP)
  }

  predicate Built(hde: Decoder, mem: Memory, target: int, size: int, oldPos: nat, newPos: nat, n: nat, jmpDest: int, plan: Plan) {
    Build(hde, mem, target, size, oldPos, newPos, n, jmpDest) == Some(plan)
  }

  /** The first instruction of a plan, and the plan for the others. */
  lemma FirstEntry(hde: Decoder, mem: Memory, target: int, size: int, oldPos: nat, newPos: nat, n: nat, jmpDest: int, plan: Plan)
    returns (jmpDest': int, finished: bool, rest: Plan)
    requires Built(hde, mem, target, size, oldPos, newPos, n, jmpDest, plan)
    ensures |plan.entries| > 0
    ensures var i, e := Decode(hde, mem, target + oldPos), plan.entries[0];
      && e.oldIP == oldPos && e.newIP == newPos && !i.error
      && Relocate(i, target, oldPos, jmpDest) == Moved(e.piece, jmpDest', finished)
      && (target + oldPos < jmpDest' ==> Size(e.piece) == i.len)
      && newPos + Size(e.piece) <= size && n < MAX_IPS
      && (finished ==> plan == Plan([e], oldPos + i.len, newPos + Size(e.piece)))
      && (!finished ==>
            && oldPos < JMP_REL
            && Built(hde, mem, target, size, oldPos + i.len, newPos + Size(e.piece), n + 1, jmpDest', rest)
            && plan == Plan([e] + rest.entries, rest.oldEnd, rest.newEnd))
  {
    var i := Decode(hde, mem, target + oldPos);
    var move := Relocate(i, target, oldPos, jmpDest);
    jmpDest', finished := move.jmpDest, move.finished;
    rest := plan;
    if !finished {
      rest := Build(hde, mem, target, size, oldPos + i.len, newPos + Size(move.piece), n + 1, jmpDest').value;
    }
  }

  /** Up to a pending jump's destination instructions keep their length, so the destination
      moves by as much as the jump. */
  lemma {:induction false} BuildReaches(
    hde: Decoder, mem: Memory, target: int, size: int, oldPos: nat, newPos: nat, n: nat, jmpDest: int, plan: Plan, d: int)
    requires Built(hde, mem, target, size, oldPos, newPos, n, jmpDest, plan)
    requires d < JMP_REL && target + d <= jmpDest && Boundary(hde, mem, target, oldPos, d)
    ensures MovedTo(plan, d, newPos + d - oldPos)
    decreases d - oldPos
  {
    var jmpDest', finished, rest := FirstEntry(hde, mem, target, size, oldPos, newPos, n, jmpDest, plan);
    var len := Decode(hde, mem, target + oldPos).len;
    if oldPos == d {
      assert Moves(plan, 0, d, newPos);
    } else {
      BuildReaches(hde, mem, target, size, oldPos + len, newPos + len, n + 1, jmpDest', rest, d);
      var k :| 0 <= k < |rest.entries| && Moves(rest, k, d, newPos + d - oldPos);
      assert Moves(plan, k + 1, d, newPos + d - oldPos);
    }
  }

  /** What is known of the k-th moved instruction. */
  ghost predicate EntryOk(hde: Decoder, mem: Memory, target: int, plan: Plan, k: int) {
    && EntryMoved(hde, mem, target, plan, k)
    && var e := plan.entries[k];
       (e.oldIP < JMP_REL && BranchesInside(hde, mem, target, e.oldIP) && ForwardAt(hde, mem, target, e.oldIP) ==>
          var d := Destination(Decode(hde, mem, target + e.oldIP), target + e.oldIP) - target;
          MovedTo(plan, d, e.newIP + d - e.oldIP))
  }

  ghost predicate EntryMoved(hde: Decoder, mem: Memory, target: int, plan: Plan, k: int) {
    && 0 <= k < |plan.entries|
    && var e := plan.entries[k];
       var i := Decode(hde, mem, target + e.oldIP);
       var last := k == |plan.entries| - 1;
       var oldNext, newNext := e.oldIP + i.len, e.newIP + Size(e.piece);
       && !i.error
       && (exists jmpDest, jmpDest' :: Relocate(i, target, e.oldIP, jmpDest) == Moved(e.piece, jmpDest', last))
       && (last ==> plan.oldEnd == oldNext && plan.newEnd == newNext)
       && (!last ==> Moves(plan, k + 1, oldNext, newNext))
  }

  lemma FirstReaches(hde: Decoder, mem: Memory, target: int, size: int, oldPos: nat, newPos: nat, n: nat, jmpDest: int, plan: Plan)
    requires Built(hde, mem, target, size, oldPos, newPos, n, jmpDest, plan) && oldPos < JMP_REL
    requires BranchesInside(hde, mem, target, oldPos) && ForwardAt(hde, mem, target, oldPos)
    ensures var d := Destination(Decode(hde, mem, target + oldPos), target + oldPos) - target;
      MovedTo(plan, d, newPos + d - oldPos)
  {
    var i := Decode(hde, mem, target + oldPos);
    var d := Destination(i, target + oldPos) - target;
    var rest := AfterInside(hde, mem, target, size, oldPos, newPos, n, jmpDest, plan);
    InsideForward(hde, mem, target, oldPos);
    LaterReaches(hde, mem, target, size, oldPos, newPos, n, Farther(jmpDest, target + d), plan, rest, d, i.len);
  }

  lemma LaterReaches(
    hde: Decoder, mem: Memory, target: int, size: int, oldPos: nat, newPos: nat, n: nat, jmpDest: int, plan: Plan, rest: Plan,
    d: int, len: nat)
    requires Built(hde, mem, target, size, oldPos + len, newPos + len, n + 1, jmpDest, rest)
    requires plan.entries != [] && plan.entries[1..] == rest.entries
    requires 0 <= d < JMP_REL && target + d <= jmpDest && Boundary(hde, mem, target, oldPos + len, d)
    ensures MovedTo(plan, d, newPos + d - oldPos)
  {
    BuildReaches(hde, mem, target, size, oldPos + len, newPos + len, n + 1, jmpDest, rest, d);
    MovedLater(plan, rest, d, newPos + d - oldPos);
  }

  lemma AfterInside(hde: Decoder, mem: Memory, target: int, size: int, oldPos: nat, newPos: nat, n: nat, jmpDest: int, plan: Plan)
    returns (rest: Plan)
    requires Built(hde, mem, target, size, oldPos, newPos, n, jmpDest, plan) && oldPos < JMP_REL
    requires BranchesInside(hde, mem, target, oldPos)
    ensures var i := Decode(hde, mem, target + oldPos);
      && Built(hde, mem, target, size, oldPos + i.len, newPos + i.len, n + 1, Farther(jmpDest, Destination(i, target + oldPos)), rest)
      && plan.entries != [] && plan.entries[1..] == rest.entries
  {
    var jmpDest', finished, rest' := FirstEntry(hde, mem, target, size, oldPos, newPos, n, jmpDest, plan);
    InsideMoves(hde, mem, target, oldPos, jmpDest);
    rest := rest';
  }

  lemma InsideMoves(hde: Decoder, mem: Memory, target: int, oldPos: nat, jmpDest: int)
    requires oldPos < JMP_REL && BranchesInside(hde, mem, target, oldPos)
    ensures var i := Decode(hde, mem, target + oldPos);
      !i.error ==>
        Relocate(i, target, oldPos, jmpDest) == Moved(Copied(i.len), Farther(jmpDest, Destination(i, target + oldPos)), false)
  {
  }

  lemma InsideForward(hde: Decoder, mem: Memory, target: int, o: nat)
    requires BranchesInside(hde, mem, target, o) && ForwardAt(hde, mem, target, o)
    ensures var i := Decode(hde, mem, target + o);
      var d := Destination(i, target + o) - target;
      o < d < JMP_REL && Boundary(hde, mem, target, o + i.len, d)
  {
  }

  lemma MovedLater(plan: Plan, rest: Plan, oldIP: int, newIP: int)
    requires plan.entries != [] && plan.entries[1..] == rest.entries && MovedTo(rest, oldIP, newIP)
    ensures MovedTo(plan, oldIP, newIP)
  {
    var k :| 0 <= k < |rest.entries| && Moves(rest, k, oldIP, newIP);
    assert Moves(plan, k + 1, oldIP, newIP);
  }

  lemma FirstEntryMoved(hde: Decoder, mem: Memory, target: int, size: int, oldPos: nat, newPos: nat, n: nat, jmpDest: int, plan: Plan)
    requires Built(hde, mem, target, size, oldPos, newPos, n, jmpDest, plan)
    ensures EntryMoved(hde, mem, target, plan, 0) && plan.entries[0].oldIP == oldPos && plan.entries[0].newIP == newPos
  {
    var jmpDest', finished, rest := FirstEntry(hde, mem, target, size, oldPos, newPos, n, jmpDest, plan);
    var i, e := Decode(hde, mem, target + oldPos), plan.entries[0];
    assert Relocate(i, target, e.oldIP, jmpDest) == Moved(e.piece, jmpDest', finished);
    if !finished {
      var _, _, _ := FirstEntry(hde, mem, target, size, oldPos + i.len, newPos + Size(e.piece), n + 1, jmpDest', rest);
      assert Moves(plan, 1, oldPos + i.len, newPos + Size(e.piece));
    }
  }

  lemma FirstEntryOk(hde: Decoder, mem: Memory, target: int, size: int, oldPos: nat, newPos: nat, n: nat, jmpDest: int, plan: Plan)
    requires Built(hde, mem, target, size, oldPos, newPos, n, jmpDest, plan)
    ensures EntryOk(hde, mem, target, plan, 0)
  {
    FirstEntryMoved(hde, mem, target, size, oldPos, newPos, n, jmpDest, plan);
    if oldPos < JMP_REL && BranchesInside(hde, mem, target, oldPos) && ForwardAt(hde, mem, target, oldPos) {
      FirstReaches(hde, mem, target, size, oldPos, newPos, n, jmpDest, plan);
    }
  }

  lemma {:induction false} EntriesOk(
    hde: Decoder, mem: Memory, target: int, size: int, oldPos: nat, newPos: nat, n: nat, jmpDest: int, plan: Plan, k: nat)
    requires Built(hde, mem, target, size, oldPos, newPos, n, jmpDest, plan) && k < |plan.entries|
    ensures EntryOk(hde, mem, target, plan, k)
    decreases k
  {
    if k == 0 {
      FirstEntryOk(hde, mem, target, size, oldPos, newPos, n, jmpDest, plan);
    } else {
      var jmpDest', finished, rest := FirstEntry(hde, mem, target, size, oldPos, newPos, n, jmpDest, plan);
      var i := Decode(hde, mem, target + oldPos);
      EntriesOk(hde, mem, target, size, oldPos + i.len, newPos + Size(plan.entries[0].piece), n + 1, jmpDest', rest, k - 1);
      EntryShifts(hde, mem, target, plan, rest, k);
    }
  }

  lemma EntryShifts(hde: Decoder, mem: Memory, target: int, plan: Plan, rest: Plan, k: nat)
    requires 0 < k < |plan.entries| && plan == Plan([plan.entries[0]] + rest.entries, rest.oldEnd, rest.newEnd)
    requires EntryOk(hde, mem, target, rest, k - 1)
    ensures EntryOk(hde, mem, target, plan, k)
  {
    var e := plan.entries[k];
    assert e == rest.entries[k - 1];
    var i := Decode(hde, mem, target + e.oldIP);
    if k < |plan.entries| - 1 {
      assert Moves(rest, k, e.oldIP + i.len, e.newIP + Size(e.piece));
    }
    if e.oldIP < JMP_REL && BranchesInside(hde, mem, target, e.oldIP) && ForwardAt(hde, mem, target, e.oldIP) {
      var d := Destination(i, target + e.oldIP) - target;
      var j :| 0 <= j < |rest.entries| && Moves(rest, j, d, e.newIP + d - e.oldIP);
      assert Moves(plan, j + 1, d, e.newIP + d - e.oldIP);
    }
  }

  // --- Lockstep ------------------------------------------------------------------------

  /** The trampoline's bytes stand in memory. */
  ghost predicate Placed(plan: Plan, mem: Memory, target: int, mem2: Memory, tramp: int) {
    forall k {:trigger PlacedAt(plan, mem, target, mem2, tramp, k)} ::
      0 <= k < |plan.entries| ==> PlacedAt(plan, mem, target, mem2, tramp, k)
  }

  ghost predicate PlacedAt(plan: Plan, mem: Memory, target: int, mem2: Memory, tramp: int, k: int)
    requires 0 <= k < |plan.entries|
  {
    var e := plan.entries[k];
    && Size(e.piece) >= 0
    && Window(mem2, tramp + e.newIP, Size(e.piece)) == Encode(e.piece, mem, target + e.oldIP, tramp + e.newIP)
  }

  predicate InSlot(tramp: int, a: int) {
    tramp <= a <= tramp + SLOT_SIZE
  }

  /** A boundary and its image, or the same address outside of both. */
  ghost predicate SamePlace(plan: Plan, target: int, tramp: int, a: int, b: int) {
    MovedTo(plan, a - target, b - tramp) || (a == b && !Internal(target, a) && !InSlot(tramp, a))
  }

  /** Apart from its relative jumps the function does not jump into the bytes that will be
      overwritten, and it does not jump into the slot of its trampoline. */
  predicate KeepsClearAt<M>(cpu: Cpu<M>, hde: Decoder, mem: Memory, target: int, tramp: int, o: nat, m: M) {
    var i := Decode(hde, mem, target + o);
    if IsCall(i) then true
    else if IsJump(i) || IsBranch(i) then
      Internal(target, Destination(i, target + o)) || !InSlot(tramp, Destination(i, target + o))
    else
      match cpu.plain(Window(mem, target + o, i.len), m)
      case Fall(_) => true
      case Invoke(_, _) => true
      case Exit(_, addr) => !Internal(target, addr) && !InSlot(tramp, addr)
  }

  ghost predicate KeepsClear<M(!new)>(cpu: Cpu<M>, hde: Decoder, mem: Memory, target: int, tramp: int, plan: Plan) {
    forall k, m {:trigger KeepsClearAt(cpu, hde, mem, target, tramp, plan.entries[k].oldIP, m)} ::
      0 <= k < |plan.entries| && plan.entries[k].oldIP < JMP_REL ==>
        KeepsClearAt(cpu, hde, mem, target, tramp, plan.entries[k].oldIP, m)
  }

  ghost predicate SameOutcome<M(!new)>(plan: Plan, target: int, tramp: int, a: Outcome<M>, b: Outcome<M>) {
    && a.m == b.m
    && (a.Goes? <==> b.Goes?)
    && (a.Goes? ==> SamePlace(plan, target, tramp, a.to, b.to))
    && (a.Calls? && b.Calls? ==> a.dest == b.dest && SamePlace(plan, target, tramp, a.back, b.back))
  }

  /** Function and trampoline lie apart within the address space. */
  predicate InSpace(target: int, tramp: int) {
    && 0 <= target && target + 32 <= MODULUS && 0 <= tramp && tramp + 64 <= MODULUS
    && (target + 20 <= tramp || tramp + SLOT_SIZE < target)
  }

  /** A plan, its bytes in place, and what is needed for it to run like the original. */
  ghost predicate Ready<M(!new)>(cpu: Cpu<M>, hde: Decoder, mem: Memory, target: int, mem2: Memory, tramp: int, plan: Plan) {
    && DecoderOk(hde) && ReturnsLeave(cpu, hde) && KeepsClear(cpu, hde, mem, target, tramp, plan) && InSpace(target, tramp)
    && JumpsLead(hde, mem, target, plan) && Placed(plan, mem, target, mem2, tramp)
    && AllEntriesOk(hde, mem, target, plan) && Moves(plan, 0, 0, 0)
  }

  ghost predicate AllEntriesOk(hde: Decoder, mem: Memory, target: int, plan: Plan) {
    forall k {:trigger EntryOk(hde, mem, target, plan, k)} ::
      0 <= k < |plan.entries| ==> EntryOk(hde, mem, target, plan, k) && plan.entries[k].newIP <= 32 && plan.entries[k].oldIP < 20
  }

  /** The instructions between two moved ones have grown by as much as those have moved apart. */
  lemma {:induction false} MovedApart(hde: Decoder, mem: Memory, target: int, plan: Plan, j: nat, k: nat)
    requires j <= k < |plan.entries| && AllEntriesOk(hde, mem, target, plan)
    ensures var a, b := plan.entries[j], plan.entries[k];
      a.oldIP <= b.oldIP && (j < k ==> a.oldIP < b.oldIP)
      && b.newIP - a.newIP == b.oldIP - a.oldIP + Growths(hde, mem, target, a.oldIP, b.oldIP)
    decreases k - j
  {
    if j < k {
      assert EntryOk(hde, mem, target, plan, j);
      var e := plan.entries[j];
      var len := Decode(hde, mem, target + e.oldIP).len;
      assert Moves(plan, j + 1, e.oldIP + len, e.newIP + Size(e.piece));
      assert Size(e.piece) - len == Growth(hde, mem, target, e.oldIP);
      MovedApart(hde, mem, target, plan, j + 1, k);
    }
  }

  /** Every boundary up to a moved instruction belongs to a moved instruction. */
  lemma {:induction false} BoundaryMoved(hde: Decoder, mem: Memory, target: int, plan: Plan, j: nat, k: nat, d: int)
    returns (i: nat)
    requires j <= k < |plan.entries| && AllEntriesOk(hde, mem, target, plan)
    requires Boundary(hde, mem, target, plan.entries[j].oldIP, d) && d <= plan.entries[k].oldIP
    ensures i <= k && plan.entries[i].oldIP == d
    decreases k - j
  {
    i := j;
    if plan.entries[j].oldIP < d {
      assert EntryOk(hde, mem, target, plan, j);
      var e := plan.entries[j];
      assert j < k ==> Moves(plan, j + 1, e.oldIP + Decode(hde, mem, target + e.oldIP).len, e.newIP + Size(e.piece));
      i := BoundaryMoved(hde, mem, target, plan, j + 1, k, d);
    }
  }

  lemma ShiftedAddress(x: int, delta: int)
    ensures Address(x + delta) == Address(Address(x) + delta)
  {
    var k := x / MODULUS;
    assert x + delta == (x % MODULUS + delta) + k * MODULUS;
    assert (x % MODULUS + delta + k * MODULUS) % MODULUS == (x % MODULUS + delta) % MODULUS;
  }

  /** The jump that completes the trampoline leads to the rest of the function. */
  lemma CompletionLeadsBack<M(!new)>(
    cpu: Cpu<M>, hde: Decoder, mem: Memory, target: int, mem2: Memory, tramp: int, plan: Plan, k: nat, m: M)
    requires Ready(cpu, hde, mem, target, mem2, tramp, plan) && k < |plan.entries| && plan.entries[k].oldIP >= JMP_REL
    ensures Step(cpu, hde, mem2, tramp + plan.entries[k].newIP, m) == Goes(m, target + plan.entries[k].oldIP)
    ensures k == |plan.entries| - 1
  {
    var e := plan.entries[k];
    assert EntryOk(hde, mem, target, plan, k) && PlacedAt(plan, mem, target, mem2, tramp, k);
    JumpDecodes(hde, mem2, tramp + e.newIP, 0xE9, target + e.oldIP);
  }

  /** After a moved instruction that falls through both go on at corresponding places. */
  lemma NextPlace(hde: Decoder, mem: Memory, target: int, tramp: int, plan: Plan, k: nat)
    requires EntryOk(hde, mem, target, plan, k) && k < |plan.entries| - 1
    ensures var e := plan.entries[k];
      SamePlace(plan, target, tramp, target + e.oldIP + Decode(hde, mem, target + e.oldIP).len, tramp + e.newIP + Size(e.piece))
  {
    var e := plan.entries[k];
    assert Moves(plan, k + 1, e.oldIP + Decode(hde, mem, target + e.oldIP).len, e.newIP + Size(e.piece));
  }

  lemma CallLockstep<M(!new)>(
    cpu: Cpu<M>, hde: Decoder, mem: Memory, target: int, mem2: Memory, tramp: int, plan: Plan, k: nat, m: M)
    requires Ready(cpu, hde, mem, target, mem2, tramp, plan) && k < |plan.entries| && plan.entries[k].oldIP < JMP_REL
    requires IsCall(Decode(hde, mem, target + plan.entries[k].oldIP))
    ensures SameOutcome(plan, target, tramp, Step(cpu, hde, mem, target + plan.entries[k].oldIP, m),
              Step(cpu, hde, mem2, tramp + plan.entries[k].newIP, m))
  {
    var e := plan.entries[k];
    var i := Decode(hde, mem, target + e.oldIP);
    assert EntryOk(hde, mem, target, plan, k) && PlacedAt(plan, mem, target, mem2, tramp, k);
    JumpDecodes(hde, mem2, tramp + e.newIP, 0xE8, Destination(i, target + e.oldIP));
    NextPlace(hde, mem, target, tramp, plan, k);
  }

  /** A jump or branch to the outside becomes one with the same destination and condition. */
  lemma OutsideDecodes(hde: Decoder, mem: Memory, target: int, mem2: Memory, tramp: int, plan: Plan, k: nat)
    requires DecoderOk(hde) && Placed(plan, mem, target, mem2, tramp)
    requires EntryOk(hde, mem, target, plan, k) && plan.entries[k].oldIP < JMP_REL
    requires var i := Decode(hde, mem, target + plan.entries[k].oldIP);
      !IsCall(i) && (IsJump(i) || IsBranch(i)) && !BranchesInside(hde, mem, target, plan.entries[k].oldIP)
    ensures var e := plan.entries[k];
      var i, i2 := Decode(hde, mem, target + e.oldIP), Decode(hde, mem2, tramp + e.newIP);
      && Destination(i2, tramp + e.newIP) == Destination(i, target + e.oldIP) && !IsCall(i2) && i2.len == Size(e.piece)
      && (IsJump(i2) <==> IsJump(i)) && !IsLoop(i) && !IsLoop(i2)
      && (!IsJump(i) ==> IsBranch(i2) && ConditionCode(i2) == ConditionCode(i) && k < |plan.entries| - 1)
  {
    var e := plan.entries[k];
    var i := Decode(hde, mem, target + e.oldIP);
    assert PlacedAt(plan, mem, target, mem2, tramp, k);
    if IsJump(i) {
      JumpDecodes(hde, mem2, tramp + e.newIP, 0xE9, Destination(i, target + e.oldIP));
    } else {
      BranchDecodes(hde, mem2, tramp + e.newIP, ConditionCode(i), Destination(i, target + e.oldIP));
    }
  }

  lemma OutsideLockstep<M(!new)>(
    cpu: Cpu<M>, hde: Decoder, mem: Memory, target: int, mem2: Memory, tramp: int, plan: Plan, k: nat, m: M)
    requires Ready(cpu, hde, mem, target, mem2, tramp, plan) && k < |plan.entries| && plan.entries[k].oldIP < JMP_REL
    requires var i := Decode(hde, mem, target + plan.entries[k].oldIP);
      !IsCall(i) && (IsJump(i) || IsBranch(i)) && !BranchesInside(hde, mem, target, plan.entries[k].oldIP)
    ensures SameOutcome(plan, target, tramp, Step(cpu, hde, mem, target + plan.entries[k].oldIP, m),
              Step(cpu, hde, mem2, tramp + plan.entries[k].newIP, m))
  {
    var e := plan.entries[k];
    assert EntryOk(hde, mem, target, plan, k) && KeepsClearAt(cpu, hde, mem, target, tramp, e.oldIP, m);
    OutsideDecodes(hde, mem, target, mem2, tramp, plan, k);
    if k < |plan.entries| - 1 {
      NextPlace(hde, mem, target, tramp, plan, k);
    }
  }

  /** A jump within the overwritten bytes is copied as it is. From its new place it leads to
      the image of its destination exactly if the instructions between the two keep their
      total length. */
  lemma CopiedJumpLeads(hde: Decoder, mem: Memory, target: int, tramp: int, plan: Plan, k: nat, j: nat)
    requires k < |plan.entries| && j < |plan.entries| && AllEntriesOk(hde, mem, target, plan) && InSpace(target, tramp)
    requires var from := target + plan.entries[k].oldIP;
      Destination(Decode(hde, mem, from), from) == target + plan.entries[j].oldIP
    ensures var o, d := plan.entries[k].oldIP, plan.entries[j].oldIP;
      (Destination(Decode(hde, mem, target + o), tramp + plan.entries[k].newIP) == tramp + plan.entries[j].newIP)
        <==> ((if d <= o then Growths(hde, mem, target, d, o) else Growths(hde, mem, target, o, d)) == 0)
  {
    assert EntryOk(hde, mem, target, plan, k) && EntryOk(hde, mem, target, plan, j);
    var from, at := target + plan.entries[k].oldIP, tramp + plan.entries[k].newIP;
    var i := Decode(hde, mem, from);
    var shifted := target + plan.entries[j].oldIP + (at - from);
    ShiftedAddress(from + i.len + Displacement(i), at - from);
    assert Destination(i, at) == Address(shifted);
    NearAddress(shifted, tramp + plan.entries[j].newIP);
    if j <= k {
      MovedApart(hde, mem, target, plan, j, k);
    } else {
      MovedApart(hde, mem, target, plan, k, j);
    }
  }

  /** Such a jump leads to the image of its destination. */
  lemma InsideDestination(hde: Decoder, mem: Memory, target: int, tramp: int, plan: Plan, k: nat)
    requires AllEntriesOk(hde, mem, target, plan) && InSpace(target, tramp) && k < |plan.entries|
    requires plan.entries[k].oldIP < JMP_REL && Moves(plan, 0, 0, 0)
    requires BranchesInside(hde, mem, target, plan.entries[k].oldIP)
    requires ForwardAt(hde, mem, target, plan.entries[k].oldIP) || BackwardAt(hde, mem, target, plan.entries[k].oldIP)
    ensures var e := plan.entries[k];
      var i := Decode(hde, mem, target + e.oldIP);
      MovedTo(plan, Destination(i, target + e.oldIP) - target, Destination(i, tramp + e.newIP) - tramp)
  {
    var e := plan.entries[k];
    var i := Decode(hde, mem, target + e.oldIP);
    var d := Destination(i, target + e.oldIP) - target;
    var j: nat;
    assert EntryOk(hde, mem, target, plan, k);
    if ForwardAt(hde, mem, target, e.oldIP) {
      j :| 0 <= j < |plan.entries| && Moves(plan, j, d, e.newIP + d - e.oldIP);
      ForwardKept(hde, mem, target, plan, k, j);
    } else {
      j := BoundaryMoved(hde, mem, target, plan, 0, k, d);
    }
    CopiedJumpLeads(hde, mem, target, tramp, plan, k, j);
    assert Moves(plan, j, d, Destination(i, tramp + e.newIP) - tramp);
  }

  lemma ForwardKept(hde: Decoder, mem: Memory, target: int, plan: Plan, k: nat, j: nat)
    requires k < |plan.entries| && j < |plan.entries| && AllEntriesOk(hde, mem, target, plan)
    requires plan.entries[k].oldIP < plan.entries[j].oldIP
    requires plan.entries[j].newIP - plan.entries[k].newIP == plan.entries[j].oldIP - plan.entries[k].oldIP
    ensures Growths(hde, mem, target, plan.entries[k].oldIP, plan.entries[j].oldIP) == 0
  {
    if j < k {
      MovedApart(hde, mem, target, plan, j, k);
    } else {
      MovedApart(hde, mem, target, plan, k, j);
    }
  }

  lemma InsideLockstep<M(!new)>(
    cpu: Cpu<M>, hde: Decoder, mem: Memory, target: int, mem2: Memory, tramp: int, plan: Plan, k: nat, m: M)
    requires Ready(cpu, hde, mem, target, mem2, tramp, plan) && k < |plan.entries| && plan.entries[k].oldIP < JMP_REL
    requires BranchesInside(hde, mem, target, plan.entries[k].oldIP)
    ensures SameOutcome(plan, target, tramp, Step(cpu, hde, mem, target + plan.entries[k].oldIP, m),
              Step(cpu, hde, mem2, tramp + plan.entries[k].newIP, m))
  {
    var e := plan.entries[k];
    var i := Decode(hde, mem, target + e.oldIP);
    assert EntryOk(hde, mem, target, plan, k) && PlacedAt(plan, mem, target, mem2, tramp, k);
    CopiedDecodes(hde, mem, mem2, target + e.oldIP, tramp + e.newIP);
    InsideDestination(hde, mem, target, tramp, plan, k);
    if !IsJump(i) {
      NextPlace(hde, mem, target, tramp, plan, k);
    }
  }

  lemma PlainLockstep<M(!new)>(
    cpu: Cpu<M>, hde: Decoder, mem: Memory, target: int, mem2: Memory, tramp: int, plan: Plan, k: nat, m: M)
    requires Ready(cpu, hde, mem, target, mem2, tramp, plan) && k < |plan.entries| && plan.entries[k].oldIP < JMP_REL
    requires var i := Decode(hde, mem, target + plan.entries[k].oldIP); !IsCall(i) && !IsJump(i) && !IsBranch(i)
    ensures SameOutcome(plan, target, tramp, Step(cpu, hde, mem, target + plan.entries[k].oldIP, m),
              Step(cpu, hde, mem2, tramp + plan.entries[k].newIP, m))
  {
    var e := plan.entries[k];
    var i := Decode(hde, mem, target + e.oldIP);
    assert EntryOk(hde, mem, target, plan, k) && PlacedAt(plan, mem, target, mem2, tramp, k);
    CopiedDecodes(hde, mem, mem2, target + e.oldIP, tramp + e.newIP);
    assert KeepsClearAt(cpu, hde, mem, target, tramp, e.oldIP, m);
    if k < |plan.entries| - 1 {
      NextPlace(hde, mem, target, tramp, plan, k);
    } else {
      var s := Window(mem, target + e.oldIP, 15);
      WindowPrefix(mem, target + e.oldIP, i.len);
      assert ReturnLeaves(cpu, hde, s, m);
    }
  }

  /** From corresponding places function and trampoline do the same and come to
      corresponding places, or leave for the same address. */
  lemma Lockstep<M(!new)>(
    cpu: Cpu<M>, hde: Decoder, mem: Memory, target: int, mem2: Memory, tramp: int, plan: Plan, k: nat, m: M)
    requires Ready(cpu, hde, mem, target, mem2, tramp, plan) && k < |plan.entries| && plan.entries[k].oldIP < JMP_REL
    ensures SameOutcome(plan, target, tramp, Step(cpu, hde, mem, target + plan.entries[k].oldIP, m),
              Step(cpu, hde, mem2, tramp + plan.entries[k].newIP, m))
  {
    var i := Decode(hde, mem, target + plan.entries[k].oldIP);
    if IsCall(i) {
      CallLockstep(cpu, hde, mem, target, mem2, tramp, plan, k, m);
    } else if BranchesInside(hde, mem, target, plan.entries[k].oldIP) {
      InsideLockstep(cpu, hde, mem, target, mem2, tramp, plan, k, m);
    } else if IsJump(i) || IsBranch(i) {
      OutsideLockstep(cpu, hde, mem, target, mem2, tramp, plan, k, m);
    } else {
      PlainLockstep(cpu, hde, mem, target, mem2, tramp, plan, k, m);
    }
  }

  // --- Sizes -----------------------------------------------------------------------------

  predicate Fits(plan: Plan, k: nat, size: int) {
    k < |plan.entries| ==>
      plan.entries[k].oldIP < JMP_REL + 15 && plan.entries[k].newIP + Size(plan.entries[k].piece) <= size
  }

  /** Every instruction fits the slot, and there are at most as many as start before the
      fifth byte, and one jump. */
  lemma {:induction false} BuildFits(
    hde: Decoder, mem: Memory, target: int, size: int, oldPos: nat, newPos: nat, n: nat, jmpDest: int, plan: Plan)
    requires Built(hde, mem, target, size, oldPos, newPos, n, jmpDest, plan) && oldPos < JMP_REL + 15
    ensures plan.newEnd <= size && |plan.entries| <= 1 + if oldPos < JMP_REL then JMP_REL - oldPos else 0
    ensures forall k {:trigger Fits(plan, k, size)} :: Fits(plan, k, size)
    decreases if oldPos < JMP_REL then JMP_REL - oldPos else 0
  {
    var jmpDest', finished, rest := FirstEntry(hde, mem, target, size, oldPos, newPos, n, jmpDest, plan);
    if !finished {
      var i := Decode(hde, mem, target + oldPos);
      BuildFits(hde, mem, target, size, oldPos + i.len, newPos + Size(plan.entries[0].piece), n + 1, jmpDest', rest);
      forall k: nat
        ensures Fits(plan, k, size)
      {
        if k > 0 {
          assert Fits(rest, k - 1, size);
        }
      }
    }
  }

  predicate Creates(hde: Decoder, mem: Memory, target: int, executableAbove: bool, plan: Plan, patch: Patch) {
    Create(hde, mem, target, SLOT_SIZE, executableAbove) == Some((plan, patch))
  }

  /** A trampoline takes at most its slot, and its instruction boundaries are at most six,
      which fits a field of three bits. */
  lemma TrampolineFits(hde: Decoder, mem: Memory, target: int, executableAbove: bool, plan: Plan, patch: Patch)
    requires Creates(hde, mem, target, executableAbove, plan, patch)
    ensures plan.newEnd <= SLOT_SIZE && 0 < |plan.entries| <= 6 < 8
    ensures Moves(plan, 0, 0, 0)
  {
    BuildFits(hde, mem, target, SLOT_SIZE, 0, 0, 0, 0, plan);
    var _, _, _ := FirstEntry(hde, mem, target, SLOT_SIZE, 0, 0, 0, 0, plan);
  }

  /** An instruction that has been moved covers the byte at the offset. */
  ghost predicate Relocated(hde: Decoder, mem: Memory, target: int, plan: Plan, offset: int) {
    exists k {:trigger Covers(hde, mem, target, plan, k, offset)} :: Covers(hde, mem, target, plan, k, offset)
  }

  ghost predicate Covers(hde: Decoder, mem: Memory, target: int, plan: Plan, k: int, offset: int) {
    && 0 <= k < |plan.entries|
    && plan.entries[k].oldIP <= offset < plan.entries[k].oldIP + Decode(hde, mem, target + plan.entries[k].oldIP).len
  }

  lemma {:induction false} BuildCovers(
    hde: Decoder, mem: Memory, target: int, size: int, oldPos: nat, newPos: nat, n: nat, jmpDest: int, plan: Plan, offset: int)
    requires Built(hde, mem, target, size, oldPos, newPos, n, jmpDest, plan) && oldPos <= offset < plan.oldEnd
    ensures Relocated(hde, mem, target, plan, offset)
    decreases if oldPos < JMP_REL then JMP_REL - oldPos else 0
  {
    var jmpDest', finished, rest := FirstEntry(hde, mem, target, size, oldPos, newPos, n, jmpDest, plan);
    var i := Decode(hde, mem, target + oldPos);
    if offset < oldPos + i.len {
      assert Covers(hde, mem, target, plan, 0, offset);
    } else {
      BuildCovers(hde, mem, target, size, oldPos + i.len, newPos + Size(plan.entries[0].piece), n + 1, jmpDest', rest, offset);
      var k :| Covers(hde, mem, target, rest, k, offset);
      assert Covers(hde, mem, target, plan, k + 1, offset);
    }
  }

  predicate IsPaddingByte(b: Byte) {
    b == 0x00 || b == 0x90 || b == 0xCC
  }

  /** The bytes a jump to the detour overwrites. */
  predicate Patched(patch: Patch, offset: int) {
    match patch
    case NoRoom => false
    case AtTarget => 0 <= offset < JMP_REL
    case Above => -JMP_REL <= offset < JMP_REL_SHORT
  }

  /** Every byte the patch overwrites belongs to an instruction that has been moved, or is
      padding. */
  lemma PatchedBytesAreSafe(hde: Decoder, mem: Memory, target: int, executableAbove: bool, plan: Plan, patch: Patch, offset: int)
    requires Creates(hde, mem, target, executableAbove, plan, patch) && Patched(patch, offset)
    ensures Relocated(hde, mem, target, plan, offset) || IsPaddingByte(mem(target + offset))
  {
    if 0 <= offset < plan.oldEnd {
      BuildCovers(hde, mem, target, SLOT_SIZE, 0, 0, 0, 0, plan, offset);
    }
  }

  // --- The whole trampoline runs like the function ---------------------------------------

  lemma CreatedEntriesOk(hde: Decoder, mem: Memory, target: int, executableAbove: bool, plan: Plan, patch: Patch)
    requires Creates(hde, mem, target, executableAbove, plan, patch)
    ensures AllEntriesOk(hde, mem, target, plan) && Moves(plan, 0, 0, 0)
  {
    TrampolineFits(hde, mem, target, executableAbove, plan, patch);
    BuildFits(hde, mem, target, SLOT_SIZE, 0, 0, 0, 0, plan);
    forall k | 0 <= k < |plan.entries|
      ensures EntryOk(hde, mem, target, plan, k) && plan.entries[k].newIP <= 32 && plan.entries[k].oldIP < 20
    {
      EntriesOk(hde, mem, target, SLOT_SIZE, 0, 0, 0, 0, plan, k);
      assert Fits(plan, k, SLOT_SIZE);
      EntryGrows(hde, mem, target, plan, k);
    }
  }

  lemma EntryGrows(hde: Decoder, mem: Memory, target: int, plan: Plan, k: int)
    requires EntryOk(hde, mem, target, plan, k)
    ensures Size(plan.entries[k].piece) > 0
  {
  }

  lemma {:induction false} Increasing(hde: Decoder, mem: Memory, target: int, plan: Plan, j: nat, k: nat)
    requires j < k < |plan.entries| && AllEntriesOk(hde, mem, target, plan)
    ensures plan.entries[j].oldIP < plan.entries[k].oldIP && plan.entries[j].newIP < plan.entries[k].newIP
    ensures plan.entries[j].oldIP < JMP_REL
    decreases k
  {
    assert EntryOk(hde, mem, target, plan, k - 1) && EntryOk(hde, mem, target, plan, j);
    assert Moves(plan, k, plan.entries[k].oldIP, plan.entries[k].newIP);
    if j < k - 1 {
      Increasing(hde, mem, target, plan, j, k - 1);
    }
  }

  /** Where a run stands: at the k-th moved instruction, or gone to an address outside. */
  datatype Place<M> = At(k: nat, m: M) | Gone(addr: int, m: M)

  /** The moved instructions that start in the overwritten bytes. */
  function Inner(plan: Plan): (n: nat)
    ensures n <= |plan.entries|
  {
    var n := |plan.entries|;
    if n > 0 && plan.entries[n - 1].oldIP >= JMP_REL then n - 1 else n
  }

  function Find<M>(starts: seq<int>, to: int, from: nat, m: M): (p: Place<M>)
    requires from <= |starts|
    ensures p.m == m && (p.At? ==> p.k < |starts| && starts[p.k] == to)
    ensures p.Gone? ==> p.addr == to && forall k :: from <= k < |starts| ==> starts[k] != to
    decreases |starts| - from
  {
    if from == |starts| then Gone(to, m) else if starts[from] == to then At(from, m) else Find(starts, to, from + 1, m)
  }

  /** The jump that completes a trampoline is taken at once. */
  function Settle<M>(cpu: Cpu<M>, hde: Decoder, mem: Memory, starts: seq<int>, completion: Option<int>, to: int, m: M): Place<M> {
    if completion == Some(to) then
      match Step(cpu, hde, mem, to, m)
      case Goes(m', to') => Find(starts, to', 0, m')
      case Calls(m', dest, back) => Gone(dest, m')
    else Find(starts, to, 0, m)
  }

  /** One step of the function or of the trampoline from one of the `starts`; a call comes
      back with the state the callee leaves. */
  function Advance<M>(
    cpu: Cpu<M>, callee: (int, M) -> M, hde: Decoder, mem: Memory, starts: seq<int>, completion: Option<int>, p: Place<M>): Place<M>
    requires p.At? ==> p.k < |starts|
  {
    match p
    case Gone(_, _) => p
    case At(k, m) => AfterStep(cpu, callee, hde, mem, starts, completion, Step(cpu, hde, mem, starts[k], m))
  }

  function Run<M>(
    cpu: Cpu<M>, callee: (int, M) -> M, hde: Decoder, mem: Memory, starts: seq<int>, completion: Option<int>, p: Place<M>, n: nat):
      (p': Place<M>)
    requires p.At? ==> p.k < |starts|
    ensures p'.At? ==> p'.k < |starts|
  {
    if n == 0 then p
    else Advance(cpu, callee, hde, mem, starts, completion, Run(cpu, callee, hde, mem, starts, completion, p, n - 1))
  }

  function OldStarts(plan: Plan, target: int): (starts: seq<int>)
    ensures |starts| == Inner(plan) && forall k :: 0 <= k < Inner(plan) ==> starts[k] == target + plan.entries[k].oldIP
  {
    seq(Inner(plan), k requires 0 <= k < Inner(plan) => target + plan.entries[k].oldIP)
  }

  function NewStarts(plan: Plan, tramp: int): (starts: seq<int>)
    ensures |starts| == Inner(plan) && forall k :: 0 <= k < Inner(plan) ==> starts[k] == tramp + plan.entries[k].newIP
  {
    seq(Inner(plan), k requires 0 <= k < Inner(plan) => tramp + plan.entries[k].newIP)
  }

  function Completion(plan: Plan, tramp: int): Option<int> {
    if Inner(plan) < |plan.entries| then Some(tramp + plan.entries[Inner(plan)].newIP) else None
  }

  lemma {:induction false} FoundAt<M>(starts: seq<int>, to: int, from: nat, k: nat, m: M)
    requires from <= k < |starts| && starts[k] == to && forall j :: 0 <= j < |starts| && starts[j] == to ==> j == k
    ensures Find(starts, to, from, m) == At(k, m)
    decreases k - from
  {
    if from < k {
      FoundAt(starts, to, from + 1, k, m);
    }
  }

  lemma {:induction false} FoundNowhere<M>(starts: seq<int>, to: int, from: nat, m: M)
    requires from <= |starts| && to !in starts
    ensures Find(starts, to, from, m) == Gone(to, m)
    decreases |starts| - from
  {
    if from < |starts| {
      FoundNowhere(starts, to, from + 1, m);
    }
  }

  /** Distinct instructions stand at distinct places, in the order of the plan. */
  lemma InOrder(hde: Decoder, mem: Memory, target: int, plan: Plan, j: nat, k: nat)
    requires j < |plan.entries| && k < |plan.entries| && j != k
    requires AllEntriesOk(hde, mem, target, plan)
    ensures plan.entries[j].oldIP != plan.entries[k].oldIP && plan.entries[j].newIP != plan.entries[k].newIP
    ensures j < |plan.entries| - 1 ==> plan.entries[j].oldIP < JMP_REL
  {
    if j < k {
      Increasing(hde, mem, target, plan, j, k);
    } else {
      Increasing(hde, mem, target, plan, k, j);
    }
    if j < |plan.entries| - 1 {
      Increasing(hde, mem, target, plan, j, |plan.entries| - 1);
    }
  }

  lemma SettleInside<M(!new)>(
    cpu: Cpu<M>, hde: Decoder, mem: Memory, target: int, mem2: Memory, tramp: int, plan: Plan, k: nat, m: M)
    requires Ready(cpu, hde, mem, target, mem2, tramp, plan) && k < Inner(plan)
    ensures Settle(cpu, hde, mem, OldStarts(plan, target), None, target + plan.entries[k].oldIP, m) == At(k, m)
    ensures Settle(cpu, hde, mem2, NewStarts(plan, tramp), Completion(plan, tramp), tramp + plan.entries[k].newIP, m) == At(k, m)
  {
    forall j | 0 <= j < |plan.entries| && j != k
      ensures plan.entries[j].oldIP != plan.entries[k].oldIP && plan.entries[j].newIP != plan.entries[k].newIP
    {
      InOrder(hde, mem, target, plan, j, k);
    }
    FoundAt(OldStarts(plan, target), target + plan.entries[k].oldIP, 0, k, m);
    FoundAt(NewStarts(plan, tramp), tramp + plan.entries[k].newIP, 0, k, m);
  }

  lemma InnerPlaces(hde: Decoder, mem: Memory, target: int, plan: Plan, k: nat)
    requires k < |plan.entries|
    requires AllEntriesOk(hde, mem, target, plan)
    ensures k < Inner(plan) <==> plan.entries[k].oldIP < JMP_REL
  {
    var last := |plan.entries| - 1;
    if k < last {
      Increasing(hde, mem, target, plan, k, last);
    }
  }

  lemma OutsideStarts(hde: Decoder, mem: Memory, target: int, tramp: int, plan: Plan, a: int)
    requires AllEntriesOk(hde, mem, target, plan)
    ensures !Internal(target, a) ==> a !in OldStarts(plan, target)
    ensures !InSlot(tramp, a) ==> a !in NewStarts(plan, tramp) && Completion(plan, tramp) != Some(a)
  {
    forall k | 0 <= k < |plan.entries|
      ensures (k < Inner(plan) ==> Internal(target, target + plan.entries[k].oldIP)) && InSlot(tramp, tramp + plan.entries[k].newIP)
    {
      assert EntryOk(hde, mem, target, plan, k);
      InnerPlaces(hde, mem, target, plan, k);
    }
  }

  lemma SettleCompletion<M(!new)>(
    cpu: Cpu<M>, hde: Decoder, mem: Memory, target: int, mem2: Memory, tramp: int, plan: Plan, k: nat, m: M)
    requires Ready(cpu, hde, mem, target, mem2, tramp, plan) && Inner(plan) <= k < |plan.entries|
    ensures var a := target + plan.entries[k].oldIP;
      && Settle(cpu, hde, mem, OldStarts(plan, target), None, a, m) == Gone(a, m)
      && Settle(cpu, hde, mem2, NewStarts(plan, tramp), Completion(plan, tramp), tramp + plan.entries[k].newIP, m) == Gone(a, m)
  {
    var a := target + plan.entries[k].oldIP;
    assert EntryOk(hde, mem, target, plan, k);
    InnerPlaces(hde, mem, target, plan, k);
    OutsideStarts(hde, mem, target, tramp, plan, a);
    CompletionLeadsBack(cpu, hde, mem, target, mem2, tramp, plan, k, m);
    FoundNowhere(OldStarts(plan, target), a, 0, m);
    FoundNowhere(NewStarts(plan, tramp), a, 0, m);
  }

  /** Corresponding places settle to the same place of the run. */
  lemma SettleAlike<M(!new)>(
    cpu: Cpu<M>, hde: Decoder, mem: Memory, target: int, mem2: Memory, tramp: int, plan: Plan, a: int, b: int, m: M)
    requires Ready(cpu, hde, mem, target, mem2, tramp, plan) && SamePlace(plan, target, tramp, a, b)
    ensures Settle(cpu, hde, mem, OldStarts(plan, target), None, a, m)
         == Settle(cpu, hde, mem2, NewStarts(plan, tramp), Completion(plan, tramp), b, m)
  {
    if MovedTo(plan, a - target, b - tramp) {
      var k :| 0 <= k < |plan.entries| && Moves(plan, k, a - target, b - tramp);
      if k < Inner(plan) {
        SettleInside(cpu, hde, mem, target, mem2, tramp, plan, k, m);
      } else {
        SettleCompletion(cpu, hde, mem, target, mem2, tramp, plan, k, m);
      }
    } else {
      OutsideStarts(hde, mem, target, tramp, plan, a);
      FoundNowhere(OldStarts(plan, target), a, 0, m);
      FoundNowhere(NewStarts(plan, tramp), b, 0, m);
    }
  }

  lemma {:induction false} ReadyRunsAlike<M(!new)>(
    cpu: Cpu<M>, callee: (int, M) -> M, hde: Decoder, mem: Memory, target: int, mem2: Memory, tramp: int, plan: Plan, m: M, n: nat)
    requires Ready(cpu, hde, mem, target, mem2, tramp, plan) && Inner(plan) > 0
    ensures Run(cpu, callee, hde, mem, OldStarts(plan, target), None, At(0, m), n)
         == Run(cpu, callee, hde, mem2, NewStarts(plan, tramp), Completion(plan, tramp), At(0, m), n)
  {
    if n > 0 {
      ReadyRunsAlike(cpu, callee, hde, mem, target, mem2, tramp, plan, m, n - 1);
      var p := Run(cpu, callee, hde, mem, OldStarts(plan, target), None, At(0, m), n - 1);
      if p.At? {
        AdvanceAlike(cpu, callee, hde, mem, target, mem2, tramp, plan, p.k, p.m);
      }
    }
  }

  /** The function run from its start and the trampoline run from its start are at the same
      place in the same state after every number of steps: both at the same moved
      instruction, or both gone to the same address. */
  lemma RunsAlike<M(!new)>(
    cpu: Cpu<M>, callee: (int, M) -> M, hde: Decoder, mem: Memory, target: int, executableAbove: bool, mem2: Memory, tramp: int,
    plan: Plan, patch: Patch, m: M, n: nat)
    requires Creates(hde, mem, target, executableAbove, plan, patch)
    requires DecoderOk(hde) && ReturnsLeave(cpu, hde) && KeepsClear(cpu, hde, mem, target, tramp, plan) && InSpace(target, tramp)
    requires JumpsLead(hde, mem, target, plan) && Placed(plan, mem, target, mem2, tramp)
    ensures Inner(plan) > 0
    ensures Run(cpu, callee, hde, mem, OldStarts(plan, target), None, At(0, m), n)
         == Run(cpu, callee, hde, mem2, NewStarts(plan, tramp), Completion(plan, tramp), At(0, m), n)
  {
    CreatedEntriesOk(hde, mem, target, executableAbove, plan, patch);
    TrampolineFits(hde, mem, target, executableAbove, plan, patch);
    InnerPlaces(hde, mem, target, plan, 0);
    ReadyRunsAlike(cpu, callee, hde, mem, target, mem2, tramp, plan, m, n);
  }

  lemma AdvanceAlike<M(!new)>(
    cpu: Cpu<M>, callee: (int, M) -> M, hde: Decoder, mem: Memory, target: int, mem2: Memory, tramp: int, plan: Plan, k: nat, m: M)
    requires Ready(cpu, hde, mem, target, mem2, tramp, plan) && k < Inner(plan)
    ensures Advance(cpu, callee, hde, mem, OldStarts(plan, target), None, At(k, m))
         == Advance(cpu, callee, hde, mem2, NewStarts(plan, tramp), Completion(plan, tramp), At(k, m))
  {
    InnerPlaces(hde, mem, target, plan, k);
    Lockstep(cpu, hde, mem, target, mem2, tramp, plan, k, m);
    OutcomesAlike(cpu, callee, hde, mem, target, mem2, tramp, plan,
      Step(cpu, hde, mem, target + plan.entries[k].oldIP, m), Step(cpu, hde, mem2, tramp + plan.entries[k].newIP, m));
  }

  function AfterStep<M>(
    cpu: Cpu<M>, callee: (int, M) -> M, hde: Decoder, mem: Memory, starts: seq<int>, completion: Option<int>, o: Outcome<M>): Place<M>
  {
    match o
    case Goes(m', to) => Settle(cpu, hde, mem, starts, completion, to, m')
    case Calls(m', dest, back) => Settle(cpu, hde, mem, starts, completion, back, callee(dest, m'))
  }

  lemma OutcomesAlike<M(!new)>(
    cpu: Cpu<M>, callee: (int, M) -> M, hde: Decoder, mem: Memory, target: int, mem2: Memory, tramp: int, plan: Plan,
    a: Outcome<M>, b: Outcome<M>)
    requires Ready(cpu, hde, mem, target, mem2, tramp, plan) && SameOutcome(plan, target, tramp, a, b)
    ensures AfterStep(cpu, callee, hde, mem, OldStarts(plan, target), None, a)
         == AfterStep(cpu, callee, hde, mem2, NewStarts(plan, tramp), Completion(plan, tramp), b)
  {
    match a
    case Goes(m', to) => SettleAlike(cpu, hde, mem, target, mem2, tramp, plan, to, b.to, m');
    case Calls(m', dest, back) => SettleAlike(cpu, hde, mem, target, mem2, tramp, plan, back, b.back, callee(dest, m'));
  }

  // --- Code that always gets a trampoline ----------------------------------------------------

  predicate IsPlain(i: Inst) {
    !i.error && !IsCall(i) && !IsJump(i) && !IsBranch(i) && !IsReturn(i)
  }

  /** From the offset on up to the fifth byte and the instruction behind it there is nothing
      but plain instructions. */
  predicate Straight(hde: Decoder, mem: Memory, target: int, o: nat)
    decreases if o < 5 then 5 - o else 0
  {
    var i := Decode(hde, mem, target + o);
    if o >= 5 then !i.error else IsPlain(i) && Straight(hde, mem, target, o + i.len)
  }

  /** The plan copies instructions to where they have been, and then jumps to the rest. */
  predicate CopiesAndJumps(target: int, plan: Plan) {
    && |plan.entries| > 0
    && (forall k {:trigger plan.entries[k]} :: 0 <= k < |plan.entries| ==>
          plan.entries[k].newIP == plan.entries[k].oldIP && (k < |plan.entries| - 1 ==> plan.entries[k].piece.Copied?))
    && var last := plan.entries[|plan.entries| - 1];
       last.oldIP >= 5 && last.piece == JumpTo(target + last.oldIP) && plan.newEnd == last.oldIP + 5
  }

  lemma {:induction false} StraightBuilds(hde: Decoder, mem: Memory, target: int, o: nat, n: nat)
    requires 0 <= target && o < 20 && n <= o && n <= 5 && Straight(hde, mem, target, o)
    ensures var plan := Build(hde, mem, target, SLOT_SIZE, o, o, n, 0);
      plan.Some? && CopiesAndJumps(target, plan.value) && plan.value.oldEnd > 5
    decreases if o < 5 then 5 - o else 0
  {
    var i := Decode(hde, mem, target + o);
    if o >= 5 {
      StraightEnds(hde, mem, target, o, n);
    } else {
      StraightBuilds(hde, mem, target, o + i.len, n + 1);
      var rest := Build(hde, mem, target, SLOT_SIZE, o + i.len, o + i.len, n + 1, 0).value;
      BuildCons(hde, mem, target, SLOT_SIZE, o, o, n, 0, Copied(i.len), 0, rest);
    }
  }

  lemma StraightEnds(hde: Decoder, mem: Memory, target: int, o: nat, n: nat)
    requires 5 <= o < 20 && n <= 5 && !Decode(hde, mem, target + o).error && target + o >= 0
    ensures Build(hde, mem, target, SLOT_SIZE, o, o, n, 0)
      == Some(Plan([Entry(o, o, JumpTo(target + o))], o + Decode(hde, mem, target + o).len, o + 5))
  {
  }

  /** A function that starts with plain instructions always gets a trampoline: these and a
      jump to what follows them, whatever they are. Its own start is overwritten. */
  lemma StraightCodeIsHooked(hde: Decoder, mem: Memory, target: int, executableAbove: bool)
    requires 0 <= target && Straight(hde, mem, target, 0)
    ensures var created := Create(hde, mem, target, SLOT_SIZE, executableAbove);
      created.Some? && CopiesAndJumps(target, created.value.0) && created.value.1 == AtTarget
  {
    StraightBuilds(hde, mem, target, 0, 0);
  }

  // --- Jumps that lead back ----------------------------------------------------------------

  lemma NearAddress(x: int, y: int)
    requires 0 <= y < MODULUS && -MODULUS < x - y < MODULUS
    ensures Address(x) == y <==> x == y
  {
    if x < 0 {
      assert Address(x) == x + MODULUS;
    } else if x >= MODULUS {
      assert Address(x) == x - MODULUS;
    }
  }

  /** Which jumps back survive can be told from the bytes of the function: those that pass
      over instructions whose total length stays the same, and no others. */
  lemma BackwardJumpExactly(
    hde: Decoder, mem: Memory, target: int, executableAbove: bool, tramp: int, plan: Plan, patch: Patch, k: nat, d: nat)
    requires Creates(hde, mem, target, executableAbove, plan, patch) && InSpace(target, tramp)
    requires k < |plan.entries| && d <= plan.entries[k].oldIP < JMP_REL && Boundary(hde, mem, target, 0, d)
    requires BranchesInside(hde, mem, target, plan.entries[k].oldIP)
    requires Destination(Decode(hde, mem, target + plan.entries[k].oldIP), target + plan.entries[k].oldIP) == target + d
    ensures var e := plan.entries[k];
      var to := Destination(Decode(hde, mem, target + e.oldIP), tramp + e.newIP);
      SamePlace(plan, target, tramp, target + d, to) <==> Growths(hde, mem, target, d, e.oldIP) == 0
  {
    CreatedEntriesOk(hde, mem, target, executableAbove, plan, patch);
    var j := BoundaryMoved(hde, mem, target, plan, 0, k, d);
    var e := plan.entries[k];
    CopiedJumpLeads(hde, mem, target, tramp, plan, k, j);
    OnlyImage(hde, mem, target, tramp, plan, j, Destination(Decode(hde, mem, target + e.oldIP), tramp + e.newIP));
  }

  lemma OnlyImage(hde: Decoder, mem: Memory, target: int, tramp: int, plan: Plan, j: nat, to: int)
    requires j < |plan.entries| && AllEntriesOk(hde, mem, target, plan) && plan.entries[j].oldIP < JMP_REL
    ensures SamePlace(plan, target, tramp, target + plan.entries[j].oldIP, to) <==> to == tramp + plan.entries[j].newIP
  {
    var d := plan.entries[j].oldIP;
    if to == tramp + plan.entries[j].newIP {
      assert Moves(plan, j, d, to - tramp);
    }
    if MovedTo(plan, d, to - tramp) {
      var i :| 0 <= i < |plan.entries| && Moves(plan, i, d, to - tramp);
      if i != j {
        InOrder(hde, mem, target, plan, i, j);
      }
    }
  }

  /** `je` to the outside, `jmp` back to it, `nop`, and whatever follows. */
  ghost predicate LoopsBack(hde: Decoder, mem: Memory, target: int) {
    var je, jmp, nop := Decode(hde, mem, target), Decode(hde, mem, target + 2), Decode(hde, mem, target + 4);
    && !je.error && je.len == 2 && je.opcode == 0x74 && je.imm8 == 0x10
    && !jmp.error && jmp.len == 2 && jmp.opcode == 0xEB && jmp.imm8 == -4
    && !nop.error && nop.len == 1 && nop.opcode == 0x90
    && !Decode(hde, mem, target + 5).error
  }

  /** Such a function gets a trampoline whose jump leads into the middle of an instruction:
      the first branch has become longer. */
  lemma BackwardJumpBreaks(hde: Decoder, mem: Memory, target: int, tramp: int, executableAbove: bool)
    requires LoopsBack(hde, mem, target) && 0 < target && InSpace(target, tramp)
    ensures Create(hde, mem, target, SLOT_SIZE, executableAbove).Some?
    ensures var plan := Create(hde, mem, target, SLOT_SIZE, executableAbove).value.0;
      var jmp := Decode(hde, mem, target + 2);
      && Moves(plan, 1, 2, 6) && Destination(jmp, target + 2) == target
      && !SamePlace(plan, target, tramp, Destination(jmp, target + 2), Destination(jmp, tramp + 6))
  {
    var e0 := Entry(0, 0, BranchTo(4, target + 0x12));
    var e1, e2, e3 := Entry(2, 6, Copied(2)), Entry(4, 8, Copied(1)), Entry(5, 9, JumpTo(target + 5));
    var len := Decode(hde, mem, target + 5).len;
    BackwardTail(hde, mem, target);
    BackwardHead(hde, mem, target);
    var plan := Plan([e0, e1, e2, e3], 5 + len, 14);
    BuildCons(hde, mem, target, SLOT_SIZE, 2, 6, 1, 0, Copied(2), target, Plan([e2, e3], 5 + len, 14));
    assert [e1] + [e2, e3] == [e1, e2, e3];
    BuildCons(hde, mem, target, SLOT_SIZE, 0, 0, 0, 0, BranchTo(4, target + 0x12), 0, Plan([e1, e2, e3], 5 + len, 14));
    assert [e0] + [e1, e2, e3] == plan.entries;
    assert Destination(Decode(hde, mem, target + 2), tramp + 6) == tramp + 4;
    forall k | 0 <= k < |plan.entries|
      ensures !Moves(plan, k, 0, 4)
    {
    }
  }

  /** A decoder that knows short jumps and the three instructions the builder writes, and
      takes every other byte for an instruction. */
  function TinyDecoder(s: seq<Byte>): Inst {
    if |s| < 15 then Inst(true, 1, 0, 0, 0, 0)
    else
      var b: int, disp: int := s[0], s[1];
      if b == 0xE8 || b == 0xE9 then Inst(false, JMP_REL, b, 0, 0, Word(s[1..5]))
      else if b == 0x0F && 0x80 <= disp < 0x90 then Inst(false, JCC_REL, b, disp, 0, Word(s[2..6]))
      else if b == 0x0F || b == 0xEB || 0x70 <= b < 0x80 || 0xE0 <= b < 0xE4 then
        Inst(false, JMP_REL_SHORT, b, 0, if disp < 128 then disp else disp - 256, 0)
      else Inst(false, 1, b, 0, 0, 0)
  }

  /** At 0x1000 stands `74 10 EB FC 90`, and `90` everywhere else. */
  function LoopingCode(a: int): Byte {
    if a == 0x1000 then 0x74 else if a == 0x1001 then 0x10 else if a == 0x1002 then 0xEB else if a == 0x1003 then 0xFC else 0x90
  }

  lemma SameTinyInstruction(s: seq<Byte>, t: seq<Byte>)
    requires SameInstruction(TinyDecoder, s, t)
    ensures TinyDecoder(t) == TinyDecoder(s)
  {
    var len := TinyDecoder(s).len;
    assert s[0] == s[..len][0] == t[..len][0] == t[0];
    if len > 1 {
      assert s[1] == s[..len][1] == t[..len][1] == t[1];
    }
    if len == JMP_REL {
      assert s[1..5] == s[..len][1..5] == t[..len][1..5] == t[1..5];
    } else if len == JCC_REL {
      assert s[2..6] == s[..len][2..6] == t[..len][2..6] == t[2..6];
    }
  }

  lemma WordFits(bytes: seq<Byte>)
    requires |bytes| == 4
    ensures Word(bytes) % MODULUS == Word(bytes)
  {
  }

  /** The decoder is a proper one, and its function loops back: the input that shows it. */
  lemma BackwardInput()
    ensures DecoderOk(TinyDecoder) && LoopsBack(TinyDecoder, LoopingCode, 0x1000)
  {
    forall s, t | SameInstruction(TinyDecoder, s, t)
      ensures TinyDecoder(t) == TinyDecoder(s)
    {
      SameTinyInstruction(s, t);
    }
    forall s: seq<Byte> | |s| == 15
      ensures KnowsJumps(TinyDecoder, s)
    {
      WordFits(s[1..5]);
      WordFits(s[2..6]);
    }
  }

  lemma BackwardTail(hde: Decoder, mem: Memory, target: int)
    requires LoopsBack(hde, mem, target) && 0 < target && target + 32 <= MODULUS
    ensures Build(hde, mem, target, SLOT_SIZE, 4, 8, 2, target) ==
      Some(Plan([Entry(4, 8, Copied(1)), Entry(5, 9, JumpTo(target + 5))], 5 + Decode(hde, mem, target + 5).len, 14))
  {
    var e2, e3 := Entry(4, 8, Copied(1)), Entry(5, 9, JumpTo(target + 5));
    assert Relocate(Decode(hde, mem, target + 5), target, 5, target) == Moved(JumpTo(target + 5), target, true);
    BuildCons(hde, mem, target, SLOT_SIZE, 4, 8, 2, target, Copied(1), target,
      Plan([e3], 5 + Decode(hde, mem, target + 5).len, 14));
    assert [e2] + [e3] == [e2, e3];
  }

  lemma BuildCons(
    hde: Decoder, mem: Memory, target: int, size: int, oldPos: nat, newPos: nat, n: nat, jmpDest: int,
    piece: Piece, jmpDest': int, rest: Plan)
    requires var i := Decode(hde, mem, target + oldPos);
      && Relocate(i, target, oldPos, jmpDest) == Moved(piece, jmpDest', false) && n < MAX_IPS
      && 0 <= newPos + Size(piece) <= size && (target + oldPos < jmpDest' ==> Size(piece) == i.len)
      && Build(hde, mem, target, size, oldPos + i.len, newPos + Size(piece), n + 1, jmpDest') == Some(rest)
    ensures Build(hde, mem, target, size, oldPos, newPos, n, jmpDest) ==
      Some(Plan([Entry(oldPos, newPos, piece)] + rest.entries, rest.oldEnd, rest.newEnd))
  {
  }

  lemma BackwardHead(hde: Decoder, mem: Memory, target: int)
    requires LoopsBack(hde, mem, target) && 0 < target && target + 32 <= MODULUS
    ensures Relocate(Decode(hde, mem, target), target, 0, 0) == Moved(BranchTo(4, target + 0x12), 0, false)
    ensures Relocate(Decode(hde, mem, target + 2), target, 2, 0) == Moved(Copied(2), target, false)
    ensures Destination(Decode(hde, mem, target + 2), target + 2) == target
  {
  }

  // --- The builder as it runs --------------------------------------------------------------

  function Prepended(done: seq<Entry>, rest: Option<Plan>): Option<Plan> {
    match rest
    case None => None
    case Some(plan) => Some(plan.(entries := done + plan.entries))
  }

  predicate RecordedAt(
    mem: Memory, target: int, tramp: int, e: Entry, k: nat, code: seq<Byte>, oldIPs: seq<Byte>, newIPs: seq<Byte>)
  {
    var bytes := Encode(e.piece, mem, target + e.oldIP, tramp + e.newIP);
    && k < |oldIPs| && k < |newIPs| && oldIPs[k] == e.oldIP && newIPs[k] == e.newIP
    && e.newIP + |bytes| <= |code| && code[e.newIP..e.newIP + |bytes|] == bytes
  }

  predicate Recorded(
    mem: Memory, target: int, tramp: int, done: seq<Entry>, code: seq<Byte>, oldIPs: seq<Byte>, newIPs: seq<Byte>)
  {
    forall k :: 0 <= k < |done| ==> RecordedAt(mem, target, tramp, done[k], k, code, oldIPs, newIPs)
  }

  lemma SliceKept(code: seq<Byte>, code': seq<Byte>, cut: nat, from: nat, to: nat)
    requires from <= to <= cut <= |code| == |code'| && code'[..cut] == code[..cut]
    ensures code'[from..to] == code[from..to]
  {
    assert code'[from..to] == code'[..cut][from..to] && code[from..to] == code[..cut][from..to];
  }

  lemma EncodeSize(p: Piece, mem: Memory, from: int, at: int)
    requires 0 <= Size(p)
    ensures |Encode(p, mem, from, at)| == Size(p)
  {
  }

  /** Writing further on leaves what is recorded. */
  lemma RecordedStays(
    mem: Memory, target: int, tramp: int, d: Entry, k: nat, cut: nat,
    code: seq<Byte>, oldIPs: seq<Byte>, newIPs: seq<Byte>, code': seq<Byte>, oldIPs': seq<Byte>, newIPs': seq<Byte>)
    requires RecordedAt(mem, target, tramp, d, k, code, oldIPs, newIPs)
    requires 0 <= Size(d.piece) && d.newIP + Size(d.piece) <= cut <= |code| == |code'| && code'[..cut] == code[..cut]
    requires k < |oldIPs'| && k < |newIPs'| && oldIPs'[k] == oldIPs[k] && newIPs'[k] == newIPs[k]
    ensures RecordedAt(mem, target, tramp, d, k, code', oldIPs', newIPs')
  {
    EncodeSize(d.piece, mem, target + d.oldIP, tramp + d.newIP);
    SliceKept(code, code', cut, d.newIP, d.newIP + Size(d.piece));
  }

  lemma RecordedOnceMore(
    mem: Memory, target: int, tramp: int, done: seq<Entry>, e: Entry,
    code: seq<Byte>, oldIPs: seq<Byte>, newIPs: seq<Byte>, code': seq<Byte>, oldIPs': seq<Byte>, newIPs': seq<Byte>)
    requires Recorded(mem, target, tramp, done, code, oldIPs, newIPs) && EntriesBelow(done, e.newIP)
    requires |done| < |oldIPs| == |oldIPs'| && |done| < |newIPs| == |newIPs'|
    requires forall k :: 0 <= k < |done| ==> oldIPs'[k] == oldIPs[k] && newIPs'[k] == newIPs[k]
    requires |code'| == |code| && e.newIP <= |code| && code'[..e.newIP] == code[..e.newIP]
    requires RecordedAt(mem, target, tramp, e, |done|, code', oldIPs', newIPs')
    ensures Recorded(mem, target, tramp, done + [e], code', oldIPs', newIPs')
  {
    forall k | 0 <= k < |done|
      ensures RecordedAt(mem, target, tramp, done[k], k, code', oldIPs', newIPs')
    {
      assert RecordedAt(mem, target, tramp, done[k], k, code, oldIPs, newIPs);
      RecordedStays(mem, target, tramp, done[k], k, e.newIP, code, oldIPs, newIPs, code', oldIPs', newIPs');
    }
  }

  predicate EntriesBelow(done: seq<Entry>, newPos: nat) {
    forall k :: 0 <= k < |done| ==> 0 <= Size(done[k].piece) && done[k].newIP + Size(done[k].piece) <= newPos
  }

  class Trampoline {
    const target: int
    const tramp: int
    const size: nat
    const buffer: array<Byte>
    const oldIPs: array<Byte>
    const newIPs: array<Byte>
    var nIP: nat
    var patchAbove: bool

    ghost predicate Valid() {
      && buffer.Length == size < 256 && oldIPs.Length == MAX_IPS && newIPs.Length == MAX_IPS
      && buffer != oldIPs && buffer != newIPs && oldIPs != newIPs
    }

    /** The boundaries and the bytes of the entries have been written. */
    ghost predicate Written(mem: Memory, done: seq<Entry>)
      requires Valid()
      reads buffer, oldIPs, newIPs
    {
      Recorded(mem, target, tramp, done, buffer[..], oldIPs[..], newIPs[..])
    }

    /** What becomes of an instruction, or nothing if it cannot be moved. */
    method Classify(i: Inst, oldPos: nat, jmpDest: int) returns (piece: Piece, jmpDest': int, finished: bool, ok: bool)
      ensures ok == Relocate(i, target, oldPos, jmpDest).Moved?
      ensures ok ==> Relocate(i, target, oldPos, jmpDest) == Moved(piece, jmpDest', finished)
    {
      piece, jmpDest', finished, ok := Copied(i.len), jmpDest, false, true;
      var at := target + oldPos;
      if i.error {
        ok := false;
      } else if oldPos >= JMP_REL {
        piece := JumpTo(at);
        finished := true;
      } else if IsCall(i) {
        piece := CallTo(Destination(i, at));
      } else if IsJump(i) {
        var dest := Destination(i, at);
        if Internal(target, dest) {
          if jmpDest' < dest {
            jmpDest' := dest;
          }
        } else {
          piece := JumpTo(dest);
          finished := at >= jmpDest';
        }
      } else if IsBranch(i) {
        var dest := Destination(i, at);
        if Internal(target, dest) {
          if jmpDest' < dest {
            jmpDest' := dest;
          }
        } else if IsLoop(i) {
          ok := false;
        } else {
          piece := BranchTo(ConditionCode(i), dest);
        }
      } else if IsReturn(i) {
        finished := at >= jmpDest';
      }
    }

    method WriteBytes(at: nat, bytes: seq<Byte>)
      requires at + |bytes| <= buffer.Length
      modifies buffer
      ensures buffer[..at] == old(buffer[..at]) && buffer[at..at + |bytes|] == bytes
    {
      var k := 0;
      while k < |bytes|
        invariant k <= |bytes|
        invariant buffer[..at] == old(buffer[..at]) && buffer[at..at + k] == bytes[..k]
      {
        buffer[at + k] := bytes[k];
        k := k + 1;
      }
    }

    /** The instruction is entered at both boundaries and its bytes are written. */
    method Emit(mem: Memory, piece: Piece, oldPos: Byte, newPos: Byte, ghost done: seq<Entry>)
      requires Valid() && Written(mem, done) && EntriesBelow(done, newPos) && nIP == |done| < MAX_IPS
      requires 0 <= Size(piece) && newPos + Size(piece) <= size
      modifies this`nIP, buffer, oldIPs, newIPs
      ensures nIP == |done| + 1
      ensures Written(mem, done + [Entry(oldPos, newPos, piece)])
    {
      var bytes := Encode(piece, mem, target + oldPos, tramp + newPos);
      ghost var code, olds, news := buffer[..], oldIPs[..], newIPs[..];
      oldIPs[nIP], newIPs[nIP] := oldPos, newPos;
      WriteBytes(newPos, bytes);
      nIP := nIP + 1;
      RecordedOnceMore(mem, target, tramp, done, Entry(oldPos, newPos, piece), code, olds, news,
        buffer[..], oldIPs[..], newIPs[..]);
    }

    /** Moves the instruction at `oldPos`, if that is possible. */
    method MoveOne(i: Inst, mem: Memory, oldPos: Byte, newPos: Byte, jmpDest: int, ghost done: seq<Entry>)
      returns (ok: bool, piece: Piece, jmpDest': int, finished: bool)
      requires Valid() && Written(mem, done) && EntriesBelow(done, newPos) && nIP == |done| <= MAX_IPS
      modifies this`nIP, buffer, oldIPs, newIPs
      ensures ok == Movable(i, target, size, oldPos, newPos, old(nIP), Relocate(i, target, oldPos, jmpDest))
      ensures ok ==>
        && Relocate(i, target, oldPos, jmpDest) == Moved(piece, jmpDest', finished)
        && 0 < Size(piece) && newPos + Size(piece) <= size && (oldPos >= JMP_REL ==> finished)
        && nIP == |done| + 1 <= MAX_IPS && Written(mem, done + [Entry(oldPos, newPos, piece)])
    {
      piece, jmpDest', finished, ok := Classify(i, oldPos, jmpDest);
      if !ok {
        return;
      }
      PieceSize(i, oldPos, jmpDest);
      // The length of an instruction may not change within a branch.
      if target + oldPos < jmpDest' && Size(piece) != i.len {
        ok := false;
        return;
      }
      if newPos + Size(piece) > size {
        ok := false;
        return;
      }
      if nIP >= MAX_IPS {
        ok := false;
        return;
      }
      Emit(mem, piece, oldPos, newPos, done);
    }

    /** One turn: gives up if there is no plan, and is one instruction ahead otherwise. */
    method Turn(hde: Decoder, mem: Memory, oldPos: Byte, newPos: Byte, jmpDest: int, ghost done: seq<Entry>, ghost plan: Option<Plan>)
      returns (ok: bool, oldPos': nat, newPos': nat, jmpDest': int, finished: bool, ghost done': seq<Entry>)
      requires Valid() && Written(mem, done) && EntriesBelow(done, newPos) && nIP == |done| <= MAX_IPS
      requires Ahead(hde, mem, target, size, done, oldPos, newPos, nIP, jmpDest, false, plan)
      modifies this`nIP, buffer, oldIPs, newIPs
      ensures !ok ==> plan == None
      ensures ok ==>
        && Written(mem, done') && EntriesBelow(done', newPos') && nIP == |done'| <= MAX_IPS && newPos' <= size
        && Ahead(hde, mem, target, size, done', oldPos', newPos', nIP, jmpDest', finished, plan)
        && oldPos < oldPos' < oldPos + 16 && (oldPos >= JMP_REL ==> finished)
    {
      var i := Decode(hde, mem, target + oldPos);
      AheadTurn(hde, mem, target, size, done, oldPos, newPos, nIP, jmpDest, plan);
      var piece;
      ok, piece, jmpDest', finished := MoveOne(i, mem, oldPos, newPos, jmpDest, done);
      oldPos', newPos' := oldPos + i.len, newPos;
      done' := done;
      if ok {
        newPos' := newPos + Size(piece);
        done' := done + [Entry(oldPos, newPos, piece)];
      }
    }

    /** Moves instructions until the trampoline is complete. */
    method MoveAll(hde: Decoder, mem: Memory) returns (ok: bool, oldEnd: int)
      requires Valid() && nIP == 0
      modifies this`nIP, buffer, oldIPs, newIPs
      ensures var plan := Build(hde, mem, target, size, 0, 0, 0, 0);
        && ok == plan.Some?
        && (ok ==> oldEnd == plan.value.oldEnd && nIP == |plan.value.entries| && Written(mem, plan.value.entries))
    {
      var oldPos: nat, newPos: nat, jmpDest, finished := 0, 0, 0, false;
      ghost var done: seq<Entry> := [];
      ghost var plan := Build(hde, mem, target, size, 0, 0, 0, 0);
      assert plan.Some? ==> [] + plan.value.entries == plan.value.entries;
      while !finished
        invariant nIP == |done| <= MAX_IPS && newPos <= size && oldPos < JMP_REL + 15 + if finished then 15 else 0
        invariant Written(mem, done) && EntriesBelow(done, newPos)
        invariant Ahead(hde, mem, target, size, done, oldPos, newPos, nIP, jmpDest, finished, plan)
        decreases !finished, JMP_REL - oldPos
      {
        var moved;
        moved, oldPos, newPos, jmpDest, finished, done := Turn(hde, mem, oldPos, newPos, jmpDest, done, plan);
        if !moved {
          return false, oldPos;
        }
      }
      return true, oldPos;
    }

    /** What it leaves behind is the plan `Create` describes. */
    method CreateTrampolineFunction(hde: Decoder, mem: Memory, executableAbove: bool) returns (ok: bool)
      requires Valid()
      modifies this, buffer, oldIPs, newIPs
      ensures ok == Create(hde, mem, target, size, executableAbove).Some?
      ensures ok ==>
        var (plan, patch) := Create(hde, mem, target, size, executableAbove).value;
        patchAbove == (patch == Above) && nIP == |plan.entries| && Written(mem, plan.entries)
    {
      patchAbove, nIP := false, 0;
      var moved, oldEnd := MoveAll(hde, mem);
      if !moved {
        return false;
      }
      ok := ChoosePatch(mem, oldEnd, executableAbove);
    }

    /** Is there enough place for a long jump, or at least for a short one to above? */
    method ChoosePatch(mem: Memory, oldEnd: int, executableAbove: bool) returns (ok: bool)
      requires !patchAbove
      modifies this`patchAbove
      ensures var patch := PatchPlace(mem, target, oldEnd, executableAbove);
        ok == (patch != NoRoom) && (ok ==> patchAbove == (patch == Above))
    {
      if oldEnd < JMP_REL && !IsCodePadding(mem, target + oldEnd, JMP_REL - oldEnd) {
        if oldEnd < JMP_REL_SHORT && !IsCodePadding(mem, target + oldEnd, JMP_REL_SHORT - oldEnd) {
          return false;
        }
        if !executableAbove {
          return false;
        }
        if !IsCodePadding(mem, target - JMP_REL, JMP_REL) {
          return false;
        }
        patchAbove := true;
      }
      return true;
    }

    lemma PieceSize(i: Inst, oldPos: nat, jmpDest: int)
      requires Relocate(i, target, oldPos, jmpDest).Moved?
      ensures 0 < Size(Relocate(i, target, oldPos, jmpDest).piece)
      ensures oldPos >= JMP_REL ==> Relocate(i, target, oldPos, jmpDest).finished
    {
    }
  }

  /** One turn of the loop either gives up or takes one instruction off what is still to
      be built. */
  lemma BuildTurn(
    hde: Decoder, mem: Memory, target: int, size: int, oldPos: nat, newPos: nat, n: nat, jmpDest: int, done: seq<Entry>)
    ensures var i := Decode(hde, mem, target + oldPos);
      var move := Relocate(i, target, oldPos, jmpDest);
      Prepended(done, Build(hde, mem, target, size, oldPos, newPos, n, jmpDest)) ==
        if move.Failed? || (target + oldPos < move.jmpDest && Size(move.piece) != i.len)
          || newPos + Size(move.piece) > size || n >= MAX_IPS then None
        else
          var more := done + [Entry(oldPos, newPos, move.piece)];
          if move.finished then Some(Plan(more, oldPos + i.len, newPos + Size(move.piece)))
          else Prepended(more, Build(hde, mem, target, size, oldPos + i.len, newPos + Size(move.piece), n + 1, move.jmpDest))
  {
    var i := Decode(hde, mem, target + oldPos);
    var move := Relocate(i, target, oldPos, jmpDest);
    if move.Moved? && !move.finished {
      var rest := Build(hde, mem, target, size, oldPos + i.len, newPos + Size(move.piece), n + 1, move.jmpDest);
      var entry := Entry(oldPos, newPos, move.piece);
      assert rest.Some? ==> done + ([entry] + rest.value.entries) == done + [entry] + rest.value.entries;
    }
  }

  /** What has been done and what is still to be built make up the plan. */
  ghost predicate Ahead(
    hde: Decoder, mem: Memory, target: int, size: int, done: seq<Entry>, oldPos: nat, newPos: nat, n: nat, jmpDest: int,
    finished: bool, plan: Option<Plan>)
  {
    plan == if finished then Some(Plan(done, oldPos, newPos))
      else Prepended(done, Build(hde, mem, target, size, oldPos, newPos, n, jmpDest))
  }

  predicate Movable(i: Inst, target: int, size: int, oldPos: nat, newPos: nat, n: nat, move: Move) {
    && move.Moved? && (target + oldPos < move.jmpDest ==> Size(move.piece) == i.len)
    && newPos + Size(move.piece) <= size && n < MAX_IPS
  }

  lemma AheadTurn(
    hde: Decoder, mem: Memory, target: int, size: int, done: seq<Entry>, oldPos: nat, newPos: nat, n: nat, jmpDest: int,
    plan: Option<Plan>)
    requires Ahead(hde, mem, target, size, done, oldPos, newPos, n, jmpDest, false, plan)
    ensures var i := Decode(hde, mem, target + oldPos);
      var move := Relocate(i, target, oldPos, jmpDest);
      if Movable(i, target, size, oldPos, newPos, n, move) then
        Ahead(hde, mem, target, size, done + [Entry(oldPos, newPos, move.piece)], oldPos + i.len, newPos + Size(move.piece), n + 1,
          move.jmpDest, move.finished, plan)
      else plan == None
  {
    BuildTurn(hde, mem, target, size, oldPos, newPos, n, jmpDest, done);
  }

  /** Once the buffer is mapped at `tramp`, what the builder has written is the trampoline
      the theorems above speak of. */
  lemma RecordedIsPlaced(
    hde: Decoder, mem: Memory, target: int, mem2: Memory, tramp: int, executableAbove: bool, plan: Plan, patch: Patch,
    code: seq<Byte>, oldIPs: seq<Byte>, newIPs: seq<Byte>)
    requires Creates(hde, mem, target, executableAbove, plan, patch)
    requires Recorded(mem, target, tramp, plan.entries, code, oldIPs, newIPs)
    requires forall k {:trigger code[k]} :: 0 <= k < |code| ==> mem2(tramp + k) == code[k]
    ensures Placed(plan, mem, target, mem2, tramp)
  {
    forall k | 0 <= k < |plan.entries|
      ensures PlacedAt(plan, mem, target, mem2, tramp, k)
    {
      EntrySize(hde, mem, target, executableAbove, plan, patch, k);
      assert RecordedAt(mem, target, tramp, plan.entries[k], k, code, oldIPs, newIPs);
      RecordedEntryIsPlaced(mem, target, mem2, tramp, plan, k, code, oldIPs, newIPs);
    }
  }

  lemma RecordedEntryIsPlaced(
    mem: Memory, target: int, mem2: Memory, tramp: int, plan: Plan, k: nat, code: seq<Byte>, oldIPs: seq<Byte>, newIPs: seq<Byte>)
    requires k < |plan.entries| && 0 <= Size(plan.entries[k].piece)
    requires RecordedAt(mem, target, tramp, plan.entries[k], k, code, oldIPs, newIPs)
    requires forall k {:trigger code[k]} :: 0 <= k < |code| ==> mem2(tramp + k) == code[k]
    ensures PlacedAt(plan, mem, target, mem2, tramp, k)
  {
    var e := plan.entries[k];
    EncodeSize(e.piece, mem, target + e.oldIP, tramp + e.newIP);
    MappedWindow(mem2, tramp, code, e.newIP, Encode(e.piece, mem, target + e.oldIP, tramp + e.newIP));
  }

  lemma EntrySize(hde: Decoder, mem: Memory, target: int, executableAbove: bool, plan: Plan, patch: Patch, k: nat)
    requires Creates(hde, mem, target, executableAbove, plan, patch) && k < |plan.entries|
    ensures 0 <= Size(plan.entries[k].piece)
  {
    EntriesOk(hde, mem, target, SLOT_SIZE, 0, 0, 0, 0, plan, k);
  }

  lemma MappedWindow(mem2: Memory, tramp: int, code: seq<Byte>, from: nat, bytes: seq<Byte>)
    requires from + |bytes| <= |code| && code[from..from + |bytes|] == bytes
    requires forall k {:trigger code[k]} :: 0 <= k < |code| ==> mem2(tramp + k) == code[k]
    ensures Window(mem2, tramp + from, |bytes|) == bytes
  {
    forall j | 0 <= j < |bytes|
      ensures Window(mem2, tramp + from, |bytes|)[j] == bytes[j]
    {
      assert mem2(tramp + (from + j)) == code[from + j] == bytes[j];
    }
  }
}
