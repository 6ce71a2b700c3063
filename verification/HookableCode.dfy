/** Which functions get a trampoline, said of their code alone: no running destination, no
    positions in the buffer. */
module HookableCode {
  import opened Trampolines

  function At(hde: Decoder, mem: Memory, target: int, o: nat): Inst {
    Decode(hde, mem, target + o)
  }

  function LeadsTo(hde: Decoder, mem: Memory, target: int, o: nat): int {
    Destination(At(hde, mem, target, o), target + o)
  }

  predicate Outside(hde: Decoder, mem: Memory, target: int, o: nat) {
    LeadsTo(hde, mem, target, o) < target || target + 5 <= LeadsTo(hde, mem, target, o)
  }

  predicate IsRelative(i: Inst) {
    IsJump(i) || IsBranch(i)
  }

  /** The jump or branch at `q` leads into the overwritten bytes, behind the offset `p`. */
  predicate LeadsBehind(hde: Decoder, mem: Memory, target: int, q: nat, p: nat) {
    IsRelative(At(hde, mem, target, q)) && !Outside(hde, mem, target, q) && target + p < LeadsTo(hde, mem, target, q)
  }

  /** An instruction before the offset `o` leads behind `p`. */
  ghost predicate LeadsOver(hde: Decoder, mem: Memory, target: int, o: nat, p: nat) {
    exists q: nat :: q < o && Boundary(hde, mem, target, 0, q) && LeadsBehind(hde, mem, target, q, p)
  }

  /** The instruction at `p` stands in a branch: a jump seen so far leads over it. */
  ghost predicate InBranch(hde: Decoder, mem: Memory, target: int, p: nat) {
    LeadsOver(hde, mem, target, p + 1, p)
  }

  /** The function is over: five bytes are behind, or it leaves for good. */
  ghost predicate Ends(hde: Decoder, mem: Memory, target: int, p: nat) {
    var i := At(hde, mem, target, p);
    || p >= 5
    || (IsReturn(i) && !InBranch(hde, mem, target, p))
    || (IsJump(i) && Outside(hde, mem, target, p) && !InBranch(hde, mem, target, p))
  }

  /** Straight on from the start the builder comes to `p`. */
  ghost predicate Reached(hde: Decoder, mem: Memory, target: int, p: nat) {
    && Boundary(hde, mem, target, 0, p)
    && forall q: nat :: q < p && Boundary(hde, mem, target, 0, q) ==> !Ends(hde, mem, target, q)
  }

  /** The instruction has another length once its operand is written out. */
  predicate Stretches(hde: Decoder, mem: Memory, target: int, p: nat) {
    var i := At(hde, mem, target, p);
    || (IsCall(i) && i.len != 5)
    || (IsJump(i) && Outside(hde, mem, target, p) && i.len != 5)
    || (IsBranch(i) && Outside(hde, mem, target, p) && i.len != 6)
  }

  /** The instruction can be moved: it can be decoded, is no loop that leads out, and keeps
      its length in a branch. */
  ghost predicate Movable(hde: Decoder, mem: Memory, target: int, p: nat) {
    var i := At(hde, mem, target, p);
    && !i.error
    && (p < 5 ==>
          && !(IsLoop(i) && Outside(hde, mem, target, p))
          && (InBranch(hde, mem, target, p) ==> !Stretches(hde, mem, target, p)))
  }

  /** No call is shorter than five bytes, and no jump or branch is a single byte. */
  ghost predicate SaneLengths(hde: Decoder, mem: Memory, target: int) {
    forall p: nat {:trigger At(hde, mem, target, p)} :: p < 5 ==>
      var i := At(hde, mem, target, p);
      (IsCall(i) ==> i.len >= 5) && (IsRelative(i) ==> i.len >= 2)
  }

  ghost predicate AllMovable(hde: Decoder, mem: Memory, target: int, from: nat) {
    forall p: nat :: from <= p && Reached(hde, mem, target, p) ==> Movable(hde, mem, target, p)
  }

  // --- From instruction to instruction ------------------------------------------------

  lemma {:induction false} BoundaryOn(hde: Decoder, mem: Memory, target: int, from: nat, o: nat)
    requires Boundary(hde, mem, target, from, o)
    ensures Boundary(hde, mem, target, from, o + At(hde, mem, target, o).len)
    decreases o - from
  {
    if from < o {
      BoundaryOn(hde, mem, target, from + At(hde, mem, target, from).len, o);
    }
  }

  lemma {:induction false} NoneBetween(hde: Decoder, mem: Memory, target: int, from: nat, o: nat, q: nat)
    requires Boundary(hde, mem, target, from, o) && Boundary(hde, mem, target, from, q)
    requires o < q
    ensures o + At(hde, mem, target, o).len <= q
    decreases o - from
  {
    if from < o {
      NoneBetween(hde, mem, target, from + At(hde, mem, target, from).len, o, q);
    }
  }

  lemma LeadsOverTurn(hde: Decoder, mem: Memory, target: int, o: nat, o': nat, p: nat)
    requires Boundary(hde, mem, target, 0, o) && o < o' <= o + At(hde, mem, target, o).len
    ensures LeadsOver(hde, mem, target, o', p) <==> LeadsOver(hde, mem, target, o, p) || LeadsBehind(hde, mem, target, o, p)
  {
    forall q: nat | q < o' && Boundary(hde, mem, target, 0, q) ensures q <= o {
      if o < q {
        NoneBetween(hde, mem, target, 0, o, q);
      }
    }
  }

  /** The running destination says over which offsets the jumps before `o` lead. */
  ghost predicate Tracked(hde: Decoder, mem: Memory, target: int, o: nat, jmpDest: int) {
    forall p: nat :: LeadsOver(hde, mem, target, o, p) <==> target + p < jmpDest
  }

  function DestAfter(hde: Decoder, mem: Memory, target: int, o: nat, jmpDest: int): int {
    if IsRelative(At(hde, mem, target, o)) && !Outside(hde, mem, target, o) then
      Farther(jmpDest, LeadsTo(hde, mem, target, o))
    else jmpDest
  }

  lemma TrackedTurn(hde: Decoder, mem: Memory, target: int, o: nat, jmpDest: int)
    requires Boundary(hde, mem, target, 0, o) && Tracked(hde, mem, target, o, jmpDest)
    ensures var jmpDest' := DestAfter(hde, mem, target, o, jmpDest);
      && Tracked(hde, mem, target, o + At(hde, mem, target, o).len, jmpDest')
      && (InBranch(hde, mem, target, o) <==> target + o < jmpDest')
  {
    var o' := o + At(hde, mem, target, o).len;
    forall p: nat ensures LeadsOver(hde, mem, target, o', p) <==> target + p < DestAfter(hde, mem, target, o, jmpDest) {
      LeadsOverTurn(hde, mem, target, o, o', p);
    }
    LeadsOverTurn(hde, mem, target, o, o + 1, o);
  }

  lemma ReachedOn(hde: Decoder, mem: Memory, target: int, o: nat)
    requires Reached(hde, mem, target, o)
    ensures !Ends(hde, mem, target, o) ==> Reached(hde, mem, target, o + At(hde, mem, target, o).len)
    ensures forall p: nat :: o < p && Reached(hde, mem, target, p) ==>
      !Ends(hde, mem, target, o) && o + At(hde, mem, target, o).len <= p
  {
    BoundaryOn(hde, mem, target, 0, o);
    forall q: nat | o < q && Boundary(hde, mem, target, 0, q) ensures o + At(hde, mem, target, o).len <= q {
      NoneBetween(hde, mem, target, 0, o, q);
    }
  }

  lemma AllMovableTurn(hde: Decoder, mem: Memory, target: int, o: nat)
    requires Reached(hde, mem, target, o)
    ensures AllMovable(hde, mem, target, o) <==>
      Movable(hde, mem, target, o) &&
      (Ends(hde, mem, target, o) || AllMovable(hde, mem, target, o + At(hde, mem, target, o).len))
  {
    ReachedOn(hde, mem, target, o);
  }

  // --- The builder succeeds exactly on movable code -------------------------------------

  /** What the builder does with one instruction. */
  lemma MoveSaid(hde: Decoder, mem: Memory, target: int, o: nat, jmpDest: int)
    requires Boundary(hde, mem, target, 0, o) && Tracked(hde, mem, target, o, jmpDest)
    ensures var i, move := At(hde, mem, target, o), Relocate(At(hde, mem, target, o), target, o, jmpDest);
      && (Movable(hde, mem, target, o) <==>
            move.Moved? && (target + o < move.jmpDest ==> Size(move.piece) == i.len))
      && (move.Moved? ==> (move.finished <==> Ends(hde, mem, target, o)))
      && (move.Moved? && o < 5 ==> move.jmpDest == DestAfter(hde, mem, target, o, jmpDest))
  {
    TrackedTurn(hde, mem, target, o, jmpDest);
    assert o >= 5 ==> !LeadsOver(hde, mem, target, o, o);
  }

  /** There is room for what has been moved so far. */
  predicate Roomy(o: nat, newPos: nat, n: nat) {
    o < 20 && n <= o && n <= 5 && newPos <= if o < 5 then 3 * o else 27
  }

  lemma RoomyTurn(hde: Decoder, mem: Memory, target: int, o: nat, newPos: nat, n: nat, jmpDest: int)
    requires Roomy(o, newPos, n) && SaneLengths(hde, mem, target)
    ensures var i, move := At(hde, mem, target, o), Relocate(At(hde, mem, target, o), target, o, jmpDest);
      move.Moved? ==>
        && newPos + Size(move.piece) <= SLOT_SIZE && n < MAX_IPS
        && (o < 5 ==> Roomy(o + i.len, newPos + Size(move.piece), n + 1))
  {
  }

  /** The plan has one entry for every offset the builder comes to from `o` on. */
  ghost predicate HasReached(hde: Decoder, mem: Memory, target: int, o: nat, plan: Plan) {
    && (forall e :: e in plan.entries ==> o <= e.oldIP && Reached(hde, mem, target, e.oldIP))
    && (forall p: nat :: o <= p && Reached(hde, mem, target, p) ==> exists e :: e in plan.entries && e.oldIP == p)
  }

  /** The plan ends where the function does. */
  ghost predicate EndsRight(hde: Decoder, mem: Memory, target: int, plan: Plan) {
    exists p: nat :: Reached(hde, mem, target, p) && Ends(hde, mem, target, p)
      && plan.oldEnd == p + At(hde, mem, target, p).len
  }

  function Cons(e: Entry, rest: Option<Plan>): Option<Plan> {
    match rest
    case None => None
    case Some(plan) => Some(Plan([e] + plan.entries, plan.oldEnd, plan.newEnd))
  }

  lemma BuildUnfolds(hde: Decoder, mem: Memory, target: int, o: nat, newPos: nat, n: nat, jmpDest: int)
    requires var move := Relocate(At(hde, mem, target, o), target, o, jmpDest);
      move.Moved? ==> newPos + Size(move.piece) <= SLOT_SIZE && n < MAX_IPS
    ensures var i, move := At(hde, mem, target, o), Relocate(At(hde, mem, target, o), target, o, jmpDest);
      var plan := Build(hde, mem, target, SLOT_SIZE, o, newPos, n, jmpDest);
      if !move.Moved? || (target + o < move.jmpDest && Size(move.piece) != i.len) then plan == None
      else
        var e := Entry(o, newPos, move.piece);
        if move.finished then plan == Some(Plan([e], o + i.len, newPos + Size(move.piece)))
        else
          plan == Cons(e, Build(hde, mem, target, SLOT_SIZE, o + i.len, newPos + Size(move.piece), n + 1, move.jmpDest))
  {
  }

  lemma HasReachedOne(hde: Decoder, mem: Memory, target: int, o: nat, e: Entry, oldEnd: int, newEnd: int)
    requires Reached(hde, mem, target, o) && Ends(hde, mem, target, o)
    requires e.oldIP == o && oldEnd == o + At(hde, mem, target, o).len
    ensures HasReached(hde, mem, target, o, Plan([e], oldEnd, newEnd))
    ensures EndsRight(hde, mem, target, Plan([e], oldEnd, newEnd))
  {
    ReachedOn(hde, mem, target, o);
    assert e in [e];
  }

  lemma HasReachedMore(hde: Decoder, mem: Memory, target: int, o: nat, e: Entry, rest: Plan)
    requires Reached(hde, mem, target, o) && e.oldIP == o
    requires HasReached(hde, mem, target, o + At(hde, mem, target, o).len, rest) && EndsRight(hde, mem, target, rest)
    ensures var plan := Plan([e] + rest.entries, rest.oldEnd, rest.newEnd);
      HasReached(hde, mem, target, o, plan) && EndsRight(hde, mem, target, plan)
  {
    ReachedOn(hde, mem, target, o);
    var plan := Plan([e] + rest.entries, rest.oldEnd, rest.newEnd);
    forall p: nat | o <= p && Reached(hde, mem, target, p) ensures exists e' :: e' in plan.entries && e'.oldIP == p {
      if p == o {
        assert e in plan.entries;
      } else {
        var e' :| e' in rest.entries && e'.oldIP == p;
        assert e' in plan.entries;
      }
    }
  }

  /** The builder is at `o`, with everything before it moved. */
  ghost predicate Standing(hde: Decoder, mem: Memory, target: int, o: nat, newPos: nat, n: nat, jmpDest: int) {
    Roomy(o, newPos, n) && Reached(hde, mem, target, o) && Tracked(hde, mem, target, o, jmpDest)
  }

  ghost predicate Right(hde: Decoder, mem: Memory, target: int, o: nat, plan: Option<Plan>) {
    && (plan.Some? <==> AllMovable(hde, mem, target, o))
    && (plan.Some? ==> HasReached(hde, mem, target, o, plan.value) && EndsRight(hde, mem, target, plan.value))
  }

  /** What the builder does at `o`: it gives up, is done, or goes on. */
  lemma BuildTurns(hde: Decoder, mem: Memory, target: int, o: nat, newPos: nat, n: nat, jmpDest: int)
    returns (move: Move, e: Entry)
    requires SaneLengths(hde, mem, target) && Standing(hde, mem, target, o, newPos, n, jmpDest)
    ensures move == Relocate(At(hde, mem, target, o), target, o, jmpDest) && e.oldIP == o
    ensures move.Moved? ==> newPos + Size(move.piece) >= 0
    ensures Movable(hde, mem, target, o) ==> move.Moved?
    ensures
      var plan := Build(hde, mem, target, SLOT_SIZE, o, newPos, n, jmpDest);
      if !Movable(hde, mem, target, o) then plan == None
      else if Ends(hde, mem, target, o) then
        plan == Some(Plan([e], o + At(hde, mem, target, o).len, newPos + Size(move.piece)))
      else
        plan == Cons(e, Build(hde, mem, target, SLOT_SIZE, o + At(hde, mem, target, o).len, newPos + Size(move.piece), n + 1, move.jmpDest))
  {
    move := Relocate(At(hde, mem, target, o), target, o, jmpDest);
    e := Entry(o, newPos, if move.Moved? then move.piece else Copied(0));
    MoveSaid(hde, mem, target, o, jmpDest);
    RoomyTurn(hde, mem, target, o, newPos, n, jmpDest);
    BuildUnfolds(hde, mem, target, o, newPos, n, jmpDest);
  }

  lemma StandingOn(hde: Decoder, mem: Memory, target: int, o: nat, newPos: nat, n: nat, jmpDest: int, move: Move)
    requires SaneLengths(hde, mem, target) && Standing(hde, mem, target, o, newPos, n, jmpDest)
    requires move == Relocate(At(hde, mem, target, o), target, o, jmpDest) && move.Moved?
    requires !Ends(hde, mem, target, o) && newPos + Size(move.piece) >= 0
    ensures Standing(hde, mem, target, o + At(hde, mem, target, o).len, newPos + Size(move.piece), n + 1, move.jmpDest)
  {
    MoveSaid(hde, mem, target, o, jmpDest);
    RoomyTurn(hde, mem, target, o, newPos, n, jmpDest);
    ReachedOn(hde, mem, target, o);
    TrackedTurn(hde, mem, target, o, jmpDest);
  }

  lemma RightOn(hde: Decoder, mem: Memory, target: int, o: nat, e: Entry, rest: Option<Plan>)
    requires Reached(hde, mem, target, o) && Movable(hde, mem, target, o) && !Ends(hde, mem, target, o)
    requires e.oldIP == o && Right(hde, mem, target, o + At(hde, mem, target, o).len, rest)
    ensures Right(hde, mem, target, o, Cons(e, rest))
  {
    AllMovableTurn(hde, mem, target, o);
    if rest.Some? {
      HasReachedMore(hde, mem, target, o, e, rest.value);
    }
  }

  lemma RightHere(hde: Decoder, mem: Memory, target: int, o: nat, e: Entry, newEnd: int)
    requires Reached(hde, mem, target, o) && e.oldIP == o
    ensures !Movable(hde, mem, target, o) ==> Right(hde, mem, target, o, None)
    ensures Movable(hde, mem, target, o) && Ends(hde, mem, target, o) ==>
      Right(hde, mem, target, o, Some(Plan([e], o + At(hde, mem, target, o).len, newEnd)))
  {
    AllMovableTurn(hde, mem, target, o);
    if Ends(hde, mem, target, o) {
      HasReachedOne(hde, mem, target, o, e, o + At(hde, mem, target, o).len, newEnd);
    }
  }

  lemma {:induction false} BuildsFrom(hde: Decoder, mem: Memory, target: int, o: nat, newPos: nat, n: nat, jmpDest: int)
    requires SaneLengths(hde, mem, target) && Standing(hde, mem, target, o, newPos, n, jmpDest)
    ensures Right(hde, mem, target, o, Build(hde, mem, target, SLOT_SIZE, o, newPos, n, jmpDest))
    decreases 20 - o
  {
    var move, e := BuildTurns(hde, mem, target, o, newPos, n, jmpDest);
    if Movable(hde, mem, target, o) && !Ends(hde, mem, target, o) {
      var o', newPos' := o + At(hde, mem, target, o).len, newPos + Size(move.piece);
      StandingOn(hde, mem, target, o, newPos, n, jmpDest, move);
      BuildsFrom(hde, mem, target, o', newPos', n + 1, move.jmpDest);
      RightOn(hde, mem, target, o, e, Build(hde, mem, target, SLOT_SIZE, o', newPos', n + 1, move.jmpDest));
    } else {
      RightHere(hde, mem, target, o, e, if move.Moved? then newPos + Size(move.piece) else 0);
    }
  }

  // --- The jump to the detour -----------------------------------------------------------

  predicate IsFiller(b: Byte) {
    b == 0x00 || b == 0x90 || b == 0xCC
  }

  /** The bytes between two addresses are one filler byte repeated. */
  ghost predicate Filled(mem: Memory, from: int, to: int) {
    exists b :: IsFiller(b) && forall a {:trigger mem(a)} :: from <= a < to ==> mem(a) == b
  }

  lemma FilledExactly(mem: Memory, at: int, size: nat)
    requires size > 0
    ensures IsCodePadding(mem, at, size) <==> Filled(mem, at, at + size)
  {
    if IsCodePadding(mem, at, size) {
      assert IsFiller(mem(at));
    }
  }

  /** Five bytes at the target are free once the moved instructions are gone. */
  ghost predicate LongFits(mem: Memory, target: int, oldEnd: int) {
    oldEnd >= 5 || Filled(mem, target + oldEnd, target + 5)
  }

  ghost predicate ShortFits(mem: Memory, target: int, oldEnd: int, executableAbove: bool) {
    && (oldEnd >= 2 || Filled(mem, target + oldEnd, target + 2))
    && executableAbove && Filled(mem, target - 5, target)
  }

  lemma PlaceExactly(mem: Memory, target: int, oldEnd: nat, executableAbove: bool)
    ensures PatchPlace(mem, target, oldEnd, executableAbove) ==
      if LongFits(mem, target, oldEnd) then AtTarget
      else if ShortFits(mem, target, oldEnd, executableAbove) then Above
      else NoRoom
  {
    if oldEnd < 5 {
      FilledExactly(mem, target + oldEnd, 5 - oldEnd);
    }
    if oldEnd < 2 {
      FilledExactly(mem, target + oldEnd, 2 - oldEnd);
    }
    FilledExactly(mem, target - 5, 5);
  }

  /** The function's end and whether a jump fits there. */
  ghost predicate HasRoom(hde: Decoder, mem: Memory, target: int, executableAbove: bool) {
    exists p: nat :: Reached(hde, mem, target, p) && Ends(hde, mem, target, p)
      && RoomBehind(mem, target, p + At(hde, mem, target, p).len, executableAbove)
  }

  ghost predicate RoomBehind(mem: Memory, target: int, oldEnd: nat, executableAbove: bool) {
    LongFits(mem, target, oldEnd) || ShortFits(mem, target, oldEnd, executableAbove)
  }

  lemma OneEnd(hde: Decoder, mem: Memory, target: int, p: nat, q: nat)
    requires Reached(hde, mem, target, p) && Ends(hde, mem, target, p)
    requires Reached(hde, mem, target, q) && Ends(hde, mem, target, q)
    ensures p == q
  {
  }

  /** A function gets a trampoline exactly if every instruction up to its end can be moved
      and the jump to the detour fits behind them. Its instructions are then moved one and
      all, and nothing else is. */
  lemma HookableExactly(hde: Decoder, mem: Memory, target: int, executableAbove: bool)
    requires 0 <= target && SaneLengths(hde, mem, target)
    ensures var created := Create(hde, mem, target, SLOT_SIZE, executableAbove);
      && (created.Some? <==> AllMovable(hde, mem, target, 0) && HasRoom(hde, mem, target, executableAbove))
      && (created.Some? ==>
            && HasReached(hde, mem, target, 0, created.value.0) && EndsRight(hde, mem, target, created.value.0)
            && (created.value.1 == AtTarget <==> LongFits(mem, target, created.value.0.oldEnd)))
  {
    BuildsFrom(hde, mem, target, 0, 0, 0, 0);
    var plan := Build(hde, mem, target, SLOT_SIZE, 0, 0, 0, 0);
    if plan.Some? {
      var p: nat :| Reached(hde, mem, target, p) && Ends(hde, mem, target, p)
        && plan.value.oldEnd == p + At(hde, mem, target, p).len;
      PlaceExactly(mem, target, plan.value.oldEnd, executableAbove);
      forall q: nat | Reached(hde, mem, target, q) && Ends(hde, mem, target, q) ensures q == p {
        OneEnd(hde, mem, target, p, q);
      }
    }
  }
}
