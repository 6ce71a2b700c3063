/** The table of hooks and the code they patch: memory is the original code with jumps over
    it for exactly the hooks that are enabled. */
module Hooks {
  import opened Trampolines

  const INITIAL_CAPACITY := 32

  /** A one-bit field of a signed type keeps its truth as -1. */
  type Bit = b: int | -1 <= b <= 0

  function ToBit(flag: int): Bit {
    if flag % 2 == 0 then 0 else -1
  }

  const TRUE := 1
  const FALSE := 0

  datatype Hook = Hook(
    target: int, detour: int, trampoline: int, backup: seq<Byte>, above: bool, isEnabled: Bit, queueEnable: Bit)

  datatype Status = Ok | NotExecutable | AlreadyCreated | NotCreated | Unsupported | MemoryAlloc | MemoryProtect | Enabled | Disabled

  // --- Patches -----------------------------------------------------------------------------

  function Low(h: Hook): int {
    if h.above then h.target - JMP_REL else h.target
  }

  function Length(h: Hook): nat {
    if h.above then JMP_REL + JMP_REL_SHORT else JMP_REL
  }

  predicate Covered(h: Hook, a: int) {
    Low(h) <= a < Low(h) + Length(h)
  }

  /** The jump to the detour; above the target it is reached by a short jump back. */
  function Jump(h: Hook): (bytes: seq<Byte>)
    ensures |bytes| == Length(h)
  {
    [0xE9] + LittleEndian(h.detour - (Low(h) + JMP_REL)) + if h.above then [0xEB, (0 - (JMP_REL_SHORT + JMP_REL)) % 256] else []
  }

  function Overwrite(mem: Memory, at: int, bytes: seq<Byte>): Memory {
    a => if at <= a < at + |bytes| then bytes[a - at] else mem(a)
  }

  /** The code with a hook switched on or off. */
  function Switched(mem: Memory, h: Hook, enable: int): Memory {
    Overwrite(mem, Low(h), if enable != FALSE then Jump(h) else h.backup)
  }

  // --- What holds of the table and the code ------------------------------------------------

  predicate Disjoint(g: Hook, h: Hook) {
    Low(g) + Length(g) <= Low(h) || Low(h) + Length(h) <= Low(g)
  }

  predicate Pairwise(hooks: seq<Hook>) {
    forall i, j {:trigger hooks[i], hooks[j]} :: 0 <= i < j < |hooks| ==> hooks[i].target != hooks[j].target && Disjoint(hooks[i], hooks[j])
  }

  predicate BackedUp(original: Memory, h: Hook) {
    h.backup == Window(original, Low(h), Length(h))
  }

  predicate EnabledAt(hooks: seq<Hook>, a: int) {
    exists i :: 0 <= i < |hooks| && hooks[i].isEnabled != 0 && Covered(hooks[i], a)
  }

  predicate Jumps(mem: Memory, h: Hook) {
    Window(mem, Low(h), Length(h)) == Jump(h)
  }

  /** Memory is the original code overlaid with the jumps of the enabled hooks. */
  ghost predicate Overlaid(original: Memory, mem: Memory, hooks: seq<Hook>) {
    && (forall i {:trigger hooks[i]} :: 0 <= i < |hooks| && hooks[i].isEnabled != 0 ==> Jumps(mem, hooks[i]))
    && (forall a {:trigger mem(a)} :: !EnabledAt(hooks, a) ==> mem(a) == original(a))
  }

  ghost predicate Consistent(original: Memory, mem: Memory, hooks: seq<Hook>) {
    && Pairwise(hooks) && Overlaid(original, mem, hooks)
    && forall i {:trigger hooks[i]} :: 0 <= i < |hooks| ==> BackedUp(original, hooks[i])
  }

  // --- Switching one hook ------------------------------------------------------------------

  function Flagged(h: Hook, enable: int): Hook {
    h.(isEnabled := ToBit(enable), queueEnable := ToBit(enable))
  }

  /** The flags of a hook have no part in its patch. */
  lemma SamePatch(h: Hook, isEnabled: Bit, queueEnable: Bit)
    ensures var h' := h.(isEnabled := isEnabled, queueEnable := queueEnable);
      Jump(h') == Jump(h) && Low(h') == Low(h) && Length(h') == Length(h)
  {
  }

  lemma JumpsSame(mem: Memory, h: Hook, isEnabled: Bit, queueEnable: Bit)
    ensures Jumps(mem, h.(isEnabled := isEnabled, queueEnable := queueEnable)) == Jumps(mem, h)
  {
    SamePatch(h, isEnabled, queueEnable);
  }

  lemma WindowOverwritten(mem: Memory, at: int, bytes: seq<Byte>)
    ensures Window(Overwrite(mem, at, bytes), at, |bytes|) == bytes
  {
  }

  lemma WindowElsewhere(mem: Memory, at: int, bytes: seq<Byte>, low: int, n: nat)
    requires low + n <= at || at + |bytes| <= low
    ensures Window(Overwrite(mem, at, bytes), low, n) == Window(mem, low, n)
  {
  }

  lemma SwitchJumps(original: Memory, mem: Memory, hooks: seq<Hook>, pos: nat, enable: int, i: nat)
    requires Consistent(original, mem, hooks) && pos < |hooks| && i < |hooks| && (enable == TRUE || enable == FALSE || enable == -1)
    requires hooks[pos := Flagged(hooks[pos], enable)][i].isEnabled != 0
    ensures Jumps(Switched(mem, hooks[pos], enable), hooks[pos := Flagged(hooks[pos], enable)][i])
  {
    if i == pos {
      SwitchedOn(mem, hooks[pos], enable);
    } else {
      assert hooks[pos := Flagged(hooks[pos], enable)][i] == hooks[i];
      SwitchElsewhere(original, mem, hooks[pos], enable, hooks[i]);
    }
  }

  lemma SwitchedOn(mem: Memory, h: Hook, enable: int)
    requires enable != FALSE
    ensures Jumps(Switched(mem, h, enable), Flagged(h, enable))
  {
    WindowOverwritten(mem, Low(h), Jump(h));
    JumpsSame(Switched(mem, h, enable), h, ToBit(enable), ToBit(enable));
  }

  lemma SwitchElsewhere(original: Memory, mem: Memory, h: Hook, enable: int, other: Hook)
    requires Disjoint(other, h) || Disjoint(h, other)
    requires BackedUp(original, h) && Jumps(mem, other)
    ensures Jumps(Switched(mem, h, enable), other)
  {
    WindowElsewhere(mem, Low(h), if enable != FALSE then Jump(h) else h.backup, Low(other), Length(other));
  }

  lemma SwitchRest(original: Memory, mem: Memory, hooks: seq<Hook>, pos: nat, enable: int, a: int)
    requires Consistent(original, mem, hooks) && pos < |hooks| && (enable == TRUE || enable == FALSE || enable == -1)
    requires !EnabledAt(hooks[pos := Flagged(hooks[pos], enable)], a)
    ensures Switched(mem, hooks[pos], enable)(a) == original(a)
  {
    var hooks' := hooks[pos := Flagged(hooks[pos], enable)];
    var h := hooks[pos];
    assert !(hooks'[pos].isEnabled != 0 && Covered(hooks'[pos], a));
    if Covered(h, a) {
      assert h.backup[a - Low(h)] == Window(original, Low(h), Length(h))[a - Low(h)];
    } else {
      forall i | 0 <= i < |hooks|
        ensures !(hooks[i].isEnabled != 0 && Covered(hooks[i], a))
      {
        assert i != pos ==> hooks'[i] == hooks[i];
      }
    }
  }

  lemma SwitchHolds(original: Memory, mem: Memory, hooks: seq<Hook>, pos: nat, enable: int)
    requires Consistent(original, mem, hooks) && pos < |hooks| && (enable == TRUE || enable == FALSE || enable == -1)
    ensures Consistent(original, Switched(mem, hooks[pos], enable), hooks[pos := Flagged(hooks[pos], enable)])
  {
    var hooks' := hooks[pos := Flagged(hooks[pos], enable)];
    forall i | 0 <= i < |hooks'| && hooks'[i].isEnabled != 0
      ensures Jumps(Switched(mem, hooks[pos], enable), hooks'[i])
    {
      SwitchJumps(original, mem, hooks, pos, enable, i);
    }
    forall a | !EnabledAt(hooks', a)
      ensures Switched(mem, hooks[pos], enable)(a) == original(a)
    {
      SwitchRest(original, mem, hooks, pos, enable, a);
    }
  }

  // --- Where the patch leads -----------------------------------------------------------------

  /** The signed value of a displacement of one byte. */
  function Signed(b: Byte): int {
    if b < 0x80 then b else b - 0x100
  }

  lemma FirstBytes(mem: Memory, at: int, bytes: seq<Byte>, n: nat)
    requires n <= |bytes| && Window(mem, at, |bytes|) == bytes
    ensures Window(mem, at, n) == bytes[..n]
  {
    forall i | 0 <= i < n
      ensures Window(mem, at, n)[i] == bytes[i]
    {
      assert Window(mem, at, |bytes|)[i] == bytes[i];
    }
  }

  /** An enabled hook's code is a jump to the detour. If it stands above the target, the two
      bytes at the target jump back to it, the one way a function is entered. */
  lemma EnabledLeadsToDetour(original: Memory, mem: Memory, hooks: seq<Hook>, i: nat, hde: Decoder)
    requires Consistent(original, mem, hooks) && i < |hooks| && hooks[i].isEnabled != 0
    requires DecoderOk(hde) && 0 <= hooks[i].detour < MODULUS
    ensures var h := hooks[i];
      var at := if h.above then h.target - 5 else h.target;
      var jmp := Decode(hde, mem, at);
      && jmp.opcode == 0xE9 && Destination(jmp, at) == h.detour
      && (h.above ==> mem(h.target) == 0xEB && h.target + 2 + Signed(mem(h.target + 1)) == at)
  {
    LongJumpLeads(mem, hooks[i], hde);
    if hooks[i].above {
      ShortJumpLeads(mem, hooks[i]);
    }
  }

  lemma JumpParts(h: Hook)
    ensures Jump(h)[..JMP_REL] == [0xE9] + LittleEndian(h.detour - (Low(h) + JMP_REL))
    ensures h.above ==> Jump(h)[5] == 0xEB && Jump(h)[6] == 249
  {
  }

  lemma LongJumpLeads(mem: Memory, h: Hook, hde: Decoder)
    requires Jumps(mem, h) && DecoderOk(hde) && 0 <= h.detour < MODULUS
    ensures var jmp := Decode(hde, mem, Low(h)); jmp.opcode == 0xE9 && Destination(jmp, Low(h)) == h.detour
  {
    FirstBytes(mem, Low(h), Jump(h), JMP_REL);
    JumpParts(h);
    JumpDecodes(hde, mem, Low(h), 0xE9, h.detour);
  }

  lemma ShortJumpLeads(mem: Memory, h: Hook)
    requires Jumps(mem, h) && h.above
    ensures mem(h.target) == 0xEB && h.target + 2 + Signed(mem(h.target + 1)) == h.target - 5
  {
    var w := Window(mem, Low(h), Length(h));
    JumpParts(h);
    assert w[5] == mem(h.target) && w[6] == mem(h.target + 1);
  }

  /** A disabled hook's code is the original, if no other hook covers it. */
  lemma DisabledIsOriginal(original: Memory, mem: Memory, hooks: seq<Hook>, i: nat, a: int)
    requires Consistent(original, mem, hooks) && i < |hooks| && hooks[i].isEnabled == 0 && Covered(hooks[i], a)
    ensures mem(a) == original(a)
  {
    forall j | 0 <= j < |hooks| && hooks[j].isEnabled != 0
      ensures !Covered(hooks[j], a)
    {
      assert j < i ==> Disjoint(hooks[j], hooks[i]);
      assert i < j ==> Disjoint(hooks[i], hooks[j]);
    }
  }

  // --- Adding, removing and queueing -------------------------------------------------------

  /** A new hook far from the others sees the original code. */
  lemma AddHolds(original: Memory, mem: Memory, hooks: seq<Hook>, h: Hook)
    requires Consistent(original, mem, hooks) && h.isEnabled == 0 && h.backup == Window(mem, Low(h), Length(h))
    requires forall i {:trigger hooks[i]} :: 0 <= i < |hooks| ==> hooks[i].target != h.target && Disjoint(hooks[i], h)
    ensures Consistent(original, mem, hooks + [h])
  {
    forall a | Covered(h, a)
      ensures mem(a) == original(a)
    {
      assert !EnabledAt(hooks, a);
    }
    assert Window(mem, Low(h), Length(h)) == Window(original, Low(h), Length(h));
    forall a | !EnabledAt(hooks + [h], a)
      ensures mem(a) == original(a)
    {
      assert !EnabledAt(hooks, a) by {
        forall i | 0 <= i < |hooks|
          ensures !(hooks[i].isEnabled != 0 && Covered(hooks[i], a))
        {
          assert (hooks + [h])[i] == hooks[i];
        }
      }
    }
  }

  function SwapRemoved(hooks: seq<Hook>, pos: nat): seq<Hook>
    requires pos < |hooks|
  {
    hooks[pos := hooks[|hooks| - 1]][..|hooks| - 1]
  }

  /** The last hook takes the place of one that is switched off and removed. */
  lemma RemoveHolds(original: Memory, mem: Memory, hooks: seq<Hook>, pos: nat)
    requires Consistent(original, mem, hooks) && pos < |hooks| && hooks[pos].isEnabled == 0
    ensures Consistent(original, mem, SwapRemoved(hooks, pos))
  {
    var hooks', last := SwapRemoved(hooks, pos), |hooks| - 1;
    forall i, j | 0 <= i < j < |hooks'|
      ensures hooks'[i].target != hooks'[j].target && Disjoint(hooks'[i], hooks'[j])
    {
      var i', j' := if i == pos then last else i, if j == pos then last else j;
      assert hooks'[i] == hooks[i'] && hooks'[j] == hooks[j'] && i' != j';
    }
    forall a | !EnabledAt(hooks', a)
      ensures mem(a) == original(a)
    {
      forall i | 0 <= i < |hooks|
        ensures !(hooks[i].isEnabled != 0 && Covered(hooks[i], a))
      {
        if i != pos {
          var i' := if i == last then pos else i;
          assert hooks'[i'] == hooks[i];
        }
      }
    }
  }

  lemma QueuedSame(original: Memory, mem: Memory, h: Hook, queueEnable: Bit)
    requires BackedUp(original, h)
    ensures var h' := h.(queueEnable := queueEnable);
      Jumps(mem, h') == Jumps(mem, h) && BackedUp(original, h') && Low(h') == Low(h) && Length(h') == Length(h)
  {
    SamePatch(h, h.isEnabled, queueEnable);
    JumpsSame(mem, h, h.isEnabled, queueEnable);
  }

  lemma QueueHolds(original: Memory, mem: Memory, hooks: seq<Hook>, hooks': seq<Hook>)
    requires Consistent(original, mem, hooks) && |hooks'| == |hooks|
    requires forall i {:trigger hooks'[i]} :: 0 <= i < |hooks| ==> hooks'[i] == hooks[i].(queueEnable := hooks'[i].queueEnable)
    ensures Consistent(original, mem, hooks')
  {
    forall i | 0 <= i < |hooks|
      ensures Jumps(mem, hooks'[i]) == Jumps(mem, hooks[i]) && BackedUp(original, hooks'[i])
      ensures Low(hooks'[i]) == Low(hooks[i]) && Length(hooks'[i]) == Length(hooks[i])
    {
      QueuedSame(original, mem, hooks[i], hooks'[i].queueEnable);
    }
    forall a | !EnabledAt(hooks', a)
      ensures mem(a) == original(a)
    {
      forall i | 0 <= i < |hooks|
        ensures !(hooks[i].isEnabled != 0 && Covered(hooks[i], a))
      {
        assert hooks'[i].isEnabled == hooks[i].isEnabled;
      }
    }
  }

  // --- Switching many hooks ------------------------------------------------------------------

  /** The state a hook is wanted in: one for all, or the one that is queued for it. */
  datatype Wish = ForAll(enable: int) | Queued

  function Wanted(h: Hook, w: Wish): int {
    match w
    case ForAll(enable) => enable
    case Queued => h.queueEnable
  }

  predicate Differs(h: Hook, w: Wish) {
    h.isEnabled != Wanted(h, w)
  }

  /** The first hook that has to be switched but may not be; their number if there is none. */
  function FirstRefused(hooks: seq<Hook>, w: Wish, allowed: nat -> bool, from: nat): (n: nat)
    requires from <= |hooks|
    ensures from <= n <= |hooks| && (n < |hooks| ==> Differs(hooks[n], w) && !allowed(n))
    ensures forall i {:trigger hooks[i]} :: from <= i < n && Differs(hooks[i], w) ==> allowed(i)
    decreases |hooks| - from
  {
    if from == |hooks| || (Differs(hooks[from], w) && !allowed(from)) then from else FirstRefused(hooks, w, allowed, from + 1)
  }

  /** The hooks before the n-th are in the wanted state, the others as they were. */
  function Applied(hooks: seq<Hook>, w: Wish, n: nat): (after: seq<Hook>)
    ensures |after| == |hooks|
    ensures forall i {:trigger after[i]} :: 0 <= i < |hooks| ==>
      after[i] == if i < n && Differs(hooks[i], w) then Flagged(hooks[i], Wanted(hooks[i], w)) else hooks[i]
  {
    seq(|hooks|, i requires 0 <= i < |hooks| =>
      if i < n && Differs(hooks[i], w) then Flagged(hooks[i], Wanted(hooks[i], w)) else hooks[i])
  }

  lemma AppliedNext(hooks: seq<Hook>, w: Wish, n: nat)
    requires n < |hooks|
    ensures Applied(hooks, w, n)[n] == hooks[n]
    ensures Applied(hooks, w, n + 1)
         == if Differs(hooks[n], w) then Applied(hooks, w, n)[n := Flagged(hooks[n], Wanted(hooks[n], w))] else Applied(hooks, w, n)
  {
  }

  /** Once all hooks have been gone through they are as wanted. */
  lemma AppliedToAll(hooks: seq<Hook>, w: Wish)
    requires w.ForAll? ==> w.enable == TRUE || w.enable == FALSE
    ensures forall i {:trigger Applied(hooks, w, |hooks|)[i]} :: 0 <= i < |hooks| ==>
      && Applied(hooks, w, |hooks|)[i].isEnabled == ToBit(Wanted(hooks[i], w))
      && (w.Queued? ==> Applied(hooks, w, |hooks|)[i].queueEnable == hooks[i].queueEnable == ToBit(hooks[i].queueEnable))
  {
  }

  lemma AppliedNone(hooks: seq<Hook>, w: Wish)
    ensures Applied(hooks, w, 0) == hooks
  {
  }

  lemma AppliedSame(hooks: seq<Hook>, w: Wish, n: nat)
    ensures SameHooks(hooks, Applied(hooks, w, n))
  {
  }

  /** The jump of an enabled hook is written over itself. */
  lemma PatchedAgain(mem: Memory, h: Hook, a: int)
    requires Jumps(mem, h)
    ensures Switched(mem, h, TRUE)(a) == mem(a)
  {
    if Covered(h, a) {
      assert Window(mem, Low(h), Length(h))[a - Low(h)] == Jump(h)[a - Low(h)];
    }
  }

  // --- The table ------------------------------------------------------------------------------

  const NO_HOOK := Hook(0, 0, 0, [], false, 0, 0)

  /** The hooks before and after differ in their flags only. */
  predicate SameHooks(before: seq<Hook>, after: seq<Hook>) {
    |after| == |before| && forall i {:trigger after[i]} :: 0 <= i < |after| ==>
      after[i] == before[i].(isEnabled := after[i].isEnabled, queueEnable := after[i].queueEnable)
  }

  /** The hook at `pos` is gone, the last one has taken its place, the others are untouched. */
  predicate RemovedAt(before: seq<Hook>, after: seq<Hook>, pos: nat) {
    && pos < |before| && |after| == |before| - 1
    && (forall i {:trigger after[i]} :: 0 <= i < |after| ==> after[i] == before[if i == pos then |before| - 1 else i])
  }

  predicate HasTarget(hooks: seq<Hook>, target: int) {
    exists i {:trigger hooks[i]} :: 0 <= i < |hooks| && hooks[i].target == target
  }

  /** Switching the hook at `i`: one that is off already is reported, one that is on is
      switched on again. */
  ghost predicate SwitchedOne(
    before: seq<Hook>, mem0: Memory, i: nat, enable: int, allowed: bool, after: seq<Hook>, mem: Memory, status: Status)
    requires i < |before|
  {
    if enable == FALSE && before[i].isEnabled == 0 then status == Disabled && after == before && mem == mem0
    else if allowed then
      var flag := if enable != FALSE then -1 else 0;
      && status == Ok && after == before[i := before[i].(isEnabled := flag, queueEnable := flag)]
      && mem == Switched(mem0, before[i], enable)
    else status == MemoryProtect && after == before && mem == mem0
  }

  class HookTable {
    var items: array<Hook>
    var size: nat
    var memory: Memory
    ghost const original: Memory

    ghost predicate Valid()
      reads this, items
    {
      size <= items.Length && Consistent(original, memory, items[..size])
    }

    ghost function Hooks(): seq<Hook>
      requires size <= items.Length
      reads this, items
    {
      items[..size]
    }

    constructor (code: Memory)
      ensures Valid() && Hooks() == [] && memory == code && original == code && fresh(items)
    {
      items := new Hook[0];
      size, memory, original := 0, code, code;
    }

    method FindHookEntry(target: int) returns (pos: int)
      requires size <= items.Length
      ensures -1 <= pos < size
      ensures pos >= 0 ==> items[pos].target == target
      ensures pos < 0 ==> forall i :: 0 <= i < size ==> items[i].target != target
    {
      pos := 0;
      while pos < size
        invariant 0 <= pos <= size
        invariant forall i :: 0 <= i < pos ==> items[i].target != target
      {
        if items[pos].target == target {
          return;
        }
        pos := pos + 1;
      }
      return -1;
    }

    /** The hooks move to a larger or smaller array. */
    method Resize(capacity: nat)
      requires size <= items.Length && size <= capacity
      modifies this`items
      ensures fresh(items) && items.Length == capacity && Hooks() == old(Hooks())
    {
      var more := new Hook[capacity](_ => NO_HOOK);
      var i := 0;
      while i < size
        invariant i <= size <= more.Length && items == old(items) && size <= items.Length
        invariant more[..i] == items[..i]
      {
        more[i] := items[i];
        i := i + 1;
      }
      items := more;
    }

    /** A new entry at the end; `memoryLeft` says whether the heap has room for a larger array. */
    method NewHookEntry(h: Hook, memoryLeft: bool) returns (ok: bool)
      requires size <= items.Length
      modifies this`items, this`size, items
      ensures items == old(items) || fresh(items)
      ensures size <= items.Length && Hooks() == old(Hooks()) + if ok then [h] else []
      ensures !ok ==> !memoryLeft
    {
      if items.Length == 0 {
        if !memoryLeft {
          return false;
        }
        Resize(INITIAL_CAPACITY);
      } else if size >= items.Length {
        if !memoryLeft {
          return false;
        }
        Resize(items.Length * 2);
      }
      items[size] := h;
      size := size + 1;
      return true;
    }

    /** The last entry fills the gap; a table that is half empty may shrink. */
    method DelHookEntry(pos: nat, memoryLeft: bool)
      requires pos < size <= items.Length
      modifies this`items, this`size, items
      ensures items == old(items) || fresh(items)
      ensures size <= items.Length && Hooks() == SwapRemoved(old(Hooks()), pos)
    {
      if pos < size - 1 {
        items[pos] := items[size - 1];
      }
      size := size - 1;
      assert Hooks() == SwapRemoved(old(Hooks()), pos);
      if items.Length / 2 >= INITIAL_CAPACITY && items.Length / 2 >= size && memoryLeft {
        Resize(items.Length / 2);
      }
    }

    /** `allowed` says whether the protection of the page can be changed. */
    method EnableHookLL(pos: nat, enable: int, allowed: bool) returns (status: Status)
      requires Valid() && pos < size && (enable == TRUE || enable == FALSE || enable == -1)
      modifies this`memory, items
      ensures Valid() && (status == Ok <==> allowed) && (status == Ok || status == MemoryProtect)
      ensures Hooks() == if allowed then old(Hooks())[pos := Flagged(old(Hooks())[pos], enable)] else old(Hooks())
      ensures memory == if allowed then Switched(old(memory), old(Hooks())[pos], enable) else old(memory)
    {
      if !allowed {
        return MemoryProtect;
      }
      SwitchHolds(original, memory, items[..size], pos, enable);
      ghost var before := items[..size];
      memory := Switched(memory, items[pos], enable);
      items[pos] := Flagged(items[pos], enable);
      assert items[..size] == before[pos := Flagged(before[pos], enable)];
      return Ok;
    }

    /** `allowed` answers for each hook. The first refusal ends it. */
    method EnableAllHooksLL(enable: int, allowed: nat -> bool) returns (status: Status)
      requires Valid() && (enable == TRUE || enable == FALSE)
      modifies this`memory, items
      ensures Valid() && SameHooks(old(Hooks()), Hooks())
      ensures status == Ok ==> forall i {:trigger Hooks()[i]} :: 0 <= i < size ==> Hooks()[i].isEnabled == ToBit(enable)
      ensures var n := FirstRefused(old(Hooks()), ForAll(enable), allowed, 0);
        Hooks() == Applied(old(Hooks()), ForAll(enable), n) && status == if n == |old(Hooks())| then Ok else MemoryProtect
    {
      status := SwitchAll(ForAll(enable), allowed);
    }

    /** Every hook that is not as wanted is switched, up to the first refusal. */
    method SwitchAll(w: Wish, allowed: nat -> bool) returns (status: Status)
      requires Valid() && (w.ForAll? ==> w.enable == TRUE || w.enable == FALSE)
      modifies this`memory, items
      ensures Valid() && SameHooks(old(Hooks()), Hooks())
      ensures var n := FirstRefused(old(Hooks()), w, allowed, 0);
        Hooks() == Applied(old(Hooks()), w, n) && status == if n == |old(Hooks())| then Ok else MemoryProtect
      ensures status == Ok ==> forall i {:trigger Hooks()[i]} :: 0 <= i < size ==>
        Hooks()[i].isEnabled == ToBit(Wanted(old(Hooks())[i], w)) && (w.Queued? ==> Hooks()[i].isEnabled == Hooks()[i].queueEnable)
    {
      ghost var before := Hooks();
      var i := 0;
      AppliedNone(before, w);
      while i < size
        invariant 0 <= i <= size && Valid() && Hooks() == Applied(before, w, i)
        invariant FirstRefused(before, w, allowed, 0) == FirstRefused(before, w, allowed, i)
      {
        AppliedSame(before, w, i);
        status := SwitchNext(w, i, allowed(i), before);
        if status != Ok {
          return;
        }
        i := i + 1;
      }
      AppliedSame(before, w, i);
      AppliedToAll(before, w);
      return Ok;
    }

    method SwitchNext(w: Wish, i: nat, allowed: bool, ghost before: seq<Hook>) returns (status: Status)
      requires Valid() && i < size && Hooks() == Applied(before, w, i) && (w.ForAll? ==> w.enable == TRUE || w.enable == FALSE)
      modifies this`memory, items
      ensures Valid()
      ensures if Differs(before[i], w) && !allowed then status == MemoryProtect && Hooks() == Applied(before, w, i)
        else status == Ok && Hooks() == Applied(before, w, i + 1)
    {
      AppliedNext(before, w, i);
      assert items[i] == Hooks()[i];
      status := Ok;
      if items[i].isEnabled != Wanted(items[i], w) {
        status := EnableHookLL(i, Wanted(items[i], w), allowed);
      }
    }

    /** A hook that is to be enabled once more is just patched again: its flag is -1, which is
        not the TRUE it is compared with. */
    method EnableHook(target: Option<int>, enable: int, allowed: nat -> bool) returns (status: Status)
      requires Valid() && (enable == TRUE || enable == FALSE)
      modifies this`memory, items
      ensures Valid() && SameHooks(old(Hooks()), Hooks()) && status != Enabled
      ensures status == Ok ==> forall i {:trigger Hooks()[i]} :: 0 <= i < size && (target.Some? ==> Hooks()[i].target == target.value) ==>
        Hooks()[i].isEnabled == ToBit(enable)
      ensures target == None ==>
        var n := FirstRefused(old(Hooks()), ForAll(enable), allowed, 0);
        Hooks() == Applied(old(Hooks()), ForAll(enable), n) && status == if n == |old(Hooks())| then Ok else MemoryProtect
      ensures target.Some? && !HasTarget(old(Hooks()), target.value) ==> status == NotCreated && Hooks() == old(Hooks())
      ensures target.Some? ==> forall i {:trigger old(Hooks())[i]} :: 0 <= i < |old(Hooks())| && old(Hooks())[i].target == target.value ==>
        SwitchedOne(old(Hooks()), old(memory), i, enable, allowed(i), Hooks(), memory, status)
    {
      if target == None {
        status := EnableAllHooksLL(enable, allowed);
      } else {
        var pos := FindHookEntry(target.value);
        assert forall i :: 0 <= i < size ==> items[i] == Hooks()[i];
        if pos < 0 {
          return NotCreated;
        }
        if items[pos].isEnabled == enable {
          return if enable == TRUE then Enabled else Disabled;
        }
        status := EnableHookLL(pos, enable, allowed(pos));
      }
    }

    method QueueHook(target: Option<int>, queueEnable: int) returns (status: Status)
      requires Valid()
      modifies items
      ensures Valid() && SameHooks(old(Hooks()), Hooks())
      ensures forall i {:trigger Hooks()[i]} :: 0 <= i < size ==>
        Hooks()[i] == if target == None || target == Some(old(Hooks())[i].target)
                      then old(Hooks())[i].(queueEnable := ToBit(queueEnable)) else old(Hooks())[i]
      ensures status == NotCreated <==>
        target.Some? && forall i {:trigger old(Hooks())[i]} :: 0 <= i < |old(Hooks())| ==> old(Hooks())[i].target != target.value
    {
      ghost var before := Hooks();
      if target == None {
        var i := 0;
        while i < size
          invariant 0 <= i <= size
          invariant forall k {:trigger items[k]} :: 0 <= k < size ==>
            items[k] == if k < i then before[k].(queueEnable := ToBit(queueEnable)) else before[k]
        {
          items[i] := items[i].(queueEnable := ToBit(queueEnable));
          i := i + 1;
        }
        status := Ok;
      } else {
        var pos := FindHookEntry(target.value);
        if pos < 0 {
          return NotCreated;
        }
        items[pos] := items[pos].(queueEnable := ToBit(queueEnable));
        status := Ok;
      }
      QueueHolds(original, memory, before, Hooks());
    }

    /** What has been queued is applied to all hooks, up to the first refusal. */
    method ApplyQueued(allowed: nat -> bool) returns (status: Status)
      requires Valid()
      modifies this`memory, items
      ensures Valid() && SameHooks(old(Hooks()), Hooks())
      ensures var n := FirstRefused(old(Hooks()), Queued, allowed, 0);
        Hooks() == Applied(old(Hooks()), Queued, n) && status == if n == |old(Hooks())| then Ok else MemoryProtect
      ensures status == Ok ==> forall i {:trigger Hooks()[i]} :: 0 <= i < size ==>
        Hooks()[i].isEnabled == Hooks()[i].queueEnable == old(Hooks())[i].queueEnable
    {
      status := SwitchAll(Queued, allowed);
    }

    /** `buffer` is the slot for the trampoline, `above` how it is reached once it is built;
        the patch of the new hook must not touch another's. */
    method CreateHook(target: int, detour: int, executable: bool, buffer: Option<int>, above: Option<bool>, memoryLeft: bool)
      returns (status: Status)
      requires Valid()
      requires above.Some? ==> forall i {:trigger Hooks()[i]} :: 0 <= i < size ==>
        Disjoint(Hooks()[i], NO_HOOK.(target := target, above := above.value))
      modifies this`items, this`size, items
      ensures items == old(items) || fresh(items)
      ensures Valid() && memory == old(memory)
      ensures if status == Ok then
          && buffer.Some? && above.Some?
          && exists h :: Hooks() == old(Hooks()) + [h] && h.target == target && h.detour == detour
              && h.trampoline == buffer.value && h.above == above.value && h.isEnabled == 0 == h.queueEnable
        else Hooks() == old(Hooks())
      ensures if !executable then status == NotExecutable
        else if HasTarget(old(Hooks()), target) then status == AlreadyCreated
        else if buffer == None then status == MemoryAlloc
        else if above == None then status == Unsupported
        else status == Ok || (status == MemoryAlloc && !memoryLeft)
    {
      if !executable {
        return NotExecutable;
      }
      var pos := FindHookEntry(target);
      assert forall i :: 0 <= i < size ==> items[i] == Hooks()[i];
      if pos >= 0 {
        return AlreadyCreated;
      }
      if buffer == None {
        return MemoryAlloc;
      }
      if above == None {
        return Unsupported;
      }
      var h := Hook(target, detour, buffer.value, [], above.value, 0, 0);
      h := h.(backup := Window(memory, Low(h), Length(h)));
      forall i | 0 <= i < size
        ensures Hooks()[i].target != target && Disjoint(Hooks()[i], h)
      {
        assert Hooks()[i] == items[i];
      }
      AddHolds(original, memory, Hooks(), h);
      ghost var before := Hooks();
      var ok := NewHookEntry(h, memoryLeft);
      assert before + [] == before;
      if !ok {
        return MemoryAlloc;
      }
      assert Hooks() == before + [h];
      return Ok;
    }

    /** An enabled hook is switched off first, so its code is what it was. */
    method RemoveHook(target: int, allowed: bool, memoryLeft: bool) returns (status: Status)
      requires Valid()
      modifies this, items
      ensures items == old(items) || fresh(items)
      ensures Valid()
      ensures status == Ok ==> exists pos: nat :: (pos < |old(Hooks())| && old(Hooks())[pos].target == target && RemovedAt(old(Hooks()), Hooks(), pos))
      ensures status != Ok ==> Hooks() == old(Hooks())
      ensures !HasTarget(old(Hooks()), target) <==> status == NotCreated
      ensures forall i {:trigger old(Hooks())[i]} :: 0 <= i < |old(Hooks())| && old(Hooks())[i].target == target ==>
        status == if old(Hooks())[i].isEnabled != 0 && !allowed then MemoryProtect else Ok
    {
      var pos := FindHookEntry(target);
      assert forall i :: 0 <= i < size ==> items[i] == Hooks()[i];
      if pos < 0 {
        return NotCreated;
      }
      if items[pos].isEnabled != 0 {
        status := EnableHookLL(pos, FALSE, allowed);
        if status != Ok {
          return;
        }
      }
      RemoveHolds(original, memory, Hooks(), pos);
      DelHookEntry(pos, memoryLeft);
      return Ok;
    }
  }

  /** A new hook is enabled twice: the second call succeeds like the first, and changes no
      byte of the code. */
  method EnableTwice(code: Memory, target: int, detour: int, buffer: int)
    returns (first: Status, second: Status, once: Memory, twice: Memory)
    ensures first == Ok && second == Ok
    ensures forall a :: twice(a) == once(a)
    ensures once(target) == 0xE9
  {
    var table := new HookTable(code);
    var created := table.CreateHook(target, detour, true, Some(buffer), Some(false), true);
    ghost var h := table.Hooks()[0];
    first := table.EnableHook(Some(target), TRUE, i => true);
    once := table.memory;
    ghost var h' := table.Hooks()[0];
    second := table.EnableHook(Some(target), TRUE, i => true);
    twice := table.memory;
    forall a
      ensures twice(a) == once(a)
    {
      PatchedAgain(once, h', a);
    }
    assert Window(once, Low(h'), Length(h'))[0] == Jump(h')[0];
  }
}
