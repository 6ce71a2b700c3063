/** The allocator of trampoline slots: blocks of one page, each with a list of free slots
    threaded through the slots themselves. */
module Buffers {

  const BLOCK_SIZE := 0x1000
  const SLOT_SIZE := 32
  /** The first slot of a block holds its header. */
  const SLOTS := 127

  const NULL := 0

  predicate IsSlot(block: int, slot: int) {
    exists k :: 0 < k <= SLOTS && slot == SlotAt(block, k)
  }

  function SlotAt(block: int, k: int): int {
    block + SLOT_SIZE * k
  }

  function Page(address: int): int {
    address / BLOCK_SIZE * BLOCK_SIZE
  }

  lemma SlotOnPage(block: int, slot: int)
    requires block % BLOCK_SIZE == 0 && IsSlot(block, slot)
    ensures Page(slot) == block && block + SLOT_SIZE <= slot && slot + SLOT_SIZE <= block + BLOCK_SIZE
  {
  }

  // --- Linked lists ------------------------------------------------------------------------

  predicate Distinct(list: seq<int>) {
    forall i, j :: 0 <= i < j < |list| ==> list[i] != list[j]
  }

  /** Following `next` from `start` gives the list and then NULL. */
  predicate Chain(next: map<int, int>, start: int, list: seq<int>) {
    && start == (if list == [] then NULL else list[0])
    && (forall i {:trigger list[i]} :: 0 <= i < |list| ==> list[i] != NULL && list[i] in next)
    && (forall i {:trigger next[list[i]]} :: 0 <= i < |list| ==> next[list[i]] == if i + 1 < |list| then list[i + 1] else NULL)
  }

  lemma ChainTail(next: map<int, int>, start: int, list: seq<int>)
    requires Chain(next, start, list) && list != []
    ensures start in next && Chain(next, next[start], list[1..])
  {
    forall i | 0 <= i < |list| - 1
      ensures list[1..][i] == list[i + 1]
    {
    }
  }

  lemma ChainPush(next: map<int, int>, start: int, list: seq<int>, x: int)
    requires Chain(next, start, list) && x != NULL && x !in list
    ensures Chain(next[x := start], x, [x] + list)
  {
    var list' := [x] + list;
    forall i | 0 <= i < |list'|
      ensures list'[i] != NULL && list'[i] in next[x := start]
      ensures next[x := start][list'[i]] == if i + 1 < |list'| then list'[i + 1] else NULL
    {
      if i > 0 {
        assert list'[i] == list[i - 1] && list[i - 1] in list;
      }
    }
  }

  /** Links of other nodes do not matter. */
  lemma ChainElsewhere(next: map<int, int>, next': map<int, int>, start: int, list: seq<int>)
    requires Chain(next, start, list)
    requires forall x {:trigger x in next'} :: x in list && x in next ==> x in next' && next'[x] == next[x]
    ensures Chain(next', start, list)
  {
    forall i | 0 <= i < |list|
      ensures list[i] in next' && next'[list[i]] == next[list[i]]
    {
      assert list[i] in list && list[i] in next;
    }
  }

  function Without(list: seq<int>, k: nat): seq<int>
    requires k < |list|
  {
    list[..k] + list[k + 1..]
  }

  lemma WithoutAt(list: seq<int>, k: nat, i: nat)
    requires k < |list| && i < |list| - 1
    ensures Without(list, k)[i] == list[if i < k then i else i + 1]
  {
  }

  lemma WithoutDistinct(list: seq<int>, k: nat)
    requires Distinct(list) && k < |list|
    ensures Distinct(Without(list, k)) && forall x :: x in Without(list, k) <==> x in list && x != list[k]
  {
    forall i, j | 0 <= i < j < |list| - 1
      ensures Without(list, k)[i] != Without(list, k)[j]
    {
      WithoutAt(list, k, i);
      WithoutAt(list, k, j);
    }
    forall x | x in list && x != list[k]
      ensures x in Without(list, k)
    {
      var j :| 0 <= j < |list| && list[j] == x;
      WithoutAt(list, k, if j < k then j else j - 1);
    }
  }

  /** Unlinking the first node. */
  lemma ChainDrop(next: map<int, int>, start: int, list: seq<int>)
    requires Chain(next, start, list) && list != []
    ensures Chain(next, next[start], Without(list, 0))
  {
    ChainTail(next, start, list);
    assert Without(list, 0) == list[1..];
  }

  /** Unlinking a later node through the one before it. */
  lemma ChainUnlink(next: map<int, int>, start: int, list: seq<int>, k: nat)
    requires Chain(next, start, list) && Distinct(list) && 0 < k < |list|
    ensures Chain(next[list[k - 1] := next[list[k]]], start, Without(list, k))
  {
    var list', next' := Without(list, k), next[list[k - 1] := next[list[k]]];
    assert list'[0] == list[0];
    forall i | 0 <= i < |list'|
      ensures list'[i] != NULL && list'[i] in next' && next'[list'[i]] == if i + 1 < |list'| then list'[i + 1] else NULL
    {
      UnlinkedAt(next, start, list, k, i);
    }
  }

  lemma UnlinkedAt(next: map<int, int>, start: int, list: seq<int>, k: nat, i: nat)
    requires Chain(next, start, list) && Distinct(list) && 0 < k < |list| && i < |list| - 1
    ensures var list', next' := Without(list, k), next[list[k - 1] := next[list[k]]];
      list'[i] != NULL && list'[i] in next' && next'[list'[i]] == if i + 1 < |list'| then list'[i + 1] else NULL
  {
    WithoutAt(list, k, i);
    if i + 1 < |list| - 1 {
      WithoutAt(list, k, i + 1);
    }
    assert list[k] in next && list[k - 1] in next;
    if i >= k {
      assert list[i + 1] in next && list[i + 1] != list[k - 1];
    } else if i < k - 1 {
      assert list[i] in next && list[i] != list[k - 1];
    }
  }

  lemma DistinctPush(list: seq<int>, x: int)
    requires Distinct(list) && x !in list
    ensures Distinct([x] + list) && forall y :: y in [x] + list <==> y == x || y in list
  {
    forall i, j | 0 <= i < j < |list| + 1
      ensures ([x] + list)[i] != ([x] + list)[j]
    {
      assert ([x] + list)[j] == list[j - 1] && (i > 0 ==> ([x] + list)[i] == list[i - 1]);
    }
  }

  // --- The state ---------------------------------------------------------------------------

  /** `nextSlot` are the links inside free slots, `live` the slots handed out; `order` and
      `free` are the lists the links make up. */
  datatype Pool = Pool(
    head: int, nextBlock: map<int, int>, firstFree: map<int, int>, used: map<int, int>, nextSlot: map<int, int>,
    live: set<int>, order: seq<int>, free: map<int, seq<int>>)

  ghost predicate FreeOrLive(free: seq<int>, live: set<int>, b: int) {
    forall s {:trigger IsSlot(b, s)} :: IsSlot(b, s) ==> (s in free <==> s !in live)
  }

  ghost predicate AllSlotsOf(free: seq<int>, b: int) {
    forall i {:trigger free[i]} :: 0 <= i < |free| ==> IsSlot(b, free[i])
  }

  ghost predicate BlockOk(p: Pool, b: int) {
    && b in p.firstFree && b in p.used && b in p.free && b in p.nextBlock
    && b > 0 && b % BLOCK_SIZE == 0
    && Chain(p.nextSlot, p.firstFree[b], p.free[b]) && Distinct(p.free[b])
    && FreeOrLive(p.free[b], p.live, b) && AllSlotsOf(p.free[b], b)
    && p.used[b] + |p.free[b]| == SLOTS
  }

  ghost predicate Sound(p: Pool) {
    && Chain(p.nextBlock, p.head, p.order) && Distinct(p.order)
    && (forall b {:trigger b in p.order} :: b in p.order ==> BlockOk(p, b))
    && (forall s {:trigger s in p.live} :: s in p.live ==> Page(s) in p.order && IsSlot(Page(s), s))
  }

  /** Besides, every block has a live slot: a block without one has been released. */
  ghost predicate NoneEmpty(p: Pool) {
    forall b {:trigger b in p.order} :: b in p.order && b in p.used ==> p.used[b] > 0
  }

  ghost predicate NoneEmptyBut(p: Pool, b: int) {
    forall o {:trigger o in p.order} :: o in p.order && o in p.used && o != b ==> p.used[o] > 0
  }

  /** Two slots that have been handed out do not overlap, and lie behind the header of their
      block. */
  lemma LiveSlotsApart(p: Pool, s: int, t: int)
    requires Sound(p) && s in p.live && t in p.live && s != t
    ensures s + 32 <= t || t + 32 <= s
    ensures Page(s) + 32 <= s && s + 32 <= Page(s) + 0x1000
  {
    var i :| 0 < i <= SLOTS && s == SlotAt(Page(s), i);
    var j :| 0 < j <= SLOTS && t == SlotAt(Page(t), j);
    if Page(s) == Page(t) {
      assert i != j;
    } else {
      PagesApart(Page(s), Page(t));
    }
  }

  lemma PagesApart(a: int, b: int)
    requires a % BLOCK_SIZE == 0 && b % BLOCK_SIZE == 0 && a != b
    ensures a + BLOCK_SIZE <= b || b + BLOCK_SIZE <= a
  {
    var i, j := a / BLOCK_SIZE, b / BLOCK_SIZE;
    assert a == BLOCK_SIZE * i && b == BLOCK_SIZE * j;
  }

  // --- Counting ----------------------------------------------------------------------------

  function SlotsUpTo(block: int, n: nat): (slots: seq<int>)
    requires n <= SLOTS
    ensures |slots| == n && forall k :: 0 <= k < n ==> slots[k] == SlotAt(block, n - k)
  {
    if n == 0 then [] else [SlotAt(block, n)] + SlotsUpTo(block, n - 1)
  }

  function LiveIn(p: Pool, b: int): set<int> {
    set s | s in p.live && IsSlot(b, s)
  }

  lemma {:induction false} SizeOfList(list: seq<int>)
    requires Distinct(list)
    ensures |set x | x in list| == |list|
  {
    if list != [] {
      var rest := list[1..];
      assert Distinct(rest) by {
        assert forall i :: 0 <= i < |rest| ==> rest[i] == list[i + 1];
      }
      SizeOfList(rest);
      assert (set x | x in list) == {list[0]} + (set x | x in rest);
    }
  }

  /** The slots of a block fill its page behind the header, and those not in use are free. */
  lemma PageIsFull(p: Pool, b: int)
    requires Sound(p) && b in p.order
    ensures p.used[b] + |p.free[b]| == 127 == 0x1000 / 32 - 1
    ensures forall s :: IsSlot(b, s) <==> b < s < b + 0x1000 && (s - b) % 32 == 0
  {
    assert BlockOk(p, b);
    forall s
      ensures IsSlot(b, s) <==> b < s < b + 0x1000 && (s - b) % 32 == 0
    {
      if b < s < b + 0x1000 && (s - b) % 32 == 0 {
        assert s == SlotAt(b, (s - b) / 32);
      }
    }
  }

  /** The use count of a block is the number of its live slots. */
  lemma UsedCountsLive(p: Pool, b: int)
    requires Sound(p) && b in p.order
    ensures |LiveIn(p, b)| == p.used[b]
  {
    var all := SlotsUpTo(b, SLOTS);
    var slots, free := set s | s in all, set s | s in p.free[b];
    SizeOfList(all);
    SizeOfList(p.free[b]);
    forall s
      ensures s in slots <==> IsSlot(b, s)
    {
      if IsSlot(b, s) {
        var k :| 0 < k <= SLOTS && s == SlotAt(b, k);
        assert all[SLOTS - k] == s;
      }
    }
    assert free <= slots && LiveIn(p, b) == slots - free;
  }

  // --- Steps -------------------------------------------------------------------------------

  function Taken(p: Pool, b: int): Pool
    requires b in p.firstFree && b in p.free && p.free[b] != [] && b in p.used && p.firstFree[b] in p.nextSlot
  {
    var s := p.firstFree[b];
    p.(firstFree := p.firstFree[b := p.nextSlot[s]], used := p.used[b := p.used[b] + 1], live := p.live + {s},
       free := p.free[b := p.free[b][1..]])
  }

  function GivenBack(p: Pool, b: int, s: int): Pool
    requires b in p.firstFree && b in p.free && b in p.used
  {
    p.(nextSlot := p.nextSlot[s := p.firstFree[b]], firstFree := p.firstFree[b := s], used := p.used[b := p.used[b] - 1],
       live := p.live - {s}, free := p.free[b := [s] + p.free[b]])
  }

  /** The links other than that of `s` are kept. */
  predicate KeepsLinks(next: map<int, int>, next': map<int, int>, s: int) {
    forall x {:trigger x in next'} :: x != s && x in next ==> x in next' && next'[x] == next[x]
  }

  lemma OtherBlockOk(p: Pool, p': Pool, o: int, s: int)
    requires BlockOk(p, o) && !IsSlot(o, s)
    requires o in p'.firstFree && p'.firstFree[o] == p.firstFree[o] && o in p'.used && p'.used[o] == p.used[o]
    requires o in p'.free && p'.free[o] == p.free[o] && o in p'.nextBlock
    requires KeepsLinks(p.nextSlot, p'.nextSlot, s)
    requires forall x :: x != s ==> (x in p'.live <==> x in p.live)
    ensures BlockOk(p', o)
  {
    NotListed(p.free[o], o, s);
    ChainKept(p.nextSlot, p'.nextSlot, p.firstFree[o], p.free[o], s);
    SameSlots(p.free[o], p.live, p'.live, o, s);
  }

  lemma ChainKept(next: map<int, int>, next': map<int, int>, start: int, list: seq<int>, s: int)
    requires Chain(next, start, list) && s !in list && KeepsLinks(next, next', s)
    ensures Chain(next', start, list)
  {
    forall i | 0 <= i < |list|
      ensures list[i] in next' && next'[list[i]] == next[list[i]]
    {
      assert list[i] in list;
    }
  }

  lemma NotListed(free: seq<int>, o: int, s: int)
    requires AllSlotsOf(free, o) && !IsSlot(o, s)
    ensures s !in free
  {
    assert forall i :: 0 <= i < |free| ==> free[i] != s;
  }

  lemma SameSlots(free: seq<int>, live: set<int>, live': set<int>, o: int, s: int)
    requires FreeOrLive(free, live, o) && !IsSlot(o, s) && forall x :: x != s ==> (x in live' <==> x in live)
    ensures FreeOrLive(free, live', o)
  {
  }

  lemma NoSlotOfOther(b: int, o: int, s: int)
    requires b % BLOCK_SIZE == 0 && o % BLOCK_SIZE == 0 && b != o && IsSlot(b, s)
    ensures !IsSlot(o, s)
  {
    PagesApart(b, o);
  }

  lemma DistinctTail(list: seq<int>)
    requires Distinct(list) && list != []
    ensures Distinct(list[1..]) && list[0] !in list[1..] && forall x :: x in list <==> x == list[0] || x in list[1..]
  {
    assert list == [list[0]] + list[1..];
    forall i, j | 0 <= i < j < |list| - 1
      ensures list[1..][i] != list[1..][j]
    {
      assert list[1..][i] == list[i + 1] && list[1..][j] == list[j + 1];
    }
  }

  lemma TakenBlockOk(p: Pool, b: int)
    requires BlockOk(p, b) && p.free[b] != []
    ensures p.firstFree[b] in p.nextSlot && BlockOk(Taken(p, b), b)
  {
    ChainTail(p.nextSlot, p.firstFree[b], p.free[b]);
    DistinctTail(p.free[b]);
    var p', s := Taken(p, b), p.firstFree[b];
    assert IsSlot(b, p.free[b][0]);
    forall i | 0 <= i < |p'.free[b]|
      ensures IsSlot(b, p'.free[b][i])
    {
      assert p'.free[b][i] == p.free[b][i + 1];
    }
  }

  lemma TakenHolds(p: Pool, b: int)
    requires Sound(p) && b in p.order && p.free[b] != []
    ensures p.firstFree[b] in p.nextSlot && Sound(Taken(p, b)) && p.firstFree[b] !in p.live && p.firstFree[b] != NULL
  {
    assert BlockOk(p, b);
    var s := p.firstFree[b];
    assert s == p.free[b][0] && IsSlot(b, p.free[b][0]);
    SlotOnPage(b, s);
    TakenBlockOk(p, b);
    var p' := Taken(p, b);
    forall o | o in p'.order
      ensures BlockOk(p', o)
    {
      if o != b {
        assert BlockOk(p, o);
        NoSlotOfOther(b, o, s);
        OtherBlockOk(p, p', o, s);
      }
    }
  }

  lemma GivenBackBlockOk(p: Pool, b: int, s: int)
    requires BlockOk(p, b) && s in p.live && IsSlot(b, s)
    ensures BlockOk(GivenBack(p, b, s), b)
  {
    SlotOnPage(b, s);
    ChainPush(p.nextSlot, p.firstFree[b], p.free[b], s);
    DistinctPush(p.free[b], s);
    var list := [s] + p.free[b];
    forall i | 0 <= i < |list|
      ensures IsSlot(b, list[i])
    {
      assert i > 0 ==> list[i] == p.free[b][i - 1];
    }
  }

  lemma GivenBackHolds(p: Pool, b: int, s: int)
    requires Sound(p) && b in p.order && s in p.live && Page(s) == b
    ensures Sound(GivenBack(p, b, s))
  {
    assert BlockOk(p, b);
    GivenBackBlockOk(p, b, s);
    var p' := GivenBack(p, b, s);
    forall o | o in p'.order
      ensures BlockOk(p', o)
    {
      if o != b {
        assert BlockOk(p, o);
        NoSlotOfOther(b, o, s);
        OtherBlockOk(p, p', o, s);
      }
    }
  }

  /** A fresh page joins the pool with all of its slots free. */
  function Joined(p: Pool, b: int, links: map<int, int>): Pool {
    p.(head := b, nextBlock := p.nextBlock[b := p.head], firstFree := p.firstFree[b := SlotAt(b, SLOTS)],
       used := p.used[b := 0], nextSlot := links, order := [b] + p.order, free := p.free[b := SlotsUpTo(b, SLOTS)])
  }

  /** The links of a fresh page lead through its slots, and those of other pages are kept. */
  predicate FreshLinks(p: Pool, b: int, links: map<int, int>) {
    && Chain(links, SlotAt(b, SLOTS), SlotsUpTo(b, SLOTS))
    && (forall x {:trigger x in links} :: x in p.nextSlot && !IsSlot(b, x) ==> x in links && links[x] == p.nextSlot[x])
  }

  lemma ListedAndFree(p: Pool, b: int, s: int)
    requires Sound(p) && b !in p.order && b % BLOCK_SIZE == 0 && IsSlot(b, s)
    ensures s in SlotsUpTo(b, SLOTS) && s !in p.live
  {
    var k :| 0 < k <= SLOTS && s == SlotAt(b, k);
    assert SlotsUpTo(b, SLOTS)[SLOTS - k] == s;
    SlotOnPage(b, s);
  }

  lemma JoinedBlockOk(p: Pool, b: int, links: map<int, int>)
    requires Sound(p) && b !in p.order && b > 0 && b % BLOCK_SIZE == 0 && FreshLinks(p, b, links)
    ensures BlockOk(Joined(p, b, links), b)
  {
    var all := SlotsUpTo(b, SLOTS);
    forall s | IsSlot(b, s)
      ensures s in all && s !in p.live
    {
      ListedAndFree(p, b, s);
    }
    AllSlots(b);
  }

  lemma AllSlots(b: int)
    ensures var all := SlotsUpTo(b, SLOTS); Distinct(all) && forall i {:trigger all[i]} :: 0 <= i < |all| ==> IsSlot(b, all[i])
  {
    var all := SlotsUpTo(b, SLOTS);
    forall i | 0 <= i < |all|
      ensures IsSlot(b, all[i])
    {
      assert all[i] == SlotAt(b, SLOTS - i);
    }
  }

  lemma JoinedOtherOk(p: Pool, b: int, links: map<int, int>, o: int)
    requires BlockOk(p, o) && b != o && b % BLOCK_SIZE == 0 && FreshLinks(p, b, links)
    ensures BlockOk(Joined(p, b, links), o)
  {
    forall x | x in p.free[o]
      ensures !IsSlot(b, x)
    {
      var i :| 0 <= i < |p.free[o]| && p.free[o][i] == x;
      assert IsSlot(o, p.free[o][i]);
      SlotOnPage(o, x);
      if IsSlot(b, x) {
        SlotOnPage(b, x);
      }
    }
    ChainElsewhere(p.nextSlot, links, p.firstFree[o], p.free[o]);
  }

  lemma JoinedHolds(p: Pool, b: int, links: map<int, int>)
    requires Sound(p) && b !in p.order && b > 0 && b % BLOCK_SIZE == 0 && FreshLinks(p, b, links)
    ensures Sound(Joined(p, b, links))
  {
    var p' := Joined(p, b, links);
    ChainPush(p.nextBlock, p.head, p.order, b);
    DistinctPush(p.order, b);
    JoinedBlockOk(p, b, links);
    forall o | o in p'.order
      ensures BlockOk(p', o)
    {
      if o != b {
        assert o in p.order && BlockOk(p, o);
        JoinedOtherOk(p, b, links, o);
      }
    }
  }

  /** The k-th block leaves the list. */
  function Released(p: Pool, k: nat): Pool
    requires k < |p.order| && p.order[k] in p.nextBlock
  {
    var after := p.nextBlock[p.order[k]];
    var p' := p.(order := Without(p.order, k));
    if k == 0 then p'.(head := after) else p'.(nextBlock := p.nextBlock[p.order[k - 1] := after])
  }

  lemma ReleasedHolds(p: Pool, k: nat)
    requires Sound(p) && k < |p.order| && LiveIn(p, p.order[k]) == {}
    ensures p.order[k] in p.nextBlock && Sound(Released(p, k))
  {
    assert p.order[k] in p.order;
    assert BlockOk(p, p.order[k]);
    WithoutDistinct(p.order, k);
    if k == 0 {
      ChainDrop(p.nextBlock, p.head, p.order);
    } else {
      ChainUnlink(p.nextBlock, p.head, p.order, k);
    }
    var p' := Released(p, k);
    forall o | o in p'.order
      ensures BlockOk(p', o)
    {
      assert BlockOk(p, o);
    }
    forall s | s in p.live
      ensures Page(s) != p.order[k]
    {
      assert IsSlot(Page(s), s);
      assert s !in LiveIn(p, p.order[k]);
    }
  }

  /** The block can hand out a slot. */
  predicate Ready(p: Pool, b: int) {
    b in p.firstFree && b in p.free && p.free[b] != [] && b in p.used && p.firstFree[b] in p.nextSlot
  }

  predicate TakenFrom(p: Pool, b: int, p': Pool, slot: int) {
    Ready(p, b) && p' == Taken(p, b) && slot == p.firstFree[b]
  }

  lemma SoundIsReady(p: Pool, b: int)
    requires Sound(p) && b in p.order && b in p.free && p.free[b] != []
    ensures Ready(p, b)
  {
    TakenHolds(p, b);
    assert BlockOk(p, b);
  }

  lemma TakenFromHolds(p: Pool, b: int, p': Pool, slot: int)
    requires Sound(p) && b in p.order && TakenFrom(p, b, p', slot)
    ensures Sound(p') && slot !in p.live && slot != NULL
  {
    TakenHolds(p, b);
  }

  predicate GivenBackTo(p: Pool, b: int, p': Pool, slot: int) {
    b in p.firstFree && b in p.free && b in p.used && p' == GivenBack(p, b, slot)
  }

  /** Some block still has a slot to give. */
  ghost predicate HasRoom(p: Pool) {
    exists o {:trigger p.free[o]} :: o in p.order && o in p.free && p.free[o] != []
  }

  // --- The allocator -----------------------------------------------------------------------

  class Allocator {
    var head: int
    var nextBlock: map<int, int>
    var firstFree: map<int, int>
    var used: map<int, int>
    var nextSlot: map<int, int>
    ghost var live: set<int>
    ghost var order: seq<int>
    ghost var free: map<int, seq<int>>

    ghost function View(): Pool
      reads this
    {
      Pool(head, nextBlock, firstFree, used, nextSlot, live, order, free)
    }

    ghost predicate Valid()
      reads this
    {
      Sound(View()) && NoneEmpty(View())
    }

    constructor ()
      ensures Valid() && live == {}
    {
      head, nextBlock, firstFree, used, nextSlot := NULL, map[], map[], map[], map[];
      live, order, free := {}, [], map[];
    }

    /** The first block with a free slot, if there is one. */
    method FindBlock() returns (b: int)
      requires Sound(View())
      ensures b != NULL ==> b in order && b in free && free[b] != []
      ensures b == NULL ==> forall o :: o in order && o in free ==> free[o] == []
    {
      b := head;
      ghost var k := 0;
      while b != NULL
        invariant k <= |order|
        invariant b == if k < |order| then order[k] else NULL
        invariant forall i {:trigger order[i]} :: 0 <= i < k ==> order[i] in free && free[order[i]] == []
        decreases |order| - k
      {
        assert k < |order| && order[k] in order;
        assert BlockOk(View(), b);
        if firstFree[b] != NULL {
          return;
        }
        b := nextBlock[b];
        k := k + 1;
      }
    }

    /** The links of a fresh page: every slot is pushed in front of the ones before it. */
    method LinkSlots(b: int)
      requires b > 0 && b % BLOCK_SIZE == 0
      modifies this`nextSlot, this`firstFree
      ensures firstFree == old(firstFree)[b := SlotAt(b, SLOTS)]
      ensures Chain(nextSlot, SlotAt(b, SLOTS), SlotsUpTo(b, SLOTS))
      ensures forall x {:trigger x in nextSlot} :: x in old(nextSlot) && !IsSlot(b, x) ==> x in nextSlot && nextSlot[x] == old(nextSlot)[x]
    {
      var slot := b + SLOT_SIZE;
      firstFree := firstFree[b := NULL];
      ghost var n := 0;
      var more := true;
      while more
        invariant 0 <= n <= SLOTS && slot == SlotAt(b, n + 1) && more == (n < SLOTS)
        invariant b in firstFree && firstFree == old(firstFree)[b := firstFree[b]]
        invariant Chain(nextSlot, firstFree[b], SlotsUpTo(b, n))
        invariant forall x {:trigger x in nextSlot} :: x in old(nextSlot) && !IsSlot(b, x) ==> x in nextSlot && nextSlot[x] == old(nextSlot)[x]
        decreases SLOTS - n
      {
        assert IsSlot(b, SlotAt(b, n + 1));
        NotYet(b, n);
        ChainPush(nextSlot, firstFree[b], SlotsUpTo(b, n), slot);
        nextSlot := nextSlot[slot := firstFree[b]];
        firstFree := firstFree[b := slot];
        slot := slot + SLOT_SIZE;
        more := slot - b <= BLOCK_SIZE - SLOT_SIZE;
        n := n + 1;
      }
      assert n == SLOTS;
    }

    method AddBlock(page: int)
      requires Sound(View()) && page > 0 && page % BLOCK_SIZE == 0 && page !in order
      modifies this
      ensures View() == Joined(old(View()), page, nextSlot) && Sound(View())
    {
      ghost var before := View();
      LinkSlots(page);
      used := used[page := 0];
      nextBlock := nextBlock[page := head];
      head := page;
      free := free[page := SlotsUpTo(page, SLOTS)];
      order := [page] + order;
      JoinedHolds(before, page, nextSlot);
    }

    /** A block with a free slot. `page` is the address the system gives for a new block. */
    method GetMemoryBlock(page: int) returns (b: int)
      requires Valid()
      requires page != NULL ==> page > 0 && page % BLOCK_SIZE == 0 && page !in order
      modifies this
      ensures Sound(View()) && live == old(live)
      ensures b != NULL ==> b in order && b in free && free[b] != [] && NoneEmptyBut(View(), b)
      ensures b == NULL ==> page == NULL && View() == old(View())
      ensures if HasRoom(old(View())) then b != NULL && View() == old(View())
        else b == page && (b != NULL ==> order == [page] + old(order))
    {
      b := FindBlock();
      if b == NULL && page != NULL {
        b := page;
        ghost var before := View();
        AddBlock(page);
        DistinctPush(before.order, page);
      }
    }

    method TakeSlot(b: int) returns (slot: int)
      requires Ready(View(), b)
      modifies this
      ensures TakenFrom(old(View()), b, View(), slot)
    {
      ghost var before := View();
      slot := firstFree[b];
      firstFree := firstFree[b := nextSlot[slot]];
      used := used[b := used[b] + 1];
      live := live + {slot};
      free := free[b := free[b][1..]];
      assert View() == Taken(before, b);
    }

    /** A slot nobody else has; it overlaps with none of those handed out before. */
    method AllocateBuffer(page: int) returns (slot: int)
      requires Valid()
      requires page != NULL ==> page > 0 && page % BLOCK_SIZE == 0 && page !in order
      modifies this
      ensures Valid()
      ensures slot == NULL ==> page == NULL && View() == old(View())
      ensures slot != NULL ==> slot !in old(live) && live == old(live) + {slot}
      ensures if HasRoom(old(View())) then slot != NULL && order == old(order)
        else if page == NULL then slot == NULL else slot != NULL && order == [page] + old(order)
    {
      var b := GetMemoryBlock(page);
      if b == NULL {
        return NULL;
      }
      UsedCountsLive(View(), b);
      ghost var before := View();
      SoundIsReady(before, b);
      slot := TakeSlot(b);
      TakenFromHolds(before, b, View(), slot);
    }

    /** The block of a live slot and the one before it in the list. */
    method FindOwner(slot: int) returns (b: int, prev: int, ghost k: nat)
      requires Valid() && slot in live
      ensures b == Page(slot) && k < |order| && b == order[k] && prev == if k == 0 then NULL else order[k - 1]
    {
      var target := slot / BLOCK_SIZE * BLOCK_SIZE;
      b, prev, k := head, NULL, 0;
      assert slot in View().live;
      ghost var place: nat :| place < |order| && order[place] == target;
      while b != target
        invariant k <= place && b == order[k]
        invariant prev == if k == 0 then NULL else order[k - 1]
        decreases place - k
      {
        assert order[k] in nextBlock;
        prev := b;
        b := nextBlock[b];
        k := k + 1;
      }
    }

    method GiveBack(b: int, slot: int)
      requires b in firstFree && b in free && b in used
      modifies this
      ensures GivenBackTo(old(View()), b, View(), slot)
    {
      ghost var before := View();
      nextSlot := nextSlot[slot := firstFree[b]];
      firstFree := firstFree[b := slot];
      used := used[b := used[b] - 1];
      live := live - {slot};
      free := free[b := [slot] + free[b]];
      assert View() == GivenBack(before, b, slot);
    }

    /** A slot is given back; its block is released exactly if that was its last live slot. */
    method FreeBuffer(slot: int)
      requires Valid() && slot in live
      modifies this
      ensures Valid() && live == old(live) - {slot}
      ensures Page(slot) in order <==> LiveIn(View(), Page(slot)) != {}
      ensures forall o :: o != Page(slot) ==> (o in order <==> o in old(order))
    {
      var b, prev;
      ghost var k;
      b, prev, k := FindOwner(slot);
      ghost var before := View();
      assert slot in before.live && BlockOk(before, b);
      GiveBack(b, slot);
      GivenBackHolds(before, b, slot);
      UsedCountsLive(View(), b);
      if used[b] == 0 {
        Release(b, prev, k);
      }
    }

    method Release(b: int, prev: int, ghost k: nat)
      requires Sound(View()) && k < |order| && b == order[k] && prev == (if k == 0 then NULL else order[k - 1])
      requires LiveIn(View(), b) == {} && NoneEmptyBut(View(), b)
      modifies this`head, this`nextBlock, this`order
      ensures Valid() && b !in order && live == old(live)
      ensures forall o :: o != b ==> (o in order <==> o in old(order))
    {
      ghost var before := View();
      ReleasedHolds(before, k);
      WithoutDistinct(order, k);
      assert k > 0 ==> order[k - 1] != NULL;
      if prev != NULL {
        nextBlock := nextBlock[prev := nextBlock[b]];
      } else {
        head := nextBlock[b];
      }
      order := Without(order, k);
      assert View() == Released(before, k);
    }
  }

  lemma NotYet(b: int, n: nat)
    requires n < SLOTS && b > 0
    ensures SlotAt(b, n + 1) != NULL && SlotAt(b, n + 1) !in SlotsUpTo(b, n)
    ensures SlotsUpTo(b, n + 1) == [SlotAt(b, n + 1)] + SlotsUpTo(b, n)
  {
  }
}
