/** Shared values with reference counts: copies, insertions and drops of handles from any
    number of threads, as interleaved atomic steps. */
module Flyweights {

  type Ref = nat
  type Thread = nat
  type Handle = nat

  /** A key stands for the text of a value. */
  type Key = nat

  datatype Cell = Cell(key: Key, refCount: int, deleters: int)

  /** Where a thread stands inside an operation of the storage. The states from `Reading`
      to `SharedDone` hold the shared lock, those from `Writing` to `UniqueDone` and from
      `Deleting` to `Removed` the unique one. */
  datatype Pc =
    | Idle
    | WantShared(key: Key)
    | Reading(key: Key)
    | SharedFound(ref: Ref, key: Key)
    | SharedOwes(ref: Ref, key: Key)
    | SharedDone(ref: Ref, key: Key)
    | WantUnique(key: Key)
    | Writing(key: Key)
    | UniqueFound(ref: Ref, key: Key)
    | UniqueOwes(ref: Ref, key: Key)
    | UniqueDone(ref: Ref, key: Key)
    | CopyOwes(ref: Ref)
    | WantDelete(ref: Ref)
    | Deleting(ref: Ref)
    | Erasing(ref: Ref)
    | Removed

  datatype Option<T> = None | Some(value: T)

  /** `readers` and `writer` are the holders of the shared mutex. */
  datatype State = State(
    cells: map<Ref, Cell>, table: map<Key, Ref>, threads: map<Thread, Pc>, handles: map<Handle, Ref>,
    readers: set<Thread>, writer: Option<Thread>)

  predicate HoldsShared(pc: Pc) {
    pc.Reading? || pc.SharedFound? || pc.SharedOwes? || pc.SharedDone?
  }

  predicate HoldsUnique(pc: Pc) {
    pc.Writing? || pc.UniqueFound? || pc.UniqueOwes? || pc.UniqueDone? || pc.Deleting? || pc.Erasing? || pc.Removed?
  }

  /** Threads about to write the plain counter. */
  predicate WritesDeleters(pc: Pc, r: Ref) {
    Work(pc) == Some(r) && (pc.SharedOwes? || pc.UniqueOwes? || pc.CopyOwes? || pc.Deleting?)
  }

  /** The value a thread is busy with. */
  function Work(pc: Pc): Option<Ref> {
    match pc
    case SharedFound(r, _) => Some(r)
    case SharedOwes(r, _) => Some(r)
    case SharedDone(r, _) => Some(r)
    case UniqueFound(r, _) => Some(r)
    case UniqueOwes(r, _) => Some(r)
    case UniqueDone(r, _) => Some(r)
    case CopyOwes(r) => Some(r)
    case WantDelete(r) => Some(r)
    case Deleting(r) => Some(r)
    case Erasing(r) => Some(r)
    case _ => None
  }

  // --- Steps -----------------------------------------------------------------------

  datatype Event =
    | Insert(t: Thread, key: Key)
    | Copy(t: Thread, source: Handle, made: Handle)
    | Drop(t: Thread, handle: Handle)
    | Move(from: Handle, to: Handle)
    | Go(t: Thread, r: Ref, made: Handle)

  predicate Enabled(st: State, e: Event) {
    match e
    case Insert(t, _) => t in st.threads && st.threads[t] == Idle
    case Copy(t, source, made) =>
      t in st.threads && st.threads[t] == Idle && source in st.handles && made !in st.handles
    case Drop(t, handle) => t in st.threads && st.threads[t] == Idle && handle in st.handles
    case Move(from, to) => from in st.handles && to !in st.handles
    case Go(t, r, made) =>
      && t in st.threads && made !in st.handles
      && match st.threads[t]
         case WantShared(_) => st.writer == None
         case WantUnique(_) => st.writer == None && st.readers == {}
         case WantDelete(_) => st.writer == None && st.readers == {}
         case Writing(key) => key in st.table || r !in st.cells
         case Idle => false
         case _ => true
  }

  /** The value a thread works on exists. A step without it touches freed memory. */
  predicate Touches(st: State, e: Event) {
    match e
    case Copy(_, source, _) => source in st.handles && st.handles[source] in st.cells
    case Drop(_, handle) => handle in st.handles && st.handles[handle] in st.cells
    case Go(t, _, _) => t in st.threads && Work(st.threads[t]).Some? ==> Work(st.threads[t]).value in st.cells
    case _ => true
  }

  /** The thread goes on to `pc`, acquiring or releasing the lock on the way. */
  function At(st: State, t: Thread, pc: Pc): State {
    st.(threads := st.threads[t := pc],
        readers := if HoldsShared(pc) then st.readers + {t} else st.readers - {t},
        writer := if HoldsUnique(pc) then Some(t) else if st.writer == Some(t) then None else st.writer)
  }

  function WithCell(st: State, r: Ref, c: Cell): State {
    st.(cells := st.cells[r := c])
  }

  /** The atomic increment; whoever finds zero owes an increment of `deleters`. */
  function AddRef(st: State, t: Thread, r: Ref, owes: Pc, done: Pc): State
    requires r in st.cells
  {
    var c := st.cells[r];
    At(WithCell(st, r, c.(refCount := c.refCount + 1)), t, if c.refCount == 0 then owes else done)
  }

  function PayDeleter(st: State, t: Thread, r: Ref, done: Pc): State
    requires r in st.cells
  {
    At(WithCell(st, r, st.cells[r].(deleters := st.cells[r].deleters + 1)), t, done)
  }

  function Erase(st: State, t: Thread, r: Ref): State
    requires r in st.cells
  {
    At(st.(cells := st.cells - {r}, table := st.table - {st.cells[r].key}), t, Removed)
  }

  function Apply(st: State, e: Event): State
    requires Enabled(st, e) && Touches(st, e)
  {
    match e
    case Insert(t, key) => At(st, t, WantShared(key))
    case Copy(t, source, made) =>
      var r := st.handles[source];
      var st' := AddRef(st, t, r, CopyOwes(r), Idle);
      if st'.threads[t] == Idle then st'.(handles := st'.handles[made := r]) else st'
    case Drop(t, handle) =>
      var r := st.handles[handle];
      var c := st.cells[r];
      var st' := WithCell(st.(handles := st.handles - {handle}), r, c.(refCount := c.refCount - 1));
      if c.refCount == 1 then At(st', t, WantDelete(r)) else st'
    case Move(from, to) => st.(handles := (st.handles - {from})[to := st.handles[from]])
    case Go(t, r0, made) =>
      match st.threads[t]
      case Idle => st
      case WantShared(key) => At(st, t, Reading(key))
      case Reading(key) => At(st, t, if key in st.table then SharedFound(st.table[key], key) else WantUnique(key))
      case SharedFound(r, key) => AddRef(st, t, r, SharedOwes(r, key), SharedDone(r, key))
      case SharedOwes(r, key) => PayDeleter(st, t, r, SharedDone(r, key))
      case SharedDone(r, key) => At(st.(handles := st.handles[made := r]), t, Idle)
      case WantUnique(key) => At(st, t, Writing(key))
      case Writing(key) =>
        if key in st.table then At(st, t, UniqueFound(st.table[key], key))
        else At(WithCell(st.(table := st.table[key := r0]), r0, Cell(key, 0, 0)), t, UniqueFound(r0, key))
      case UniqueFound(r, key) => AddRef(st, t, r, UniqueOwes(r, key), UniqueDone(r, key))
      case UniqueOwes(r, key) => PayDeleter(st, t, r, UniqueDone(r, key))
      case UniqueDone(r, key) => At(st.(handles := st.handles[made := r]), t, Idle)
      case CopyOwes(r) =>
        var st' := PayDeleter(st, t, r, Idle);
        st'.(handles := st'.handles[made := r])
      case WantDelete(r) => At(st, t, Deleting(r))
      case Deleting(r) =>
        var c := st.cells[r];
        At(WithCell(st, r, c.(deleters := c.deleters - 1)), t, if c.deleters == 1 then Erasing(r) else Removed)
      case Erasing(r) => Erase(st, t, r)
      case Removed => At(st, t, Idle)
  }

  // --- Counting threads and handles --------------------------------------------------

  datatype Role = Referring | Owing | Dropping

  predicate Plays(pc: Pc, role: Role, r: Ref) {
    && Work(pc) == Some(r)
    && match role
       case Referring => pc.SharedOwes? || pc.SharedDone? || pc.UniqueOwes? || pc.UniqueDone? || pc.CopyOwes?
       case Owing => pc.SharedOwes? || pc.UniqueOwes? || pc.CopyOwes?
       case Dropping => pc.WantDelete? || pc.Deleting?
  }

  function Players(threads: map<Thread, Pc>, role: Role, r: Ref): set<Thread> {
    set t | t in threads && Plays(threads[t], role, r)
  }

  function Handles(handles: map<Handle, Ref>, r: Ref): set<Handle> {
    set h | h in handles && handles[h] == r
  }

  function One(b: bool): int {
    if b then 1 else 0
  }

  lemma SetMove(before: set<Thread>, after: set<Thread>, t: Thread)
    requires before - {t} == after - {t}
    ensures |after| == |before| - One(t in before) + One(t in after)
  {
    assert before == (before - {t}) + if t in before then {t} else {};
    assert after == (after - {t}) + if t in after then {t} else {};
  }

  lemma PlayersMove(threads: map<Thread, Pc>, t: Thread, pc: Pc, role: Role, r: Ref)
    requires t in threads
    ensures |Players(threads[t := pc], role, r)| ==
      |Players(threads, role, r)| - One(Plays(threads[t], role, r)) + One(Plays(pc, role, r))
  {
    SetMove(Players(threads, role, r), Players(threads[t := pc], role, r), t);
  }

  lemma HandlesAdded(handles: map<Handle, Ref>, h: Handle, r0: Ref, r: Ref)
    requires h !in handles
    ensures |Handles(handles[h := r0], r)| == |Handles(handles, r)| + One(r0 == r)
  {
    assert Handles(handles[h := r0], r) == Handles(handles, r) + if r0 == r then {h} else {};
  }

  lemma HandlesRemoved(handles: map<Handle, Ref>, h: Handle, r: Ref)
    requires h in handles
    ensures |Handles(handles - {h}, r)| == |Handles(handles, r)| - One(handles[h] == r)
  {
    assert Handles(handles - {h}, r) == Handles(handles, r) - {h};
    assert h in Handles(handles, r) <==> handles[h] == r;
  }

  // --- The invariant ---------------------------------------------------------------

  function References(st: State, r: Ref): int {
    |Handles(st.handles, r)| + |Players(st.threads, Referring, r)|
  }

  /** The counters of one value, exactly. */
  ghost predicate Counted(st: State, r: Ref)
    requires r in st.cells
  {
    var c := st.cells[r];
    && c.refCount == References(st, r) && |Players(st.threads, Owing, r)| <= 1
    && c.deleters == |Players(st.threads, Dropping, r)| + One(c.refCount > 0) - |Players(st.threads, Owing, r)|
  }

  /** A value whose `deleters` is zero is just being created or erased. */
  ghost predicate InUse(st: State, r: Ref)
    requires r in st.cells
  {
    st.cells[r].deleters > 0 || exists t :: t in st.threads && KeepsAlive(st.threads[t], r)
  }

  predicate KeepsAlive(pc: Pc, r: Ref) {
    Work(pc) == Some(r) && (pc.UniqueFound? || pc.UniqueOwes? || pc.SharedOwes? || pc.Erasing?)
  }

  ghost predicate CellOk(st: State, r: Ref)
    requires r in st.cells
  {
    st.cells[r].key in st.table && st.table[st.cells[r].key] == r && Counted(st, r) && InUse(st, r)
  }

  /** The thread has found the value it is to insert. */
  predicate Inserting(pc: Pc) {
    pc.SharedFound? || pc.SharedOwes? || pc.SharedDone? || pc.UniqueFound? || pc.UniqueOwes? || pc.UniqueDone?
  }

  ghost predicate ThreadOk(st: State, t: Thread)
    requires t in st.threads
  {
    var pc := st.threads[t];
    && !pc.CopyOwes?
    && (Work(pc).Some? ==>
          && Work(pc).value in st.cells
          && (pc.Erasing? ==> st.cells[Work(pc).value].deleters == 0)
          && (Inserting(pc) ==> st.cells[Work(pc).value].key == pc.key))
  }

  ghost predicate LockOk(st: State, t: Thread)
    requires t in st.threads
  {
    (HoldsShared(st.threads[t]) <==> t in st.readers) && (HoldsUnique(st.threads[t]) <==> st.writer == Some(t))
  }

  ghost predicate Locked(st: State) {
    && st.readers <= st.threads.Keys && (st.writer.Some? ==> st.writer.value in st.threads && st.readers == {})
    && (forall t :: t in st.threads ==> LockOk(st, t))
  }

  ghost predicate Inv(st: State) {
    && (forall r :: r in st.cells ==> CellOk(st, r))
    && (forall k :: k in st.table ==> st.table[k] in st.cells && st.cells[st.table[k]].key == k)
    && (forall t :: t in st.threads ==> ThreadOk(st, t))
    && (forall h :: h in st.handles ==> st.handles[h] in st.cells)
    && Locked(st)
  }

  lemma OwingRefers(st: State, r: Ref)
    ensures |Players(st.threads, Owing, r)| <= |Players(st.threads, Referring, r)|
  {
    var owing, referring := Players(st.threads, Owing, r), Players(st.threads, Referring, r);
    assert owing <= referring;
    assert referring == owing + (referring - owing);
  }

  /** Under the unique lock nobody owes an increment. */
  lemma NobodyOwes(st: State, t: Thread, r: Ref)
    requires Inv(st) && t in st.threads && HoldsUnique(st.threads[t]) && !Plays(st.threads[t], Owing, r)
    ensures |Players(st.threads, Owing, r)| == 0
  {
    forall u | u in st.threads
      ensures !Plays(st.threads[u], Owing, r)
    {
      assert ThreadOk(st, u) && LockOk(st, u) && LockOk(st, t);
    }
    assert Players(st.threads, Owing, r) == {};
  }

  lemma PlayerCounts(threads: map<Thread, Pc>, t: Thread, role: Role, r: Ref)
    requires t in threads && Plays(threads[t], role, r)
    ensures |Players(threads, role, r)| > 0
  {
    assert t in Players(threads, role, r);
  }

  lemma HandleCounts(handles: map<Handle, Ref>, h: Handle)
    requires h in handles
    ensures |Handles(handles, handles[h])| > 0
  {
    assert h in Handles(handles, handles[h]);
  }

  // --- The safety it gives -----------------------------------------------------------

  /** No step of any thread touches freed memory, and no copy ever finds a zero count. */
  lemma NothingFreedIsTouched(st: State, e: Event)
    requires Inv(st) && Enabled(st, e)
    ensures Touches(st, e)
  {
    if e.Go? {
      assert ThreadOk(st, e.t);
    }
  }

  /** The plain counter never has two writers at once. */
  lemma OneWriter(st: State, t: Thread, u: Thread, r: Ref)
    requires Inv(st) && t in st.threads && u in st.threads
    requires WritesDeleters(st.threads[t], r) && WritesDeleters(st.threads[u], r)
    ensures t == u
  {
    assert ThreadOk(st, t) && ThreadOk(st, u) && LockOk(st, t) && LockOk(st, u);
    assert CellOk(st, r);
    if t != u && st.threads[t].SharedOwes? && st.threads[u].SharedOwes? {
      TwoPlay(st.threads, t, u, Owing, r);
    }
  }

  lemma TwoPlay(threads: map<Thread, Pc>, t: Thread, u: Thread, role: Role, r: Ref)
    requires t in threads && u in threads && t != u && Plays(threads[t], role, r) && Plays(threads[u], role, r)
    ensures |Players(threads, role, r)| >= 2
  {
    var players := Players(threads, role, r);
    assert players == {t, u} + (players - {t, u});
  }

  /** A value is erased only when no handle and no thread refers to it. */
  lemma ErasedOnlyUnused(st: State, t: Thread, r: Ref)
    requires Inv(st) && t in st.threads && st.threads[t] == Erasing(r)
    ensures References(st, r) == 0 && |Players(st.threads, Dropping, r)| == 0
    ensures forall u :: u in st.threads && u != t ==> !(st.threads[u].SharedFound? || st.threads[u].UniqueFound? || st.threads[u].Erasing?)
  {
    assert ThreadOk(st, t) && CellOk(st, r);
    NobodyOwes(st, t, r);
  }

  ghost predicate AtRest(st: State) {
    forall t :: t in st.threads ==> st.threads[t] == Idle
  }

  /** Nothing leaks: at rest a value is stored exactly while some handle refers to it. */
  lemma NoLeakAtRest(st: State, r: Ref)
    requires Inv(st) && AtRest(st)
    ensures r in st.cells <==> exists h :: h in st.handles && st.handles[h] == r
  {
    if r in st.cells {
      assert CellOk(st, r);
      assert Players(st.threads, Dropping, r) == {} && Players(st.threads, Referring, r) == {};
      assert Handles(st.handles, r) != {};
      var h :| h in Handles(st.handles, r);
    }
  }

  /** Comparing handles compares values. */
  lemma EqualHandlesEqualKeys(st: State, a: Handle, b: Handle)
    requires Inv(st) && a in st.handles && b in st.handles
    ensures st.handles[a] == st.handles[b] <==> st.cells[st.handles[a]].key == st.cells[st.handles[b]].key
  {
    assert CellOk(st, st.handles[a]) && CellOk(st, st.handles[b]);
  }

  // --- Every step keeps the invariant ------------------------------------------------

  ghost predicate MayHold(st: State, t: Thread, pc: Pc) {
    && (HoldsUnique(pc) ==> st.writer == Some(t) || (st.writer == None && st.readers == {}))
    && (HoldsShared(pc) ==> st.writer == None)
  }

  lemma LockHolds(st: State, t: Thread, pc: Pc)
    requires Locked(st) && t in st.threads && MayHold(st, t, pc)
    ensures Locked(At(st, t, pc))
  {
    var st' := At(st, t, pc);
    assert LockOk(st, t);
    forall u | u in st'.threads
      ensures LockOk(st', u)
    {
      assert LockOk(st, u);
    }
  }

  /** A value stays in use if its counter does not fall and whoever kept it alive still does
      or has made the counter positive. */
  lemma InUseKept(st: State, st': State, t: Thread, r: Ref)
    requires r in st.cells && r in st'.cells && InUse(st, r) && st'.cells[r].deleters >= st.cells[r].deleters
    requires t in st.threads && t in st'.threads && st'.threads == st.threads[t := st'.threads[t]]
    requires KeepsAlive(st.threads[t], r) ==> KeepsAlive(st'.threads[t], r) || st'.cells[r].deleters > 0
    ensures InUse(st', r)
  {
    if st'.cells[r].deleters <= 0 {
      var u :| u in st.threads && KeepsAlive(st.threads[u], r);
      assert KeepsAlive(st'.threads[u], r);
    }
  }

  ghost predicate CountMoves(st: State, st': State, t: Thread, role: Role, r: Ref)
    requires t in st.threads && t in st'.threads
  {
    |Players(st'.threads, role, r)| ==
    |Players(st.threads, role, r)| - One(Plays(st.threads[t], role, r)) + One(Plays(st'.threads[t], role, r))
  }

  /** How a step changes the counts of a value. */
  lemma CountsMove(st: State, st': State, t: Thread, r: Ref)
    requires t in st.threads && t in st'.threads && st'.threads == st.threads[t := st'.threads[t]]
    ensures forall role :: CountMoves(st, st', t, role, r)
  {
    forall role {
      PlayersMove(st.threads, t, st'.threads[t], role, r);
    }
  }

  /** Threads that stay where they are: at most the counter of `r` has changed. */
  lemma OtherThreadsOk(st: State, st': State, t: Thread, r: Ref)
    requires t in st.threads && t in st'.threads && st'.threads == st.threads[t := st'.threads[t]] && ThreadOk(st', t)
    requires forall u :: u in st.threads ==> ThreadOk(st, u)
    requires forall q :: q in st.cells ==> q in st'.cells && st'.cells[q].key == st.cells[q].key
    requires forall q :: q in st.cells && q in st'.cells && q != r ==> st'.cells[q].deleters == st.cells[q].deleters
    requires r in st.cells && st'.cells[r].deleters != st.cells[r].deleters ==> HoldsUnique(st'.threads[t]) || st'.readers != {}
    requires Locked(st')
    ensures forall u :: u in st'.threads ==> ThreadOk(st', u)
  {
    forall u | u in st'.threads && u != t
      ensures ThreadOk(st', u)
    {
      assert ThreadOk(st, u) && LockOk(st', u) && LockOk(st', t);
    }
  }

  /** The counters of a value move with the handles and threads that count for it. */
  ghost predicate CellStep(st: State, st': State, t: Thread, q: Ref)
    requires q in st.cells && q in st'.cells && t in st.threads && t in st'.threads
  {
    var c, c' := st.cells[q], st'.cells[q];
    var pc, pc' := st.threads[t], st'.threads[t];
    var owing := One(Plays(pc', Owing, q)) - One(Plays(pc, Owing, q));
    && c'.key == c.key && c.key in st'.table && st'.table[c.key] == q
    && c'.refCount - c.refCount == |Handles(st'.handles, q)| - |Handles(st.handles, q)|
        + One(Plays(pc', Referring, q)) - One(Plays(pc, Referring, q))
    && |Players(st.threads, Owing, q)| + owing <= 1
    && c'.deleters - c.deleters == One(Plays(pc', Dropping, q)) - One(Plays(pc, Dropping, q))
        + One(c'.refCount > 0) - One(c.refCount > 0) - owing
  }

  lemma CellStepHolds(st: State, st': State, t: Thread, q: Ref)
    requires q in st.cells && q in st'.cells && t in st.threads && t in st'.threads
    requires st'.threads == st.threads[t := st'.threads[t]]
    requires CellOk(st, q) && CellStep(st, st', t, q) && InUse(st', q)
    ensures CellOk(st', q)
  {
    CountsMove(st, st', t, q);
    assert CountMoves(st, st', t, Referring, q) && CountMoves(st, st', t, Owing, q) && CountMoves(st, st', t, Dropping, q);
  }

  /** A step of one thread that creates or erases no value; at most the counter of `r`
      changes, and only under the lock. */
  ghost predicate Local(st: State, st': State, t: Thread, r: Ref) {
    && t in st.threads && t in st'.threads && MayHold(st, t, st'.threads[t]) && ThreadOk(st', t)
    && st' == At(st, t, st'.threads[t]).(cells := st'.cells, handles := st'.handles)
    && st'.cells.Keys == st.cells.Keys && (forall q :: q in st.cells ==> st'.cells[q].key == st.cells[q].key)
    && (forall q :: q in st.cells && q != r ==> st'.cells[q].deleters == st.cells[q].deleters)
    && (r in st.cells && st'.cells[r].deleters != st.cells[r].deleters ==>
          HoldsUnique(st'.threads[t]) || HoldsShared(st'.threads[t]))
  }

  /** Such a step keeps the invariant if it keeps it for each value. */
  lemma AssembleHolds(st: State, st': State, t: Thread, r: Ref)
    requires Inv(st) && Local(st, st', t, r) && forall q :: q in st.cells ==> CellOk(st', q)
    requires forall h :: h in st'.handles ==> st'.handles[h] in st.cells
    ensures Inv(st')
  {
    LockHolds(st, t, st'.threads[t]);
    assert LockOk(st', t);
    OtherThreadsOk(st, st', t, r);
    forall k | k in st'.table
      ensures st'.table[k] in st'.cells && st'.cells[st'.table[k]].key == k
    {
      assert CellOk(st', st'.table[k]) && CellOk(st, st.table[k]);
    }
  }

  // --- One lemma for each kind of step -----------------------------------------------

  /** Steps that only move one thread between states in which it counts for nothing. */
  lemma QuietStepHolds(st: State, t: Thread, pc: Pc)
    requires Inv(st) && t in st.threads && MayHold(st, t, pc)
    requires forall role, r :: Plays(st.threads[t], role, r) == Plays(pc, role, r)
    requires forall r :: KeepsAlive(st.threads[t], r) ==> KeepsAlive(pc, r)
    requires ThreadOk(At(st, t, pc), t)
    ensures Inv(At(st, t, pc))
  {
    var st' := At(st, t, pc);
    forall q | q in st'.cells
      ensures CellOk(st', q)
    {
      assert CellOk(st, q);
      InUseKept(st, st', t, q);
      CellStepHolds(st, st', t, q);
    }
    AssembleHolds(st, st', t, 0);
  }

  lemma FoundCell(st: State, t: Thread, r: Ref, owes: Pc, done: Pc, q: Ref)
    requires Finds(st, t, r, owes, done) && q in st.cells && CellOk(st, q)
    requires st.threads[t].UniqueFound? ==> |Players(st.threads, Owing, q)| == 0
    ensures CellOk(AddRef(st, t, r, owes, done), q)
  {
    var st' := AddRef(st, t, r, owes, done);
    OwingRefers(st, q);
    InUseKept(st, st', t, q);
    CellStepHolds(st, st', t, q);
  }

  ghost predicate Finds(st: State, t: Thread, r: Ref, owes: Pc, done: Pc) {
    && t in st.threads && r in st.cells
    && match st.threads[t]
       case SharedFound(q, key) => q == r && owes == SharedOwes(r, key) && done == SharedDone(r, key)
       case UniqueFound(q, key) => q == r && owes == UniqueOwes(r, key) && done == UniqueDone(r, key)
       case _ => false
  }

  /** A thread that holds the lock and has found the value takes a reference. */
  lemma FoundStepHolds(st: State, t: Thread, r: Ref, owes: Pc, done: Pc)
    requires Inv(st) && Finds(st, t, r, owes, done)
    ensures Inv(AddRef(st, t, r, owes, done))
  {
    assert ThreadOk(st, t) && LockOk(st, t);
    FoundCells(st, t, r, owes, done);
    FoundLocal(st, t, r, owes, done);
    AssembleHolds(st, AddRef(st, t, r, owes, done), t, r);
  }

  lemma FoundCells(st: State, t: Thread, r: Ref, owes: Pc, done: Pc)
    requires Inv(st) && Finds(st, t, r, owes, done)
    ensures forall q :: q in st.cells ==> CellOk(AddRef(st, t, r, owes, done), q)
  {
    forall q | q in st.cells
      ensures CellOk(AddRef(st, t, r, owes, done), q)
    {
      if st.threads[t].UniqueFound? {
        NobodyOwes(st, t, q);
      }
      FoundCell(st, t, r, owes, done, q);
    }
  }

  lemma FoundLocal(st: State, t: Thread, r: Ref, owes: Pc, done: Pc)
    requires Finds(st, t, r, owes, done) && LockOk(st, t) && ThreadOk(st, t) && (st.writer.Some? ==> st.readers == {})
    ensures Local(st, AddRef(st, t, r, owes, done), t, r)
  {
  }

  lemma PayCell(st: State, t: Thread, r: Ref, done: Pc, q: Ref)
    requires Pays(st, t, r, done) && q in st.cells && CellOk(st, q) && CellOk(st, r)
    ensures CellOk(PayDeleter(st, t, r, done), q)
  {
    var st' := PayDeleter(st, t, r, done);
    PlayerCounts(st.threads, t, Owing, r);
    OwingRefers(st, r);
    InUseKept(st, st', t, q);
    CellStepHolds(st, st', t, q);
  }

  ghost predicate Pays(st: State, t: Thread, r: Ref, done: Pc) {
    && t in st.threads && r in st.cells
    && match st.threads[t]
       case SharedOwes(q, key) => q == r && done == SharedDone(r, key)
       case UniqueOwes(q, key) => q == r && done == UniqueDone(r, key)
       case _ => false
  }

  lemma PayCells(st: State, t: Thread, r: Ref, done: Pc)
    requires Pays(st, t, r, done) && forall q :: q in st.cells ==> CellOk(st, q)
    ensures forall q :: q in st.cells ==> CellOk(PayDeleter(st, t, r, done), q)
  {
    forall q | q in st.cells
      ensures CellOk(PayDeleter(st, t, r, done), q)
    {
      PayCell(st, t, r, done, q);
    }
  }

  lemma PayStepHolds(st: State, t: Thread, r: Ref, done: Pc)
    requires Inv(st) && Pays(st, t, r, done)
    ensures Inv(PayDeleter(st, t, r, done))
  {
    PayCells(st, t, r, done);
    assert LockOk(st, t) && ThreadOk(st, t);
    PayLocal(st, t, r, done);
    AssembleHolds(st, PayDeleter(st, t, r, done), t, r);
  }

  lemma PayLocal(st: State, t: Thread, r: Ref, done: Pc)
    requires Pays(st, t, r, done) && LockOk(st, t) && ThreadOk(st, t) && (st.writer.Some? ==> st.readers == {})
    ensures Local(st, PayDeleter(st, t, r, done), t, r)
  {
  }

  function HandOut(st: State, t: Thread, r: Ref, h: Handle): State {
    At(st.(handles := st.handles[h := r]), t, Idle)
  }

  predicate IsDone(pc: Pc, r: Ref) {
    Work(pc) == Some(r) && (pc.SharedDone? || pc.UniqueDone?)
  }

  lemma DoneCell(st: State, t: Thread, r: Ref, h: Handle, q: Ref)
    requires t in st.threads && h !in st.handles && IsDone(st.threads[t], r)
    requires q in st.cells && CellOk(st, q)
    ensures CellOk(HandOut(st, t, r, h), q)
  {
    var st' := HandOut(st, t, r, h);
    HandlesAdded(st.handles, h, r, q);
    InUseKept(st, st', t, q);
    CellStepHolds(st, st', t, q);
  }

  /** The finished insertion hands out its reference as a handle. */
  lemma DoneStepHolds(st: State, t: Thread, r: Ref, h: Handle)
    requires Inv(st) && t in st.threads && h !in st.handles
    requires IsDone(st.threads[t], r)
    ensures Inv(HandOut(st, t, r, h))
  {
    var st' := HandOut(st, t, r, h);
    assert ThreadOk(st, t) && LockOk(st, t);
    forall q | q in st.cells
      ensures CellOk(st', q)
    {
      DoneCell(st, t, r, h, q);
    }
    AssembleHolds(st, st', t, r);
  }

  function Copied(st: State, t: Thread, r: Ref, h: Handle): State
    requires r in st.cells
  {
    HandOut(WithCell(st, r, st.cells[r].(refCount := st.cells[r].refCount + 1)), t, r, h)
  }

  /** A copy of a live handle never finds a zero count. */
  lemma CopyCounts(st: State, t: Thread, source: Handle, h: Handle)
    requires Inv(st) && Enabled(st, Copy(t, source, h)) && Touches(st, Copy(t, source, h))
    ensures st.cells[st.handles[source]].refCount > 0
    ensures Apply(st, Copy(t, source, h)) == Copied(st, t, st.handles[source], h)
  {
    assert CellOk(st, st.handles[source]);
    HandleCounts(st.handles, source);
  }

  ghost predicate Copies(st: State, t: Thread, r: Ref, h: Handle) {
    t in st.threads && st.threads[t] == Idle && r in st.cells && st.cells[r].refCount > 0 && h !in st.handles
  }

  lemma CopyCell(st: State, t: Thread, r: Ref, h: Handle, q: Ref)
    requires Copies(st, t, r, h) && q in st.cells && CellOk(st, q)
    ensures CellOk(Copied(st, t, r, h), q)
  {
    var st' := Copied(st, t, r, h);
    HandlesAdded(st.handles, h, r, q);
    InUseKept(st, st', t, q);
    CellStepHolds(st, st', t, q);
  }

  lemma CopyCells(st: State, t: Thread, r: Ref, h: Handle)
    requires Copies(st, t, r, h) && forall q :: q in st.cells ==> CellOk(st, q)
    ensures forall q :: q in st.cells ==> CellOk(Copied(st, t, r, h), q)
  {
    forall q | q in st.cells
      ensures CellOk(Copied(st, t, r, h), q)
    {
      CopyCell(st, t, r, h, q);
    }
  }

  lemma CopyLocal(st: State, t: Thread, r: Ref, h: Handle)
    requires Copies(st, t, r, h) && LockOk(st, t)
    ensures Local(st, Copied(st, t, r, h), t, r)
  {
  }

  lemma CopyStepHolds(st: State, t: Thread, source: Handle, h: Handle)
    requires Inv(st) && Enabled(st, Copy(t, source, h)) && Touches(st, Copy(t, source, h))
    ensures Inv(Apply(st, Copy(t, source, h)))
  {
    var r := st.handles[source];
    CopyCounts(st, t, source, h);
    assert LockOk(st, t);
    CopyCells(st, t, r, h);
    CopyLocal(st, t, r, h);
    AssembleHolds(st, Copied(st, t, r, h), t, r);
  }

  lemma DropCell(st: State, t: Thread, h: Handle, q: Ref)
    requires Enabled(st, Drop(t, h)) && Touches(st, Drop(t, h)) && q in st.cells && CellOk(st, q)
    ensures CellOk(Apply(st, Drop(t, h)), q)
  {
    var st' := Apply(st, Drop(t, h));
    assert st'.threads == st.threads[t := st'.threads[t]];
    HandlesRemoved(st.handles, h, q);
    HandleCounts(st.handles, h);
    InUseKept(st, st', t, q);
    CellStepHolds(st, st', t, q);
  }

  lemma DropStepHolds(st: State, t: Thread, h: Handle)
    requires Inv(st) && Enabled(st, Drop(t, h)) && Touches(st, Drop(t, h))
    ensures Inv(Apply(st, Drop(t, h)))
  {
    assert LockOk(st, t);
    DropLocal(st, t, h);
    DropCells(st, t, h);
    AssembleHolds(st, Apply(st, Drop(t, h)), t, st.handles[h]);
  }

  lemma DropCells(st: State, t: Thread, h: Handle)
    requires Enabled(st, Drop(t, h)) && Touches(st, Drop(t, h)) && forall q :: q in st.cells ==> CellOk(st, q)
    ensures forall q :: q in st.cells ==> CellOk(Apply(st, Drop(t, h)), q)
  {
    forall q | q in st.cells
      ensures CellOk(Apply(st, Drop(t, h)), q)
    {
      DropCell(st, t, h, q);
    }
  }

  lemma DropLocal(st: State, t: Thread, h: Handle)
    requires Enabled(st, Drop(t, h)) && Touches(st, Drop(t, h)) && LockOk(st, t)
    ensures Local(st, Apply(st, Drop(t, h)), t, st.handles[h])
  {
  }

  lemma MoveStepHolds(st: State, from: Handle, to: Handle)
    requires Inv(st) && Enabled(st, Move(from, to))
    ensures Inv(Apply(st, Move(from, to)))
  {
    var st' := Apply(st, Move(from, to));
    forall q | q in st'.cells
      ensures CellOk(st', q)
    {
      assert CellOk(st, q);
      HandlesRemoved(st.handles, from, q);
      HandlesAdded(st.handles - {from}, to, st.handles[from], q);
      assert st.cells[q].deleters <= 0 ==> exists u :: u in st.threads && KeepsAlive(st.threads[u], q);
    }
    forall u | u in st'.threads
      ensures ThreadOk(st', u) && LockOk(st', u)
    {
      assert ThreadOk(st, u) && LockOk(st, u);
    }
  }

  // --- Creating and erasing values ---------------------------------------------------

  function Created(st: State, t: Thread, key: Key, r: Ref): State {
    At(WithCell(st.(table := st.table[key := r]), r, Cell(key, 0, 0)), t, UniqueFound(r, key))
  }

  lemma NobodyKnows(st: State, r: Ref)
    requires Inv(st) && r !in st.cells
    ensures |Handles(st.handles, r)| == 0 && forall role :: |Players(st.threads, role, r)| == 0
  {
    assert Handles(st.handles, r) == {};
    forall role
      ensures |Players(st.threads, role, r)| == 0
    {
      forall u | u in st.threads
        ensures !Plays(st.threads[u], role, r)
      {
        assert ThreadOk(st, u);
      }
      assert Players(st.threads, role, r) == {};
    }
  }

  lemma CreatedCell(st: State, t: Thread, key: Key, r: Ref)
    requires t in st.threads && st.threads[t] == Writing(key)
    requires |Handles(st.handles, r)| == 0 && forall role :: |Players(st.threads, role, r)| == 0
    ensures CellOk(Created(st, t, key, r), r)
  {
    var st' := Created(st, t, key, r);
    CountsMove(st, st', t, r);
    assert CountMoves(st, st', t, Referring, r) && CountMoves(st, st', t, Owing, r) && CountMoves(st, st', t, Dropping, r);
    assert KeepsAlive(st'.threads[t], r);
  }

  lemma UncreatedCell(st: State, t: Thread, key: Key, r: Ref, q: Ref)
    requires t in st.threads && st.threads[t] == Writing(key) && q != r && q in st.cells && CellOk(st, q) && key !in st.table
    ensures CellOk(Created(st, t, key, r), q)
  {
    var st' := Created(st, t, key, r);
    InUseKept(st, st', t, q);
    CellStepHolds(st, st', t, q);
  }

  /** The key is not stored: a value with both counters at zero now is. */
  lemma CreateStepHolds(st: State, t: Thread, key: Key, r: Ref)
    requires Inv(st) && t in st.threads && st.threads[t] == Writing(key) && r !in st.cells && key !in st.table
    ensures Inv(Created(st, t, key, r))
  {
    assert LockOk(st, t);
    LockHolds(st, t, UniqueFound(r, key));
    CreateCells(st, t, key, r);
    CreateThreads(st, t, key, r);
  }

  lemma CreateThreads(st: State, t: Thread, key: Key, r: Ref)
    requires t in st.threads && st.threads[t] == Writing(key) && r !in st.cells
    requires forall u :: u in st.threads ==> ThreadOk(st, u)
    ensures forall u :: u in st.threads ==> ThreadOk(Created(st, t, key, r), u)
  {
    forall u | u in st.threads && u != t
      ensures ThreadOk(Created(st, t, key, r), u)
    {
      assert ThreadOk(st, u);
    }
  }

  lemma CreateCells(st: State, t: Thread, key: Key, r: Ref)
    requires Inv(st) && t in st.threads && st.threads[t] == Writing(key) && r !in st.cells && key !in st.table
    ensures forall q :: q in Created(st, t, key, r).cells ==> CellOk(Created(st, t, key, r), q)
  {
    NobodyKnows(st, r);
    CreatedCell(st, t, key, r);
    forall q | q in st.cells
      ensures CellOk(Created(st, t, key, r), q)
    {
      UncreatedCell(st, t, key, r, q);
    }
  }

  function Decremented(st: State, t: Thread, r: Ref): State
    requires r in st.cells
  {
    var c := st.cells[r];
    At(WithCell(st, r, c.(deleters := c.deleters - 1)), t, if c.deleters == 1 then Erasing(r) else Removed)
  }

  lemma DeleteCell(st: State, t: Thread, r: Ref, q: Ref)
    requires t in st.threads && st.threads[t] == Deleting(r) && r in st.cells && q in st.cells && CellOk(st, q)
    requires |Players(st.threads, Owing, q)| == 0
    ensures CellOk(Decremented(st, t, r), q)
  {
    var st' := Decremented(st, t, r);
    PlayerCounts(st.threads, t, Dropping, r);
    if q == r {
      assert st.cells[r].deleters == 1 ==> KeepsAlive(st'.threads[t], r);
    } else {
      InUseKept(st, st', t, q);
    }
    CellStepHolds(st, st', t, q);
  }

  lemma DeleteStepHolds(st: State, t: Thread, r: Ref)
    requires Inv(st) && t in st.threads && st.threads[t] == Deleting(r) && r in st.cells
    ensures Inv(Decremented(st, t, r))
  {
    DeleteCells(st, t, r);
    assert LockOk(st, t);
    DeleteLocal(st, t, r);
    AssembleHolds(st, Decremented(st, t, r), t, r);
  }

  lemma DeleteLocal(st: State, t: Thread, r: Ref)
    requires t in st.threads && st.threads[t] == Deleting(r) && r in st.cells && LockOk(st, t)
    ensures Local(st, Decremented(st, t, r), t, r)
  {
  }

  lemma DeleteCells(st: State, t: Thread, r: Ref)
    requires Inv(st) && t in st.threads && st.threads[t] == Deleting(r) && r in st.cells
    ensures forall q :: q in st.cells ==> CellOk(Decremented(st, t, r), q)
  {
    forall q | q in st.cells
      ensures CellOk(Decremented(st, t, r), q)
    {
      NobodyOwes(st, t, q);
      DeleteCell(st, t, r, q);
    }
  }

  lemma ErasedUnknown(st: State, t: Thread, r: Ref, u: Thread)
    requires Inv(st) && t in st.threads && u in st.threads && u != t && st.threads[t] == Erasing(r)
    ensures Work(st.threads[u]) != Some(r)
  {
    ErasedOnlyUnused(st, t, r);
    if Plays(st.threads[u], Referring, r) {
      PlayerCounts(st.threads, u, Referring, r);
    }
    if Plays(st.threads[u], Dropping, r) {
      PlayerCounts(st.threads, u, Dropping, r);
    }
    assert ThreadOk(st, u);
  }

  lemma KeptCell(st: State, t: Thread, r: Ref, q: Ref)
    requires t in st.threads && st.threads[t] == Erasing(r) && r in st.cells && q in st.cells && q != r
    requires CellOk(st, q) && CellOk(st, r)
    ensures CellOk(Erase(st, t, r), q)
  {
    var st' := Erase(st, t, r);
    InUseKept(st, st', t, q);
    CellStepHolds(st, st', t, q);
  }

  lemma EraseStepHolds(st: State, t: Thread, r: Ref)
    requires Inv(st) && t in st.threads && st.threads[t] == Erasing(r) && r in st.cells
    ensures Inv(Erase(st, t, r))
  {
    EraseLock(st, t, r);
    EraseCells(st, t, r);
    EraseThreads(st, t, r);
    EraseHandles(st, t, r);
  }

  lemma EraseLock(st: State, t: Thread, r: Ref)
    requires Locked(st) && t in st.threads && st.threads[t] == Erasing(r) && r in st.cells
    ensures Locked(Erase(st, t, r))
  {
    assert LockOk(st, t);
    LockHolds(st, t, Removed);
    assert forall u :: u in st.threads ==> LockOk(At(st, t, Removed), u) == LockOk(Erase(st, t, r), u);
  }

  lemma EraseCells(st: State, t: Thread, r: Ref)
    requires Inv(st) && t in st.threads && st.threads[t] == Erasing(r) && r in st.cells
    ensures var st' := Erase(st, t, r);
      && (forall q :: q in st'.cells ==> CellOk(st', q))
      && (forall k :: k in st'.table ==> st'.table[k] in st'.cells && st'.cells[st'.table[k]].key == k)
  {
    assert CellOk(st, r);
    forall q | q in st.cells && q != r
      ensures CellOk(Erase(st, t, r), q)
    {
      KeptCell(st, t, r, q);
    }
  }

  lemma EraseThreads(st: State, t: Thread, r: Ref)
    requires Inv(st) && t in st.threads && st.threads[t] == Erasing(r) && r in st.cells
    ensures forall u :: u in st.threads ==> ThreadOk(Erase(st, t, r), u)
  {
    forall u | u in st.threads
      ensures ThreadOk(Erase(st, t, r), u)
    {
      if u != t {
        ErasedUnknown(st, t, r, u);
      }
      EraseThread(st, t, r, u);
    }
  }

  lemma EraseThread(st: State, t: Thread, r: Ref, u: Thread)
    requires t in st.threads && u in st.threads && r in st.cells && ThreadOk(st, u)
    requires u != t ==> Work(st.threads[u]) != Some(r)
    ensures ThreadOk(Erase(st, t, r), u)
  {
  }

  lemma EraseHandles(st: State, t: Thread, r: Ref)
    requires Inv(st) && t in st.threads && st.threads[t] == Erasing(r)
    ensures forall h :: h in st.handles ==> st.handles[h] != r
  {
    ErasedOnlyUnused(st, t, r);
    forall h | h in st.handles
      ensures st.handles[h] != r
    {
      HandleCounts(st.handles, h);
    }
  }

  // --- Runs --------------------------------------------------------------------------

  predicate MayGo(st: State, t: Thread, r0: Ref, made: Handle) {
    Enabled(st, Go(t, r0, made)) && Touches(st, Go(t, r0, made))
  }

  ghost predicate Goes(st: State, t: Thread, r0: Ref, made: Handle) {
    Inv(st) && Enabled(st, Go(t, r0, made)) && Touches(st, Go(t, r0, made))
  }

  /** What a thread that waits for the lock, or is done with it, goes on to. */
  function Unlocked(pc: Pc): Pc {
    match pc
    case WantShared(key) => Reading(key)
    case WantUnique(key) => Writing(key)
    case WantDelete(r) => Deleting(r)
    case _ => Idle
  }

  predicate Locks(pc: Pc) {
    pc.WantShared? || pc.WantUnique? || pc.WantDelete? || pc.Removed?
  }

  lemma LockingGoes(st: State, t: Thread, r0: Ref, made: Handle)
    requires MayGo(st, t, r0, made) && Locks(st.threads[t])
    ensures Apply(st, Go(t, r0, made)) == At(st, t, Unlocked(st.threads[t]))
  {
  }

  lemma UnlockedIsQuiet(st: State, t: Thread, r0: Ref, made: Handle)
    requires Goes(st, t, r0, made) && Locks(st.threads[t])
    ensures var pc := Unlocked(st.threads[t]);
      && MayHold(st, t, pc) && ThreadOk(At(st, t, pc), t)
      && (forall role, r :: Plays(st.threads[t], role, r) == Plays(pc, role, r))
      && (forall r :: KeepsAlive(st.threads[t], r) ==> KeepsAlive(pc, r))
  {
    assert ThreadOk(st, t) && LockOk(st, t);
  }

  lemma GoLockingHolds(st: State, t: Thread, r0: Ref, made: Handle)
    requires Goes(st, t, r0, made) && Locks(st.threads[t])
    ensures Inv(Apply(st, Go(t, r0, made)))
  {
    LockingGoes(st, t, r0, made);
    UnlockedIsQuiet(st, t, r0, made);
    QuietStepHolds(st, t, Unlocked(st.threads[t]));
  }

  lemma LookingGoes(st: State, t: Thread, r0: Ref, made: Handle)
    requires MayGo(st, t, r0, made) && (st.threads[t].Reading? || st.threads[t].Writing?)
    ensures var pc := st.threads[t];
      Apply(st, Go(t, r0, made)) ==
        if pc.Writing? && pc.key !in st.table then Created(st, t, pc.key, r0) else At(st, t, Looked(st, pc))
  {
  }

  /** What a thread that looks its key up goes on to. */
  function Looked(st: State, pc: Pc): Pc
    requires pc.Reading? || pc.Writing?
  {
    if pc.key in st.table then
      (if pc.Reading? then SharedFound(st.table[pc.key], pc.key) else UniqueFound(st.table[pc.key], pc.key))
    else WantUnique(pc.key)
  }

  lemma LookedIsQuiet(st: State, t: Thread)
    requires Inv(st) && t in st.threads && (st.threads[t].Reading? || (st.threads[t].Writing? && st.threads[t].key in st.table))
    ensures var pc := Looked(st, st.threads[t]);
      && MayHold(st, t, pc) && ThreadOk(At(st, t, pc), t)
      && (forall role, r :: Plays(st.threads[t], role, r) == Plays(pc, role, r))
      && (forall r :: KeepsAlive(st.threads[t], r) ==> KeepsAlive(pc, r))
  {
    assert ThreadOk(st, t) && LockOk(st, t);
  }

  lemma GoLookingHolds(st: State, t: Thread, r0: Ref, made: Handle)
    requires Goes(st, t, r0, made) && (st.threads[t].Reading? || st.threads[t].Writing?)
    ensures Inv(Apply(st, Go(t, r0, made)))
  {
    var pc := st.threads[t];
    LookingGoes(st, t, r0, made);
    if pc.Writing? && pc.key !in st.table {
      CreateStepHolds(st, t, pc.key, r0);
    } else {
      LookedIsQuiet(st, t);
      QuietStepHolds(st, t, Looked(st, pc));
    }
  }

  function Owes(pc: Pc, r: Ref, key: Key): Pc {
    if pc.SharedFound? then SharedOwes(r, key) else UniqueOwes(r, key)
  }

  function Done(pc: Pc, r: Ref, key: Key): Pc {
    if pc.SharedFound? || pc.SharedOwes? then SharedDone(r, key) else UniqueDone(r, key)
  }

  lemma FoundGoes(st: State, t: Thread, r0: Ref, made: Handle)
    requires MayGo(st, t, r0, made) && (st.threads[t].SharedFound? || st.threads[t].UniqueFound?)
    ensures var pc := st.threads[t];
      && Finds(st, t, pc.ref, Owes(pc, pc.ref, pc.key), Done(pc, pc.ref, pc.key))
      && Apply(st, Go(t, r0, made)) == AddRef(st, t, pc.ref, Owes(pc, pc.ref, pc.key), Done(pc, pc.ref, pc.key))
  {
  }

  lemma OwingGoes(st: State, t: Thread, r0: Ref, made: Handle)
    requires MayGo(st, t, r0, made) && (st.threads[t].SharedOwes? || st.threads[t].UniqueOwes?)
    ensures var pc := st.threads[t];
      && Pays(st, t, pc.ref, Done(pc, pc.ref, pc.key))
      && Apply(st, Go(t, r0, made)) == PayDeleter(st, t, pc.ref, Done(pc, pc.ref, pc.key))
  {
  }

  lemma DoneGoes(st: State, t: Thread, r0: Ref, made: Handle)
    requires MayGo(st, t, r0, made) && (st.threads[t].SharedDone? || st.threads[t].UniqueDone?)
    ensures IsDone(st.threads[t], st.threads[t].ref)
    ensures Apply(st, Go(t, r0, made)) == HandOut(st, t, st.threads[t].ref, made)
  {
  }

  lemma DeletingGoes(st: State, t: Thread, r0: Ref, made: Handle)
    requires MayGo(st, t, r0, made) && st.threads[t].Deleting?
    ensures st.threads[t].ref in st.cells && Apply(st, Go(t, r0, made)) == Decremented(st, t, st.threads[t].ref)
  {
  }

  lemma ErasingGoes(st: State, t: Thread, r0: Ref, made: Handle)
    requires MayGo(st, t, r0, made) && st.threads[t].Erasing?
    ensures st.threads[t].ref in st.cells && Apply(st, Go(t, r0, made)) == Erase(st, t, st.threads[t].ref)
  {
  }

  lemma GoHoldingHolds(st: State, t: Thread, r0: Ref, made: Handle)
    requires Goes(st, t, r0, made) && Inserting(st.threads[t])
    ensures Inv(Apply(st, Go(t, r0, made)))
  {
    var pc := st.threads[t];
    if pc.SharedFound? || pc.UniqueFound? {
      FoundGoes(st, t, r0, made);
      FoundStepHolds(st, t, pc.ref, Owes(pc, pc.ref, pc.key), Done(pc, pc.ref, pc.key));
    } else if pc.SharedOwes? || pc.UniqueOwes? {
      OwingGoes(st, t, r0, made);
      PayStepHolds(st, t, pc.ref, Done(pc, pc.ref, pc.key));
    } else {
      DoneGoes(st, t, r0, made);
      DoneStepHolds(st, t, pc.ref, made);
    }
  }

  lemma GoDroppingHolds(st: State, t: Thread, r0: Ref, made: Handle)
    requires Goes(st, t, r0, made) && (st.threads[t].Deleting? || st.threads[t].Erasing?)
    ensures Inv(Apply(st, Go(t, r0, made)))
  {
    if st.threads[t].Deleting? {
      DeletingGoes(st, t, r0, made);
      DeleteStepHolds(st, t, st.threads[t].ref);
    } else {
      ErasingGoes(st, t, r0, made);
      EraseStepHolds(st, t, st.threads[t].ref);
    }
  }

  lemma GoHolds(st: State, t: Thread, r0: Ref, made: Handle)
    requires Goes(st, t, r0, made)
    ensures Inv(Apply(st, Go(t, r0, made)))
  {
    assert ThreadOk(st, t);
    if Inserting(st.threads[t]) {
      GoHoldingHolds(st, t, r0, made);
    } else if st.threads[t].Deleting? || st.threads[t].Erasing? {
      GoDroppingHolds(st, t, r0, made);
    } else if st.threads[t].Reading? || st.threads[t].Writing? {
      GoLookingHolds(st, t, r0, made);
    } else {
      GoLockingHolds(st, t, r0, made);
    }
  }

  lemma StepHolds(st: State, e: Event)
    requires Inv(st) && Enabled(st, e)
    ensures Touches(st, e) && Inv(Apply(st, e))
  {
    NothingFreedIsTouched(st, e);
    match e
    case Insert(t, key) =>
      assert LockOk(st, t);
      QuietStepHolds(st, t, WantShared(key));
    case Copy(t, source, h) => CopyStepHolds(st, t, source, h);
    case Drop(t, h) => DropStepHolds(st, t, h);
    case Move(from, to) => MoveStepHolds(st, from, to);
    case Go(t, r0, made) => GoHolds(st, t, r0, made);
  }

  ghost predicate Init(st: State) {
    st.cells == map[] && st.table == map[] && st.handles == map[] && st.readers == {} && st.writer == None && AtRest(st)
  }

  /** A step that would touch freed memory may do anything, so that the theorem has to rule
      it out. */
  ghost predicate Step(st: State, e: Event, st': State) {
    Enabled(st, e) && (Touches(st, e) ==> st' == Apply(st, e))
  }

  ghost predicate Run(trace: seq<State>, events: seq<Event>) {
    && |trace| == |events| + 1 && Init(trace[0])
    && forall i :: 0 <= i < |events| ==> Step(trace[i], events[i], trace[i + 1])
  }

  lemma {:induction false} RunHolds(trace: seq<State>, events: seq<Event>, i: nat)
    requires Run(trace, events) && i <= |events|
    ensures Inv(trace[i])
  {
    if i > 0 {
      RunHolds(trace, events, i - 1);
      assert Step(trace[i - 1], events[i - 1], trace[i]);
      StepHolds(trace[i - 1], events[i - 1]);
    }
  }

  /** Whatever the interleaving: no freed value is touched, the plain counter never has two
      writers, a value is erased only when nothing refers to it, and at rest exactly the
      values that handles refer to are stored. */
  lemma RunsAreSafe(trace: seq<State>, events: seq<Event>, i: nat)
    requires Run(trace, events) && i <= |events|
    ensures i < |events| ==> Touches(trace[i], events[i])
    ensures forall t, u, r :: t in trace[i].threads && u in trace[i].threads && t != u ==>
        !(WritesDeleters(trace[i].threads[t], r) && WritesDeleters(trace[i].threads[u], r))
    ensures forall t, r :: t in trace[i].threads && trace[i].threads[t] == Erasing(r) ==>
        References(trace[i], r) == 0 && |Players(trace[i].threads, Dropping, r)| == 0
    ensures AtRest(trace[i]) ==>
        forall r :: r in trace[i].cells <==> exists h :: h in trace[i].handles && trace[i].handles[h] == r
  {
    RunHolds(trace, events, i);
    var st := trace[i];
    if i < |events| {
      assert Step(st, events[i], trace[i + 1]);
      NothingFreedIsTouched(st, events[i]);
    }
    forall t, u, r | t in st.threads && u in st.threads && WritesDeleters(st.threads[t], r) && WritesDeleters(st.threads[u], r)
      ensures t == u
    {
      OneWriter(st, t, u, r);
    }
    forall t, r | t in st.threads && st.threads[t] == Erasing(r)
      ensures References(st, r) == 0 && |Players(st.threads, Dropping, r)| == 0
    {
      ErasedOnlyUnused(st, t, r);
    }
    if AtRest(st) {
      forall r
        ensures r in st.cells <==> exists h :: h in st.handles && st.handles[h] == r
      {
        NoLeakAtRest(st, r);
      }
    }
  }

  /** The relation between the two counters, as long as a value is stored: `deleters` counts
      the drops past their decrement, and one for the references if there are any, less an
      increment that is still owed. */
  lemma DeletersCount(trace: seq<State>, events: seq<Event>, i: nat, r: Ref)
    requires Run(trace, events) && i <= |events| && r in trace[i].cells
    ensures var st := trace[i];
      && st.cells[r].refCount == References(st, r)
      && st.cells[r].deleters == |Players(st.threads, Dropping, r)| + One(st.cells[r].refCount > 0) - |Players(st.threads, Owing, r)|
      && |Players(st.threads, Owing, r)| <= 1
  {
    RunHolds(trace, events, i);
    assert CellOk(trace[i], r);
  }

  /** An insertion hands out a handle to the text it was asked for. */
  lemma InsertionYieldsItsKey(trace: seq<State>, events: seq<Event>, i: nat)
    requires Run(trace, events) && i < |events| && events[i].Go?
    requires events[i].t in trace[i].threads
    requires trace[i].threads[events[i].t].SharedDone? || trace[i].threads[events[i].t].UniqueDone?
    ensures var h, key := events[i].made, trace[i].threads[events[i].t].key;
      && h in trace[i + 1].handles && trace[i + 1].handles[h] in trace[i + 1].cells
      && trace[i + 1].cells[trace[i + 1].handles[h]].key == key
  {
    RunHolds(trace, events, i);
    assert Step(trace[i], events[i], trace[i + 1]);
    assert ThreadOk(trace[i], events[i].t);
  }

  lemma StepKeepsHandle(st: State, e: Event, h: Handle)
    requires Enabled(st, e) && Touches(st, e) && h in st.handles && h in Apply(st, e).handles
    ensures Apply(st, e).handles[h] == st.handles[h]
  {
  }

  lemma StepKeepsKey(st: State, e: Event, r: Ref)
    requires Enabled(st, e) && Touches(st, e) && r in st.cells && r in Apply(st, e).cells
    ensures Apply(st, e).cells[r].key == st.cells[r].key
  {
  }

  /** No step changes what an existing handle stands for. */
  lemma HandlesKeepTheirKeys(trace: seq<State>, events: seq<Event>, i: nat, h: Handle)
    requires Run(trace, events) && i < |events| && h in trace[i].handles && h in trace[i + 1].handles
    ensures var r := trace[i].handles[h];
      && trace[i + 1].handles[h] == r && r in trace[i].cells && r in trace[i + 1].cells
      && trace[i + 1].cells[r].key == trace[i].cells[r].key
  {
    RunHolds(trace, events, i);
    RunHolds(trace, events, i + 1);
    assert Step(trace[i], events[i], trace[i + 1]);
    NothingFreedIsTouched(trace[i], events[i]);
    StepKeepsHandle(trace[i], events[i], h);
    StepKeepsKey(trace[i], events[i], trace[i].handles[h]);
  }

  // --- Every operation comes to its end ---------------------------------------------------

  /** How many steps of its own a thread needs at most to be done with its operation. */
  function StepsLeft(pc: Pc): nat {
    match pc
    case Idle => 0
    case WantShared(_) => 7
    case Reading(_) => 6
    case SharedFound(_, _) => 3
    case SharedOwes(_, _) => 2
    case SharedDone(_, _) => 1
    case WantUnique(_) => 5
    case Writing(_) => 4
    case UniqueFound(_, _) => 3
    case UniqueOwes(_, _) => 2
    case UniqueDone(_, _) => 1
    case CopyOwes(_) => 1
    case WantDelete(_) => 4
    case Deleting(_) => 3
    case Erasing(_) => 2
    case Removed => 1
  }

  /** The thread is inserting `key`. */
  predicate Inserts(pc: Pc, key: Key) {
    (pc.WantShared? || pc.Reading? || pc.WantUnique? || pc.Writing? || Inserting(pc)) && pc.key == key
  }

  lemma OthersStay(st: State, t: Thread, r: Ref, made: Handle)
    requires Enabled(st, Go(t, r, made)) && Touches(st, Go(t, r, made))
    ensures var st' := Apply(st, Go(t, r, made)); st'.threads == st.threads[t := st'.threads[t]]
  {
  }

  /** A step takes a thread nearer to the end of its operation, and leaves the others where
      they are. */
  lemma StepsCount(st: State, t: Thread, r: Ref, made: Handle)
    requires Enabled(st, Go(t, r, made)) && Touches(st, Go(t, r, made))
    ensures var st' := Apply(st, Go(t, r, made));
      && st'.threads.Keys == st.threads.Keys && StepsLeft(st'.threads[t]) < StepsLeft(st.threads[t])
      && (forall u :: u in st.threads && u != t ==> st'.threads[u] == st.threads[u])
  {
    OthersStay(st, t, r, made);
  }

  /** An insertion stays with its key to the end, where it makes a handle; one that finds
      the text stored keeps the shared lock. */
  lemma KeyStays(st: State, t: Thread, r: Ref, made: Handle, key: Key)
    requires Enabled(st, Go(t, r, made)) && Touches(st, Go(t, r, made)) && Inserts(st.threads[t], key)
    ensures var st' := Apply(st, Go(t, r, made));
      && t in st'.threads
      && (if st'.threads[t] == Idle then made in st'.handles else Inserts(st'.threads[t], key))
      && (st.threads[t].Reading? ==> (HoldsShared(st'.threads[t]) <==> key in st.table))
  {
  }

  lemma InsertsItsKey(st: State, t: Thread, key: Key)
    requires Enabled(st, Insert(t, key))
    ensures Inserts(Apply(st, Insert(t, key)).threads[t], key) && StepsLeft(Apply(st, Insert(t, key)).threads[t]) <= 7
  {
  }

  predicate SomeoneHolds(st: State, shared: bool) {
    exists u :: u in st.threads && (HoldsUnique(st.threads[u]) || (shared && HoldsShared(st.threads[u])))
  }

  /** In every run a thread in an operation is blocked exactly if it wants the shared lock and
      some thread has the unique one, or wants the unique one and some thread has either. */
  lemma BlockedExactly(trace: seq<State>, events: seq<Event>, i: nat, t: Thread, r: Ref, made: Handle)
    requires Run(trace, events) && i <= |events| && t in trace[i].threads && trace[i].threads[t] != Idle && made !in trace[i].handles
    ensures var st, pc := trace[i], trace[i].threads[t];
      Enabled(st, Go(t, r, made)) <==>
        && (pc.WantShared? ==> !SomeoneHolds(st, false))
        && (pc.WantUnique? || pc.WantDelete? ==> !SomeoneHolds(st, true))
        && (pc.Writing? && pc.key !in st.table ==> r !in st.cells)
  {
    RunHolds(trace, events, i);
    var st := trace[i];
    assert forall u :: u in st.threads ==> LockOk(st, u);
    if st.writer.Some? {
      assert HoldsUnique(st.threads[st.writer.value]);
    }
    if u :| u in st.readers {
      assert HoldsShared(st.threads[u]);
    }
  }

  /** In every run some thread can go on as long as not all are at rest: the locks never
      block everybody, wherever a new value or handle is to be placed. */
  lemma SomebodyGoesOn(trace: seq<State>, events: seq<Event>, i: nat, r: Ref, made: Handle) returns (t: Thread)
    requires Run(trace, events) && i <= |events| && r !in trace[i].cells && made !in trace[i].handles
    requires exists u :: u in trace[i].threads && trace[i].threads[u] != Idle
    ensures Enabled(trace[i], Go(t, r, made)) && Touches(trace[i], Go(t, r, made))
  {
    var st := trace[i];
    RunHolds(trace, events, i);
    if st.writer.Some? {
      t := st.writer.value;
    } else if st.readers != {} {
      t :| t in st.readers;
    } else {
      t :| t in st.threads && st.threads[t] != Idle;
    }
    assert t in st.threads && LockOk(st, t) && ThreadOk(st, t);
  }
}
