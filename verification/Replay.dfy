/** Scanning with the header cache, and why a cached result may stand for a run. */
module Replay {
  import opened Macros
  import opened Directives
  import opened Recording
  import opened DeferredReads
  import opened SteadyConditions
  import opened ConsistentKeys

  /** What the cache keeps for one file and one path of used macros. */
  datatype Entry = Entry(changes: MacroMap, headers: set<FileId>)

  type Key = (FileId, seq<Macro>)

  type CacheMap = map<Key, Entry>

  /** A scan together with the shared cache. `clock` counts the cache's operations. */
  datatype Memo = Memo(run: Run, cache: CacheMap, clock: nat)

  /** Everything outside the scanner: the files, and which entries have been evicted when
      the cache is used for the n-th time. */
  datatype World = World(files: Files, evicted: nat -> set<Key>)

  /** Headers that use more macros than this are not cached. */
  const USED_LIMIT := 1024

  ghost predicate HitPath(cache: CacheMap, f: FileId, m: MacroMap, path: seq<Macro>) {
    (f, path) in cache && Matches(path, m)
  }

  ghost predicate IsHit(cache: CacheMap, f: FileId, m: MacroMap) {
    exists path :: HitPath(cache, f, m, path)
  }

  ghost function FindPath(cache: CacheMap, f: FileId, m: MacroMap): (path: seq<Macro>)
    requires IsHit(cache, f, m)
    ensures HitPath(cache, f, m, path)
  {
    var path :| HitPath(cache, f, m, path);
    path
  }

  /** An entry that is already there is kept. */
  function Store(cache: CacheMap, f: FileId, c: Run): (cache': CacheMap)
    ensures (f, c.used) in cache'
  {
    if (f, c.used) in cache then cache else cache[(f, c.used) := Entry(Changes(c), c.headers)]
  }

  function Tick(w: World, s: Memo): Memo {
    s.(cache := s.cache - w.evicted(s.clock), clock := s.clock + 1)
  }

  ghost function AbsorbEntry(r: Run, path: seq<Macro>, e: Entry, f: FileId): Run {
    Absorb(r, path, e.changes, e.headers + {f})
  }

  /** A child context is left: it is stored if viable, and then hands over either the
      stored entry or its own record. */
  ghost function Leave(w: World, r: Run, f: FileId, child: Memo): Memo {
    var c := child.run;
    var r' := r.(state := c.state, tooDeep := r.tooDeep || c.tooDeep);
    if |c.used| < USED_LIMIT then
      var s := Tick(w, child);
      var cache := Store(s.cache, f, c);
      Memo(AbsorbEntry(r', c.used, cache[(f, c.used)], f), cache, s.clock)
    else
      Memo(Absorb(r', c.used, map[], c.headers + {f}).(changed := r.changed + c.changed), child.cache, child.clock)
  }

  ghost function ReplayItems(w: World, self: FileId, items: Items, s: Memo, depth: nat): Memo
    decreases depth, Size(items), 1
  {
    match items
    case End => s
    case Then(head, tail) => ReplayItems(w, self, tail, ReplayItem(w, self, head, s, depth), depth)
  }

  ghost function ReplayItem(w: World, self: FileId, item: Item, s: Memo, depth: nat): Memo
    decreases depth, ItemSize(item), 2
  {
    match item
    case Define(name, text) => s.(run := Write(s.run, name, Text(text)))
    case Undef(name) => s.(run := Write(s.run, name, Undefined))
    case PragmaOnce => s.(run := MarkIf(s.run, self, true))
    case Include(Missing) => s
    case Include(Found(f)) =>
      var r := s.run;
      if Lookup(r.state, OnceMarker(f)) != Undefined then
        s.(run := SkipOnce(r, f))
      else
        var s1 := Tick(w, s);
        if IsHit(s1.cache, f, r.state) then
          var path := FindPath(s1.cache, f, r.state);
          s1.(run := AbsorbEntry(r, path, s1.cache[(f, path)], f))
        else if depth == 0 then
          s1.(run := SkipOnce(r, f).(tooDeep := true))
        else
          Leave(w, r, f, ReplayItems(w, f, w.files(f), s1.(run := Enter(f, r.state)), depth - 1))
    case If(test, body, rest) =>
      if ItemCommits(item, s.run.state) then
        var b := Select(test, body, rest, s.run.state);
        ReplayItems(w, self, b.body, s.(run := Record(s.run, b.asked)), depth)
      else
        s.(run := MarkIf(s.run, self, ItemRunsOnce(item, s.run.state)))
  }

  // --- Sound entries ---------------------------------------------------------------

  ghost predicate Recorded(files: Files, f: FileId, path: seq<Macro>, e: Entry, m: MacroMap, depth: nat) {
    var c := ObserveFile(files, f, m, depth);
    !c.tooDeep && c.used == path && Changes(c) == e.changes && c.headers == e.headers
  }

  /** The entry is what some run of the file, without any cache, would have recorded. */
  ghost predicate SoundEntry(files: Files, f: FileId, path: seq<Macro>, e: Entry) {
    exists m, depth :: Recorded(files, f, path, e, m, depth)
  }

  ghost predicate SoundCache(files: Files, cache: CacheMap) {
    forall f, path :: (f, path) in cache ==> SoundEntry(files, f, path, cache[(f, path)])
  }

  ghost predicate WellFormed(files: Files) {
    AllDecided(files) && AllSteady(files)
  }

  /** A hit hands over exactly what running the file now would. */
  lemma HitIsRun(files: Files, f: FileId, path: seq<Macro>, e: Entry, m: MacroMap) returns (depth: nat)
    requires WellFormed(files) && SoundEntry(files, f, path, e) && Matches(path, m)
    ensures var c := ObserveFile(files, f, m, depth);
      !c.tooDeep && c.used == path && Changes(c) == e.changes && c.headers == e.headers
      && c.state == m + e.changes
  {
    var m0: MacroMap, d: nat :| Recorded(files, f, path, e, m0, d);
    MatchingStateReplays(files, f, m0, m, d);
    ObserveFileIsExec(files, f, m, d);
    depth := d;
  }

  /** Two sound entries of one file have consistent paths; with the same path they are
      the same entry. */
  lemma SoundEntriesConsistent(files: Files, f: FileId, p: seq<Macro>, d: Entry, q: seq<Macro>, e: Entry)
    requires WellFormed(files) && SoundEntry(files, f, p, d) && SoundEntry(files, f, q, e)
    ensures Consistent(p, q) && p != [] && p[0].0 == OnceMarker(f) && (p == q ==> d == e)
  {
    var m: MacroMap, i: nat :| Recorded(files, f, p, d, m, i);
    var m': MacroMap, j: nat :| Recorded(files, f, q, e, m', j);
    KeysAreConsistent(files, f, m, m', i, j);
    if p == q {
      ObserveFileIsExec(files, f, m, i);
      ObserveFileIsExec(files, f, m', j);
      MatchingStateReplays(files, f, m, m', i);
      var more := if i <= j then j else i;
      ObserveFileDeeper(files, f, m', i, more);
      ObserveFileDeeper(files, f, m', j, more);
    }
  }

  /** Evicting never hurts. */
  lemma TickSound(w: World, s: Memo)
    requires SoundCache(w.files, s.cache)
    ensures SoundCache(w.files, Tick(w, s).cache)
  {
  }

  /** A header that has been stored is found again by whoever comes in the state it was
      entered in; one with too many reads leaves the cache as it is. */
  lemma LeaveHits(w: World, r: Run, f: FileId, child: Memo)
    requires Faithful(r.state, child.run)
    ensures |child.run.used| < 1024 ==> IsHit(Leave(w, r, f, child).cache, f, r.state)
    ensures |child.run.used| >= 1024 ==> Leave(w, r, f, child).cache == child.cache
  {
    if |child.run.used| < 1024 {
      assert HitPath(Leave(w, r, f, child).cache, f, r.state, child.run.used);
    }
  }

  /** Leaving a child that was run soundly keeps the cache sound, and hands over the
      child's record. */
  lemma LeaveSound(w: World, r: Run, f: FileId, child: Memo, depth: nat)
    requires WellFormed(w.files) && SoundCache(w.files, child.cache)
    requires var c := ObserveFile(w.files, f, r.state, depth); !c.tooDeep && child.run == c
    ensures SoundCache(w.files, Leave(w, r, f, child).cache)
    ensures var c := child.run;
      Leave(w, r, f, child).run == Absorb(r, c.used, Changes(c), c.headers + {f}).(tooDeep := r.tooDeep || c.tooDeep)
  {
    var c := child.run;
    ObserveFileIsExec(w.files, f, r.state, depth);
    assert Recorded(w.files, f, c.used, Entry(Changes(c), c.headers), r.state, depth);
    assert SoundEntry(w.files, f, c.used, Entry(Changes(c), c.headers));
    assert c.state + Changes(c) == c.state;
    assert c.state + map[] == c.state;
    if |c.used| < USED_LIMIT {
      var s := Tick(w, child);
      if (f, c.used) in s.cache {
        SoundEntriesConsistent(w.files, f, c.used, s.cache[(f, c.used)], c.used, Entry(Changes(c), c.headers));
      }
    }
  }

  // --- Scanning with the cache is scanning without it ------------------------------

  lemma {:induction false} ReplayItemsIsObserve(w: World, self: FileId, items: Items, m0: MacroMap, s: Memo, depth: nat)
    requires WellFormed(w.files) && SoundCache(w.files, s.cache)
    requires DecidedItems(items) && SteadyItems(items) && Faithful(m0, s.run)
    requires !ObserveItems(w.files, self, items, s.run, depth).tooDeep
    ensures ReplayItems(w, self, items, s, depth).run == ObserveItems(w.files, self, items, s.run, depth)
    ensures SoundCache(w.files, ReplayItems(w, self, items, s, depth).cache)
    decreases depth, Size(items), 1
  {
    if items.Then? {
      ObserveItemIsExec(w.files, self, items.head, m0, s.run, depth);
      StaysTooDeep(w.files, self, items.tail, ObserveItem(w.files, self, items.head, s.run, depth), depth);
      ReplayItemIsObserve(w, self, items.head, m0, s, depth);
      ReplayItemsIsObserve(w, self, items.tail, m0, ReplayItem(w, self, items.head, s, depth), depth);
    }
  }

  lemma {:induction false} ReplayItemIsObserve(w: World, self: FileId, item: Item, m0: MacroMap, s: Memo, depth: nat)
    requires WellFormed(w.files) && SoundCache(w.files, s.cache)
    requires DecidedItem(item) && SteadyItem(item) && Faithful(m0, s.run)
    requires !ObserveItem(w.files, self, item, s.run, depth).tooDeep
    ensures ReplayItem(w, self, item, s, depth).run == ObserveItem(w.files, self, item, s.run, depth)
    ensures SoundCache(w.files, ReplayItem(w, self, item, s, depth).cache)
    decreases depth, ItemSize(item), 2
  {
    match item
    case Include(Found(f)) =>
      var r := s.run;
      if Lookup(r.state, OnceMarker(f)) == Undefined {
        var s1 := Tick(w, s);
        TickSound(w, s);
        if IsHit(s1.cache, f, r.state) {
          HitIsObserve(w, self, f, s1, depth);
        } else {
          EnterFaithful(f, r.state);
          ReplayItemsIsObserve(w, f, w.files(f), r.state, s1.(run := Enter(f, r.state)), depth - 1);
          LeaveSound(w, r, f, ReplayItems(w, f, w.files(f), s1.(run := Enter(f, r.state)), depth - 1), depth - 1);
        }
      }
    case If(test, body, rest) =>
      if ItemCommits(item, s.run.state) {
        var b := Select(test, body, rest, s.run.state);
        RecordPairsFaithful(m0, s.run, Valued(s.run.state, b.asked));
        SelectDecided(test, body, rest, s.run.state);
        SelectSteady(test, body, rest, s.run.state);
        ReplayItemsIsObserve(w, self, b.body, m0, s.(run := Record(s.run, b.asked)), depth);
      }
    case _ =>
  }

  lemma HitIsObserve(w: World, self: FileId, f: FileId, s1: Memo, depth: nat)
    requires WellFormed(w.files) && SoundCache(w.files, s1.cache) && IsHit(s1.cache, f, s1.run.state)
    requires Lookup(s1.run.state, OnceMarker(f)) == Undefined
    requires !ObserveItem(w.files, self, Include(Found(f)), s1.run, depth).tooDeep
    ensures var path := FindPath(s1.cache, f, s1.run.state);
      AbsorbEntry(s1.run, path, s1.cache[(f, path)], f) == ObserveItem(w.files, self, Include(Found(f)), s1.run, depth)
  {
    var m := s1.run.state;
    var path := FindPath(s1.cache, f, m);
    var d := HitIsRun(w.files, f, path, s1.cache[(f, path)], m);
    var more := if d <= depth - 1 then depth - 1 else d;
    ObserveFileDeeper(w.files, f, m, d, more);
    ObserveFileDeeper(w.files, f, m, depth - 1, more);
  }

  /** Conversely, a cached scan that stays within the nesting limit agrees with an
      uncached one that is allowed to nest deeply enough. */
  lemma {:induction false} ReplayItemsHasObserve(w: World, self: FileId, items: Items, m0: MacroMap, s: Memo, depth: nat)
    returns (d: nat)
    requires WellFormed(w.files) && SoundCache(w.files, s.cache)
    requires DecidedItems(items) && SteadyItems(items) && Faithful(m0, s.run)
    requires !ReplayItems(w, self, items, s, depth).run.tooDeep
    ensures ReplayItems(w, self, items, s, depth).run == ObserveItems(w.files, self, items, s.run, d)
    ensures SoundCache(w.files, ReplayItems(w, self, items, s, depth).cache)
    decreases depth, Size(items), 1
  {
    if items.End? {
      return 0;
    }
    var s1 := ReplayItem(w, self, items.head, s, depth);
    ReplayStaysTooDeep(w, self, items.tail, s1, depth);
    var d1 := ReplayItemHasObserve(w, self, items.head, m0, s, depth);
    ObserveItemIsExec(w.files, self, items.head, m0, s.run, d1);
    var d2 := ReplayItemsHasObserve(w, self, items.tail, m0, s1, depth);
    d := if d1 <= d2 then d2 else d1;
    ItemAtDepth(w.files, self, items.head, s.run, d1, d);
    ItemsAtDepth(w.files, self, items.tail, s1.run, d2, d);
  }

  lemma {:induction false} ReplayItemHasObserve(w: World, self: FileId, item: Item, m0: MacroMap, s: Memo, depth: nat)
    returns (d: nat)
    requires WellFormed(w.files) && SoundCache(w.files, s.cache)
    requires DecidedItem(item) && SteadyItem(item) && Faithful(m0, s.run)
    requires !ReplayItem(w, self, item, s, depth).run.tooDeep
    ensures ReplayItem(w, self, item, s, depth).run == ObserveItem(w.files, self, item, s.run, d)
    ensures SoundCache(w.files, ReplayItem(w, self, item, s, depth).cache)
    decreases depth, ItemSize(item), 2
  {
    d := 0;
    match item
    case Include(Found(f)) =>
      var r := s.run;
      if Lookup(r.state, OnceMarker(f)) == Undefined {
        var s1 := Tick(w, s);
        TickSound(w, s);
        if IsHit(s1.cache, f, r.state) {
          var path := FindPath(s1.cache, f, r.state);
          var e := HitIsRun(w.files, f, path, s1.cache[(f, path)], r.state);
          d := e + 1;
        } else {
          EnterFaithful(f, r.state);
          var child := ReplayItems(w, f, w.files(f), s1.(run := Enter(f, r.state)), depth - 1);
          var e := ReplayItemsHasObserve(w, f, w.files(f), r.state, s1.(run := Enter(f, r.state)), depth - 1);
          LeaveSound(w, r, f, child, e);
          d := e + 1;
        }
      }
    case If(test, body, rest) =>
      if ItemCommits(item, s.run.state) {
        var b := Select(test, body, rest, s.run.state);
        RecordPairsFaithful(m0, s.run, Valued(s.run.state, b.asked));
        SelectDecided(test, body, rest, s.run.state);
        SelectSteady(test, body, rest, s.run.state);
        d := ReplayItemsHasObserve(w, self, b.body, m0, s.(run := Record(s.run, b.asked)), depth);
      }
    case _ =>
  }

  lemma {:induction false} ReplayStaysTooDeep(w: World, self: FileId, items: Items, s: Memo, depth: nat)
    ensures s.run.tooDeep ==> ReplayItems(w, self, items, s, depth).run.tooDeep
    decreases Size(items), 1
  {
    if items.Then? {
      if items.head.If? {
        var b := Select(items.head.test, items.head.body, items.head.rest, s.run.state);
        assert ItemSize(items.head) == 1 + Size(items.head.body) + RestSize(items.head.rest);
        ReplayStaysTooDeep(w, self, b.body, s.(run := Record(s.run, b.asked)), depth);
      }
      ReplayStaysTooDeep(w, self, items.tail, ReplayItem(w, self, items.head, s, depth), depth);
    }
  }

  lemma {:induction false} ItemsAtDepth(files: Files, self: FileId, items: Items, r: Run, depth: nat, more: nat)
    requires !ObserveItems(files, self, items, r, depth).tooDeep && depth <= more
    ensures ObserveItems(files, self, items, r, more) == ObserveItems(files, self, items, r, depth)
    decreases more
  {
    if depth < more {
      ItemsAtDepth(files, self, items, r, depth, more - 1);
      ObserveItemsDeeper(files, self, items, r, more - 1);
    }
  }

  lemma {:induction false} ItemAtDepth(files: Files, self: FileId, item: Item, r: Run, depth: nat, more: nat)
    requires !ObserveItem(files, self, item, r, depth).tooDeep && depth <= more
    ensures ObserveItem(files, self, item, r, more) == ObserveItem(files, self, item, r, depth)
    decreases more
  {
    if depth < more {
      ItemAtDepth(files, self, item, r, depth, more - 1);
      ObserveItemDeeper(files, self, item, r, more - 1);
    }
  }
}
