/** The header cache is transparent: scanning with it, in any order of jobs and under any
    evictions, ends as preprocessing without it. */
module Transparency {
  import opened Macros
  import opened Directives
  import opened Recording
  import opened DeferredReads
  import opened SteadyConditions
  import opened ConsistentKeys
  import opened Replay
  import opened Deferral

  /** The scanner with deferred reads and cache, against preprocessing. */
  lemma ScanIsExec(w: World, f: FileId, m: MacroMap, cache: CacheMap, clock: nat, depth: nat)
    requires WellFormed(w.files) && SoundCache(w.files, cache)
    requires !ExecFile(w.files, f, m, depth).tooDeep
    ensures var t := TrackFile(w, f, m, cache, clock, depth); var o := ExecFile(w.files, f, m, depth);
      && t.memo.run.state == m + o.changes
      && Changes(t.memo.run) == o.changes
      && t.memo.run.headers == o.headers
      && !t.memo.run.tooDeep
      && t.conditions == NO_CONDITIONS
      && SoundCache(w.files, t.memo.cache)
    ensures TrackFile(w, f, m, cache, clock, depth).memo.run == ObserveFile(w.files, f, m, depth)
  {
    var s := Memo(Enter(f, m), cache, clock);
    ObserveFileIsExec(w.files, f, m, depth);
    EnterFaithful(f, m);
    TrackTopDefers(w, f, w.files(f), s, depth);
    ReplayItemsIsObserve(w, f, w.files(f), m, s, depth);
  }

  /** The converse: whatever a cached scan reports is what preprocessing would do if it
      were allowed to nest deeply enough. */
  lemma ScanHasExec(w: World, f: FileId, m: MacroMap, cache: CacheMap, clock: nat, depth: nat) returns (d: nat)
    requires WellFormed(w.files) && SoundCache(w.files, cache)
    requires !TrackFile(w, f, m, cache, clock, depth).memo.run.tooDeep
    ensures var t := TrackFile(w, f, m, cache, clock, depth); var o := ExecFile(w.files, f, m, d);
      !o.tooDeep && t.memo.run.state == m + o.changes && t.memo.run.headers == o.headers
      && SoundCache(w.files, t.memo.cache)
  {
    var s := Memo(Enter(f, m), cache, clock);
    EnterFaithful(f, m);
    TrackTopDefers(w, f, w.files(f), s, depth);
    d := ReplayItemsHasObserve(w, f, w.files(f), m, s, depth);
    ObserveFileIsExec(w.files, f, m, d);
  }

  /** One translation unit to scan. */
  datatype Job = Job(file: FileId, macros: MacroMap)

  datatype Report = Report(state: MacroMap, headers: set<FileId>)

  /** Scanning jobs one after the other with one shared cache. */
  ghost function ScanAll(w: World, jobs: seq<Job>, cache: CacheMap, clock: nat, depth: nat): seq<Report>
    decreases |jobs|
  {
    if jobs == [] then
      []
    else
      var t := TrackFile(w, jobs[0].file, jobs[0].macros, cache, clock, depth);
      [Report(t.memo.run.state, t.memo.run.headers)] + ScanAll(w, jobs[1..], t.memo.cache, t.memo.clock, depth)
  }

  ghost function Preprocess(files: Files, job: Job, depth: nat): Report {
    var o := ExecFile(files, job.file, job.macros, depth);
    Report(job.macros + o.changes, o.headers)
  }

  /** Any history of jobs, cached results and evictions, starting from an empty cache. */
  lemma {:induction false} CacheIsTransparent(w: World, jobs: seq<Job>, cache: CacheMap, clock: nat, depth: nat)
    requires WellFormed(w.files) && SoundCache(w.files, cache)
    requires forall i :: 0 <= i < |jobs| ==> !ExecFile(w.files, jobs[i].file, jobs[i].macros, depth).tooDeep
    ensures |ScanAll(w, jobs, cache, clock, depth)| == |jobs|
    ensures forall i :: 0 <= i < |jobs| ==>
      ScanAll(w, jobs, cache, clock, depth)[i] == Preprocess(w.files, jobs[i], depth)
    decreases |jobs|
  {
    if jobs != [] {
      var t := TrackFile(w, jobs[0].file, jobs[0].macros, cache, clock, depth);
      ScanIsExec(w, jobs[0].file, jobs[0].macros, cache, clock, depth);
      CacheIsTransparent(w, jobs[1..], t.memo.cache, t.memo.clock, depth);
    }
  }

  lemma EmptyCacheIsSound(files: Files)
    ensures SoundCache(files, map[])
  {
  }

  // --- The decision trees can index a sound cache -----------------------------------

  /** The path of any run can be added to the tree of its file: it is nonempty, begins
      with the file's marker, and is consistent with every path cached so far. */
  lemma RunFitsCache(files: Files, cache: CacheMap, f: FileId, m: MacroMap, depth: nat)
    requires WellFormed(files) && SoundCache(files, cache) && !ObserveFile(files, f, m, depth).tooDeep
    ensures var used := ObserveFile(files, f, m, depth).used;
      used != [] && used[0].0 == OnceMarker(f) && forall p :: (f, p) in cache ==> Consistent(p, used)
  {
    var c := ObserveFile(files, f, m, depth);
    var e := Entry(Changes(c), c.headers);
    assert Recorded(files, f, c.used, e, m, depth);
    forall p | (f, p) in cache
      ensures Consistent(p, c.used)
    {
      SoundEntriesConsistent(files, f, p, cache[(f, p)], c.used, e);
    }
    ObserveFileIsExec(files, f, m, depth);
  }

  /** A state matches at most one path of a file, so whichever hit a lookup returns is
      the one the scan uses. */
  lemma HitIsUnique(files: Files, cache: CacheMap, f: FileId, m: MacroMap, p: seq<Macro>)
    requires WellFormed(files) && SoundCache(files, cache) && HitPath(cache, f, m, p)
    ensures IsHit(cache, f, m) && FindPath(cache, f, m) == p
  {
    var q := FindPath(cache, f, m);
    SoundEntriesConsistent(files, f, p, cache[(f, p)], q, cache[(f, q)]);
    MatchingPrefixes(p, q, m, |p|);
  }

  lemma {:induction false} MatchingPrefixes(p: seq<Macro>, q: seq<Macro>, m: MacroMap, k: nat)
    requires Consistent(p, q) && Matches(p, m) && Matches(q, m) && k <= |p|
    ensures k <= |q| && p[..k] == q[..k] && (k == |p| ==> k == |q|)
  {
    if k > 0 {
      MatchingPrefixes(p, q, m, k - 1);
      assert p[..k] == p[..k - 1] + [p[k - 1]];
      assert q[..k] == q[..k - 1] + [q[k - 1]];
    }
    assert p[..0] == q[..0];
  }

  // --- What the conditions on the files are for ------------------------------------

  const A := Named("A")
  const B := Named("B")

  function IfDefined(name: ProgramMacro, body: Items): Item {
    If(Ask(name, v => v != Undefined, Decide(_ => true), Decide(_ => false)), body, Endif)
  }

  /** A header with an #include that is not found under a condition on A, then a
      define under a condition on B. */
  function MissingUnderCondition(): Items {
    Then(IfDefined(A, Then(Include(Missing), End)), Then(IfDefined(B, Then(Define(Named("X"), ""), End)), End))
  }

  /** An include that is not found commits nothing when taken but forces a commit when
      skipped, so two runs of one file can ask for different macros after the same
      answers: their paths do not fit one tree. */
  lemma MissingIncludeBreaksKeys()
    ensures var files := (f: FileId) => MissingUnderCondition();
      var u := ObserveFile(files, 0, map[A := Text("")], 1).used;
      var v := ObserveFile(files, 0, map[], 1).used;
      AllOnceAtTop(files) && !MissingOutside(files(0)) && !Consistent(u, v)
  {
    var files := (f: FileId) => MissingUnderCondition();
    MissingIsInside();
    var m: MacroMap := map[A := Text("")];
    MissingTaken(files, m, Enter(0, m));
    MissingSkipped(files, Enter(0, map[]));
    DifferentQuestions((OnceMarker(0), Undefined), (B, Undefined), (A, Undefined), (B, Undefined));
  }

  lemma MissingIsInside()
    ensures OnceAtTop(MissingUnderCondition()) && !MissingOutside(MissingUnderCondition())
  {
    assert !ItemResolved(Include(Missing));
    assert !Resolved(Then(Include(Missing), End));
  }

  lemma DifferentQuestions(p: Macro, x: Macro, y: Macro, z: Macro)
    requires x.0 != y.0
    ensures !Consistent([p, x], [p, y, z])
  {
    assert [p, x][..1] == [p, y, z][..1];
    assert [p, x][1] == x && [p, y, z][1] == y;
  }

  lemma AskOnce(name: ProgramMacro, m: MacroMap)
    ensures var v := Evaluate(Ask(name, v => v != Undefined, Decide(_ => true), Decide(_ => false)), m, []);
      v == Verdict(Lookup(m, name) != Undefined, [name])
  {
  }

  lemma AddOne(used: seq<Macro>, p: Macro)
    requires !Mentions(used, p.0)
    ensures AddAll(used, {}, [p]) == used + [p]
  {
    assert [p][1..] == [];
  }

  lemma MissingTaken(files: Files, m: MacroMap, r: Run)
    requires files(0) == MissingUnderCondition() && m == map[A := Text("")] && r == Enter(0, m)
    ensures ObserveFile(files, 0, m, 1).used == [(OnceMarker(0), Undefined), (B, Undefined)]
  {
    var first, second := IfDefined(A, Then(Include(Missing), End)), IfDefined(B, Then(Define(Named("X"), ""), End));
    AskOnce(A, m);
    AskOnce(B, m);
    assert !ItemCommits(first, m);
    assert ObserveItem(files, 0, first, r, 1) == r;
    assert HasEffectText(second.body) && ItemCommits(second, m);
    assert Select(second.test, second.body, second.rest, m) == Selection(End, [B]);
    assert Valued(m, [B]) == [(B, Undefined)];
    AddOne(r.used, (B, Undefined));
    assert ObserveItem(files, 0, second, r, 1) == Record(r, [B]);
    assert files(0) == Then(first, Then(second, End));
  }

  lemma MissingSkipped(files: Files, s: Run)
    requires files(0) == MissingUnderCondition() && s == Enter(0, map[])
    ensures ObserveFile(files, 0, map[], 1).used == [(OnceMarker(0), Undefined), (A, Undefined), (B, Undefined)]
  {
    var first, second := IfDefined(A, Then(Include(Missing), End)), IfDefined(B, Then(Define(Named("X"), ""), End));
    AskOnce(A, map[]);
    AskOnce(B, map[]);
    assert HasEffectText(first.body) && ItemCommits(first, map[]);
    assert Select(first.test, first.body, first.rest, map[]) == Selection(End, [A]);
    assert Valued(map[], [A]) == [(A, Undefined)];
    AddOne(s.used, (A, Undefined));
    var s1 := Record(s, [A]);
    assert ObserveItem(files, 0, first, s, 1) == s1;
    assert HasEffectText(second.body) && ItemCommits(second, map[]);
    assert Select(second.test, second.body, second.rest, map[]) == Selection(End, [B]);
    assert Valued(map[], [B]) == [(B, Undefined)];
    AddOne(s1.used, (B, Undefined));
    assert ObserveItem(files, 0, second, s1, 1) == Record(s1, [B]);
    assert files(0) == Then(first, Then(second, End));
  }

  /** A #pragma once under #ifdef A changes the file's marker without committing the
      read of A: a state without A matches the recorded path but keeps the marker clear. */
  lemma OnceUnderConditionBreaksReads()
    ensures var files := (f: FileId) => Then(IfDefined(A, Then(PragmaOnce, End)), End);
      var w := World(files, n => {});
      var m: MacroMap := map[A := Text("")];
      var run := TrackFile(w, 0, m, map[], 0, 1).memo.run;
      Matches(run.used, map[]) && Changes(run) != ExecFile(files, 0, map[], 1).changes
  {
    var files := (f: FileId) => Then(IfDefined(A, Then(PragmaOnce, End)), End);
    var w := World(files, n => {});
    var m: MacroMap := map[A := Text("")];
    var item := IfDefined(A, Then(PragmaOnce, End));
    var t := Tracker(Memo(Enter(0, m), map[], 0), NO_CONDITIONS);
    AskOnce(A, m);
    AskOnce(A, map[]);
    IfStep(t, [A], true);
    var t1 := Pushed(t, [A], true, true);
    var t2 := WithRun(t1, Write(t.memo.run, OnceMarker(0), ONCE_VALUE));
    assert TrackItems(w, 0, Then(PragmaOnce, End), t1, 1) == t2;
    RecordNothing(t2.memo.run);
    var t3 := TrackIf(w, 0, item.test, item.body, item.rest, t, 1);
    assert t3.memo.run == t2.memo.run;
    assert TrackFile(w, 0, m, map[], 0, 1) == t3;
    assert OnceMarker(0) in Changes(t2.memo.run);
    assert ExecItem(files, 0, item, map[], 1) == NOTHING;
    var none: MacroMap := map[];
    assert none + none == none;
    assert ExecFile(files, 0, map[], 1).changes == map[];
  }
}
