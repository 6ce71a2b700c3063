/** Delaying the record of a read until an effect makes it matter. */
module Deferral {
  import opened Macros
  import opened Directives
  import opened Recording
  import opened Replay

  /** An open conditional whose reads have not been committed. */
  datatype Condition = Condition(macros: seq<ProgramMacro>, lastBranchTaken: bool, anyBranchTaken: bool)

  datatype Conditions = Conditions(macros: seq<ProgramMacro>, open: seq<Condition>)

  const NO_CONDITIONS := Conditions([], [])

  function Flatten(open: seq<Condition>): seq<ProgramMacro> {
    if open == [] then [] else open[0].macros + Flatten(open[1..])
  }

  /** The reads a commit would report, in order. */
  function Pending(c: Conditions): seq<ProgramMacro> {
    Flatten(c.open) + c.macros
  }

  function Top(c: Conditions): Condition
    requires c.open != []
  {
    c.open[|c.open| - 1]
  }

  function WithTop(c: Conditions, top: Condition): Conditions
    requires c.open != []
  {
    Conditions([], c.open[..|c.open| - 1] + [top])
  }

  /** What a directive does to the stack: it leaves a new stack, and may report every
      pending read first. */
  datatype Response = Response(committed: seq<ProgramMacro>, next: Conditions)

  function AddMacros(c: Conditions, names: seq<ProgramMacro>): Conditions {
    c.(macros := c.macros + names)
  }

  function CommitAll(c: Conditions): Response {
    Response(Pending(c), NO_CONDITIONS)
  }

  function IfDirective(c: Conditions, taken: bool): Conditions {
    Conditions([], c.open + [Condition(c.macros, taken, taken)])
  }

  function ElifDirective(c: Conditions, skippable: bool, taken: bool): Response {
    if c.open == [] then
      CommitAll(c)
    else
      var top := Top(c);
      var top' := Condition(top.macros + c.macros, top.lastBranchTaken, top.anyBranchTaken || taken);
      if top.lastBranchTaken || skippable then
        Response([], WithTop(c, top'.(lastBranchTaken := taken)))
      else
        CommitAll(WithTop(c, top'))
  }

  /** The pending macros go to the innermost conditional, which is then no longer trusted
      to have taken its last branch. */
  function Absorbed(c: Conditions): Conditions {
    if c.open == [] || c.macros == [] then
      c
    else
      WithTop(c, Condition(Top(c).macros + c.macros, false, Top(c).anyBranchTaken))
  }

  function ElseDirective(c: Conditions, skippable: bool): Response {
    if c.open == [] then
      CommitAll(c)
    else
      var c' := Absorbed(c);
      if Top(c').lastBranchTaken || skippable then
        Response([], WithTop(c', Top(c').(lastBranchTaken := !Top(c').anyBranchTaken)))
      else
        CommitAll(c')
  }

  function EndifDirective(c: Conditions, skippable: bool): Response {
    if c.open == [] then
      Response([], c)
    else
      var c' := Absorbed(c);
      if Top(c').lastBranchTaken || skippable then
        Response([], c'.(open := c'.open[..|c'.open| - 1]))
      else
        CommitAll(c')
  }

  /** Macros asked for without a directive of their own belong to an #elif that was not
      reported: all that is pending is committed unless the text between holds no effect. */
  lemma UnreportedElifCommits(c: Conditions)
    requires c.open != [] && c.macros != []
    ensures ElseDirective(c, false) == Response(Pending(c), NO_CONDITIONS)
    ensures EndifDirective(c, false) == Response(Pending(c), NO_CONDITIONS)
    ensures ElseDirective(c, true).committed == [] && Pending(ElseDirective(c, true).next) == Pending(c)
    ensures EndifDirective(c, true) == Response([], Conditions([], c.open[..|c.open| - 1]))
  {
    var front, top := c.open[..|c.open| - 1], Top(c);
    var top' := Condition(top.macros + c.macros, false, top.anyBranchTaken);
    assert c.open == front + [top];
    FlattenAppend(front, [top]);
    FlattenAppend(front, [top']);
    FlattenAppend(front, [top'.(lastBranchTaken := !top'.anyBranchTaken)]);
    assert Flatten([top]) == top.macros + Flatten([]) && Flatten([top']) == top'.macros + Flatten([]);
    assert Flatten([top'.(lastBranchTaken := !top'.anyBranchTaken)]) == top'.macros + Flatten([]);
    assert Flatten(front) + (top.macros + c.macros) == (Flatten(front) + top.macros) + c.macros;
  }

  // --- The tracker -----------------------------------------------------------------

  /** The scanner's state: the current header context with the cache, and the condition
      stack. */
  datatype Tracker = Tracker(memo: Memo, conditions: Conditions)

  function Respond(t: Tracker, r: Response): Tracker {
    Tracker(t.memo.(run := Record(t.memo.run, r.committed)), r.next)
  }

  function Commit(t: Tracker): Tracker {
    Respond(t, CommitAll(t.conditions))
  }

  function WithRun(t: Tracker, r: Run): Tracker {
    t.(memo := t.memo.(run := r))
  }

  /** A #pragma once does not commit what is pending. */
  function Mark(t: Tracker, self: FileId, once: bool): Tracker {
    WithRun(t, MarkIf(t.memo.run, self, once))
  }

  ghost function TrackItems(w: World, self: FileId, items: Items, t: Tracker, depth: nat): Tracker
    decreases depth, Size(items), 1
  {
    match items
    case End => t
    case Then(head, tail) => TrackItems(w, self, tail, TrackItem(w, self, head, t, depth), depth)
  }

  ghost function TrackItem(w: World, self: FileId, item: Item, t: Tracker, depth: nat): Tracker
    decreases depth, ItemSize(item), 5
  {
    match item
    case Define(name, text) =>
      var t' := Commit(t);
      WithRun(t', Write(t'.memo.run, name, Text(text)))
    case Undef(name) =>
      var t' := Commit(t);
      WithRun(t', Write(t'.memo.run, name, Undefined))
    case PragmaOnce => Mark(t, self, true)
    case Include(Missing) => t
    case Include(Found(f)) => TrackInclude(w, f, Commit(t), depth)
    case If(test, body, rest) => TrackIf(w, self, test, body, rest, t, depth)
  }

  ghost function TrackInclude(w: World, f: FileId, t: Tracker, depth: nat): Tracker
    decreases depth, 0, 0
  {
    var r := t.memo.run;
    if Lookup(r.state, OnceMarker(f)) != Undefined then
      WithRun(t, SkipOnce(r, f))
    else
      var s := Tick(w, t.memo);
      if IsHit(s.cache, f, r.state) then
        var path := FindPath(s.cache, f, r.state);
        t.(memo := s.(run := AbsorbEntry(r, path, s.cache[(f, path)], f)))
      else if depth == 0 then
        t.(memo := s.(run := SkipOnce(r, f).(tooDeep := true)))
      else
        var child := TrackItems(w, f, w.files(f), Tracker(s.(run := Enter(f, r.state)), t.conditions), depth - 1);
        Tracker(Leave(w, r, f, child.memo), child.conditions)
  }

  ghost function TrackIf(
      w: World, self: FileId, test: Test, body: Items, rest: Rest, t: Tracker, depth: nat): Tracker
    decreases depth, Size(body) + RestSize(rest) + 1, 4
  {
    var v := Evaluate(test, t.memo.run.state, []);
    var t1 := t.(conditions := IfDirective(AddMacros(t.conditions, v.asked), v.taken));
    var t2 := if v.taken then TrackItems(w, self, body, t1, depth) else t1;
    TrackRest(w, self, rest, body, v.taken, t2, depth)
  }

  /** `text` is the branch that has just ended. */
  ghost function TrackRest(
      w: World, self: FileId, rest: Rest, text: Items, anyTaken: bool, t: Tracker, depth: nat): Tracker
    decreases depth, RestSize(rest), 3
  {
    var skippable := !HasEffectText(text);
    match rest
    case Endif => Respond(t, EndifDirective(t.conditions, skippable))
    case Elif(test, body, more) =>
      var v := if anyTaken then Verdict(false, []) else Evaluate(test, t.memo.run.state, []);
      var t1 := Respond(t, ElifDirective(AddMacros(t.conditions, v.asked), skippable, v.taken));
      var t2 := if v.taken then TrackItems(w, self, body, t1, depth) else t1;
      TrackRest(w, self, more, body, anyTaken || v.taken, t2, depth)
    case Else(body) =>
      var t1 := Respond(t, ElseDirective(t.conditions, skippable));
      var t2 := if anyTaken then t1 else TrackItems(w, self, body, t1, depth);
      Respond(t2, EndifDirective(t2.conditions, !HasEffectText(body)))
  }

  /** Scanning a file with everything committed on entry. */
  ghost function TrackFile(w: World, f: FileId, m: MacroMap, cache: CacheMap, clock: nat, depth: nat): Tracker {
    TrackItems(w, f, w.files(f), Tracker(Memo(Enter(f, m), cache, clock), NO_CONDITIONS), depth)
  }

  // --- Deferral refines the observer -----------------------------------------------

  function Settled(s: Memo): Tracker {
    Tracker(s, NO_CONDITIONS)
  }

  lemma {:induction false} FlattenAppend(a: seq<Condition>, b: seq<Condition>)
    ensures Flatten(a + b) == Flatten(a) + Flatten(b)
    decreases |a|
  {
    if a == [] {
      assert a + b == b;
    } else {
      assert (a + b)[1..] == a[1..] + b;
      FlattenAppend(a[1..], b);
    }
  }

  lemma RecordNothing(r: Run)
    ensures Record(r, []) == r
  {
    assert Valued(r.state, []) == [];
  }

  // --- Marks and pending reads do not disturb each other ---------------------------

  lemma {:induction false} AddAllMarked(used: seq<Macro>, changed: set<MacroName>, self: FileId, ps: seq<Macro>)
    requires forall i :: 0 <= i < |ps| ==> ps[i].0.Named?
    ensures AddAll(used, changed + {OnceMarker(self)}, ps) == AddAll(used, changed, ps)
    decreases |ps|
  {
    if ps != [] {
      AddAllMarked(Add(used, changed, ps[0]), changed, self, ps[1..]);
    }
  }

  lemma MarkThenRecord(r: Run, self: FileId, once: bool, names: seq<ProgramMacro>)
    ensures Record(MarkIf(r, self, once), names) == MarkIf(Record(r, names), self, once)
  {
    if once {
      forall i | 0 <= i < |names|
        ensures names[i].Named?
      {
        var n: ProgramMacro := names[i];
      }
      var r' := MarkIf(r, self, once);
      assert Valued(r'.state, names) == Valued(r.state, names);
      AddAllMarked(r.used, r.changed, self, Valued(r.state, names));
    }
  }

  lemma MarkCommits(t: Tracker, self: FileId, once: bool)
    ensures Commit(Mark(t, self, once)) == Mark(Commit(t), self, once)
  {
    MarkThenRecord(t.memo.run, self, once, Pending(t.conditions));
  }

  lemma MarkTwice(r: Run, self: FileId, once: bool, again: bool)
    ensures MarkIf(MarkIf(r, self, once), self, again) == MarkIf(r, self, once || again)
  {
    if once && again {
      var r' := MarkIf(r, self, true);
      assert MarkIf(r', self, true).changed == r'.changed;
    }
  }

  lemma MarkedText(r: Run, self: FileId, once: bool, items: Items)
    ensures var m := MarkIf(r, self, once).state;
      SameProgram(m, r.state) && Commits(items, m) == Commits(items, r.state) && RunsOnce(items, m) == RunsOnce(items, r.state)
  {
    ItemsSameProgram(items, MarkIf(r, self, once).state, r.state);
  }

  lemma RestSameProgram(rest: Rest, anyTaken: bool, a: MacroMap, b: MacroMap)
    requires SameProgram(a, b)
    ensures RestCommits(rest, anyTaken, a) == RestCommits(rest, anyTaken, b)
  {
    match rest
    case Endif =>
    case Elif(test, body, more) => BranchesSameProgram(test, body, more, anyTaken, a, b);
    case Else(body) => ItemsSameProgram(body, a, b);
  }

  lemma {:induction false} QuietReplay(w: World, self: FileId, items: Items, s: Memo, depth: nat)
    requires !Commits(items, s.run.state)
    ensures ReplayItems(w, self, items, s, depth) == s.(run := MarkIf(s.run, self, RunsOnce(items, s.run.state)))
    decreases Size(items)
  {
    if items.Then? {
      var once := ItemRunsOnce(items.head, s.run.state);
      var s1 := s.(run := MarkIf(s.run, self, once));
      assert ReplayItem(w, self, items.head, s, depth) == s1;
      MarkedText(s.run, self, once, items.tail);
      QuietReplay(w, self, items.tail, s1, depth);
      MarkTwice(s.run, self, once, RunsOnce(items.tail, s.run.state));
    }
  }

  /** Under open conditions: either nothing was recorded, and nothing happened but a #pragma
      once, or the effect is as if everything had been committed in advance. */
  ghost predicate Deferred(w: World, self: FileId, items: Items, t: Tracker, depth: nat, t': Tracker) {
    if Commits(items, t.memo.run.state) then
      t' == Settled(ReplayItems(w, self, items, Commit(t).memo, depth))
    else
      t' == Mark(t, self, RunsOnce(items, t.memo.run.state))
  }

  lemma {:induction false} TrackItemsDefers(w: World, self: FileId, items: Items, t: Tracker, depth: nat)
    requires t.conditions.macros == []
    ensures Deferred(w, self, items, t, depth, TrackItems(w, self, items, t, depth))
    decreases depth, Size(items), 1
  {
    if items.Then? {
      TrackItemDefers(w, self, items.head, t, depth);
      var t1 := TrackItem(w, self, items.head, t, depth);
      TrackItemsDefers(w, self, items.tail, t1, depth);
      RecordKeepsState(t);
      if ItemCommits(items.head, t.memo.run.state) {
        CommitSettled(t1);
        if !Commits(items.tail, t1.memo.run.state) {
          QuietReplay(w, self, items.tail, t1.memo, depth);
        }
      } else {
        QuietHead(w, self, items.head, items.tail, t, depth);
      }
    }
  }

  /** A first item that does not commit leaves a mark at most. */
  lemma QuietHead(w: World, self: FileId, head: Item, tail: Items, t: Tracker, depth: nat)
    requires !ItemCommits(head, t.memo.run.state)
    ensures var t1 := Mark(t, self, ItemRunsOnce(head, t.memo.run.state));
      forall t' :: Deferred(w, self, tail, t1, depth, t') ==> Deferred(w, self, Then(head, tail), t, depth, t')
  {
    var once := ItemRunsOnce(head, t.memo.run.state);
    RecordKeepsState(t);
    MarkedText(t.memo.run, self, once, tail);
    MarkCommits(t, self, once);
    MarkTwice(t.memo.run, self, once, RunsOnce(tail, t.memo.run.state));
    assert ReplayItem(w, self, head, Commit(t).memo, depth) == Mark(Commit(t), self, once).memo;
  }

  lemma CommitSettled(t: Tracker)
    requires t.conditions == NO_CONDITIONS
    ensures Commit(t) == t
  {
    RecordNothing(t.memo.run);
  }

  lemma RecordKeepsState(t: Tracker)
    ensures Commit(t).memo.run.state == t.memo.run.state
  {
  }

  lemma {:induction false} TrackItemDefers(w: World, self: FileId, item: Item, t: Tracker, depth: nat)
    requires t.conditions.macros == []
    ensures var t' := TrackItem(w, self, item, t, depth);
      if ItemCommits(item, t.memo.run.state) then
        t' == Settled(ReplayItem(w, self, item, Commit(t).memo, depth))
      else t' == Mark(t, self, ItemRunsOnce(item, t.memo.run.state))
    decreases depth, ItemSize(item), 5
  {
    match item
    case Include(Found(f)) =>
      TrackIncludeDefers(w, self, f, Commit(t).memo, depth);
    case If(test, body, rest) =>
      TrackIfDefers(w, self, test, body, rest, t, depth);
    case _ =>
  }

  lemma {:induction false} TrackIncludeDefers(w: World, self: FileId, f: FileId, s: Memo, depth: nat)
    ensures TrackInclude(w, f, Settled(s), depth) == Settled(ReplayItem(w, self, Include(Found(f)), s, depth))
    decreases depth, 0, 0
  {
    var s1 := Tick(w, s);
    if Lookup(s.run.state, OnceMarker(f)) == Undefined && !IsHit(s1.cache, f, s.run.state) && depth > 0 {
      TrackTopDefers(w, f, w.files(f), s1.(run := Enter(f, s.run.state)), depth - 1);
    }
  }

  /** With no condition open, scanning is exactly what the observer reports. */
  lemma {:induction false} TrackTopDefers(w: World, self: FileId, items: Items, s: Memo, depth: nat)
    ensures TrackItems(w, self, items, Settled(s), depth) == Settled(ReplayItems(w, self, items, s, depth))
    decreases depth, Size(items), 6
  {
    if items.Then? {
      CommitSettled(Settled(s));
      TrackItemDefers(w, self, items.head, Settled(s), depth);
      TrackTopDefers(w, self, items.tail, ReplayItem(w, self, items.head, s, depth), depth);
    }
  }

  // --- One conditional -------------------------------------------------------------

  /** The tracker once everything pending in `base` and the reads `asked` are recorded. */
  function CommitWith(base: Tracker, asked: seq<ProgramMacro>): Memo {
    base.memo.(run := Record(base.memo.run, Pending(base.conditions) + asked))
  }

  /** `base` with one more open conditional that has asked for `asked`. */
  function Pushed(base: Tracker, asked: seq<ProgramMacro>, last: bool, any: bool): Tracker {
    Tracker(base.memo, Conditions([], base.conditions.open + [Condition(asked, last, any)]))
  }

  lemma PushedCommits(base: Tracker, asked: seq<ProgramMacro>, last: bool, any: bool)
    requires base.conditions.macros == []
    ensures Commit(Pushed(base, asked, last, any)) == Settled(CommitWith(base, asked))
  {
    var top := Condition(asked, last, any);
    FlattenAppend(base.conditions.open, [top]);
    assert Flatten([top]) == asked + Flatten([]);
    assert Pending(Pushed(base, asked, last, any).conditions) == Pending(base.conditions) + asked;
  }

  lemma IfStep(base: Tracker, asked: seq<ProgramMacro>, taken: bool)
    requires base.conditions.macros == []
    ensures base.(conditions := IfDirective(AddMacros(base.conditions, asked), taken)) == Pushed(base, asked, taken, taken)
  {
    assert [] + asked == asked;
  }

  lemma PushedTop(base: Tracker, asked: seq<ProgramMacro>, last: bool, any: bool)
    ensures var c := Pushed(base, asked, last, any).conditions;
      c.open != [] && Top(c) == Condition(asked, last, any) && c.open[..|c.open| - 1] == base.conditions.open
  {
  }

  lemma ElifStep(
      base: Tracker, asked: seq<ProgramMacro>, last: bool, any: bool, skippable: bool, more: seq<ProgramMacro>, taken: bool)
    requires base.conditions.macros == []
    ensures var t := Pushed(base, asked, last, any);
      Respond(t, ElifDirective(AddMacros(t.conditions, more), skippable, taken))
      == if last || skippable then Pushed(base, asked + more, taken, any || taken)
         else Settled(CommitWith(base, asked + more))
  {
    assert [] + more == more;
    PushedTop(base, asked, last, any);
    RecordNothing(base.memo.run);
    PushedCommits(base, asked + more, last, any || taken);
  }

  lemma ElseStep(base: Tracker, asked: seq<ProgramMacro>, last: bool, any: bool, skippable: bool)
    requires base.conditions.macros == []
    ensures var t := Pushed(base, asked, last, any);
      Respond(t, ElseDirective(t.conditions, skippable))
      == if last || skippable then Pushed(base, asked, !any, any) else Settled(CommitWith(base, asked))
  {
    PushedTop(base, asked, last, any);
    RecordNothing(base.memo.run);
    PushedCommits(base, asked, last, any);
  }

  lemma EndifStep(base: Tracker, asked: seq<ProgramMacro>, last: bool, any: bool, skippable: bool)
    requires base.conditions.macros == []
    ensures var t := Pushed(base, asked, last, any);
      Respond(t, EndifDirective(t.conditions, skippable))
      == if last || skippable then base else Settled(CommitWith(base, asked))
  {
    PushedTop(base, asked, last, any);
    RecordNothing(base.memo.run);
    PushedCommits(base, asked, last, any);
  }

  lemma SettledSteps(s: Memo, skippable: bool)
    ensures Respond(Settled(s), ElseDirective(NO_CONDITIONS, skippable)) == Settled(s)
    ensures Respond(Settled(s), EndifDirective(NO_CONDITIONS, skippable)) == Settled(s)
    ensures forall taken :: Respond(Settled(s), ElifDirective(AddMacros(NO_CONDITIONS, []), skippable, taken)) == Settled(s)
  {
    RecordNothing(s.run);
    assert Pending(NO_CONDITIONS) == [] && AddMacros(NO_CONDITIONS, []) == NO_CONDITIONS;
  }

  lemma SettledElif(base: Tracker, asked: seq<ProgramMacro>, more: seq<ProgramMacro>, skippable: bool, taken: bool)
    ensures Respond(Settled(CommitWith(base, asked)), ElifDirective(AddMacros(NO_CONDITIONS, more), skippable, taken))
      == Settled(CommitWith(base, asked + more))
  {
    RecordConcat(base.memo.run, Pending(base.conditions) + asked, more);
    assert Pending(base.conditions) + asked + more == Pending(base.conditions) + (asked + more);
    PendingOnly(more);
  }

  lemma PendingOnly(more: seq<ProgramMacro>)
    ensures Pending(AddMacros(NO_CONDITIONS, more)) == more
  {
    assert Flatten([]) == [];
  }

  lemma {:induction false} TrackIfDefers(
      w: World, self: FileId, test: Test, body: Items, rest: Rest, t: Tracker, depth: nat)
    requires t.conditions.macros == []
    ensures var item := If(test, body, rest); var t' := TrackIf(w, self, test, body, rest, t, depth);
      if ItemCommits(item, t.memo.run.state) then
        t' == Settled(ReplayItem(w, self, item, Commit(t).memo, depth))
      else t' == Mark(t, self, ItemRunsOnce(item, t.memo.run.state))
    decreases depth, Size(body) + RestSize(rest) + 1, 4
  {
    var m := t.memo.run.state;
    var v := Evaluate(test, m, []);
    IfStep(t, v.asked, v.taken);
    FirstBranch(test, body, rest, m);
    if ItemCommits(If(test, body, rest), m) {
      ReplayIf(w, self, test, body, rest, t, depth);
    }
    if v.taken {
      PushedCommits(t, v.asked, true, true);
      TrackItemsDefers(w, self, body, Pushed(t, v.asked, true, true), depth);
      RestAfterTaken(w, self, body, rest, body, t, v.asked, depth);
    } else {
      RestBeforeTaken(w, self, rest, body, t, v.asked, depth);
    }
  }

  lemma FirstBranch(test: Test, body: Items, rest: Rest, m: MacroMap)
    ensures var v := Evaluate(test, m, []); var b := SelectRest(rest, m); var item := If(test, body, rest);
      if v.taken then
        ItemCommits(item, m) == (Commits(body, m) || RestCommits(rest, true, m))
        && Select(test, body, rest, m) == Selection(body, v.asked)
      else
        ItemCommits(item, m) == (HasEffectText(body) || RestCommits(rest, false, m))
        && Select(test, body, rest, m) == Selection(b.body, v.asked + b.asked)
  {
  }

  lemma ReplayIf(w: World, self: FileId, test: Test, body: Items, rest: Rest, t: Tracker, depth: nat)
    requires ItemCommits(If(test, body, rest), t.memo.run.state)
    ensures var b := Select(test, body, rest, t.memo.run.state);
      ReplayItem(w, self, If(test, body, rest), Commit(t).memo, depth)
      == ReplayItems(w, self, b.body, CommitWith(t, b.asked), depth)
  {
    RecordConcat(t.memo.run, Pending(t.conditions), Select(test, body, rest, t.memo.run.state).asked);
  }

  /** A branch has been taken and its effects, if any, performed. */
  lemma RestAfterTaken(
      w: World, self: FileId, taken: Items, rest: Rest, text: Items, base: Tracker, asked: seq<ProgramMacro>, depth: nat)
    requires base.conditions.macros == []
    ensures var m := base.memo.run.state; var s := ReplayItems(w, self, taken, CommitWith(base, asked), depth);
      if Commits(taken, m) then
        TrackRest(w, self, rest, text, true, Settled(s), depth) == Settled(s)
      else
        var base' := Mark(base, self, RunsOnce(taken, m));
        TrackRest(w, self, rest, text, true, Pushed(base', asked, true, true), depth)
          == if RestCommits(rest, true, m) then Settled(s) else base'
  {
    var m := base.memo.run.state;
    var s := ReplayItems(w, self, taken, CommitWith(base, asked), depth);
    RestSettled(w, self, rest, text, s, depth);
    if !Commits(taken, m) {
      var base' := Mark(base, self, RunsOnce(taken, m));
      QuietReplay(w, self, taken, CommitWith(base, asked), depth);
      MarkThenRecord(base.memo.run, self, RunsOnce(taken, m), Pending(base.conditions) + asked);
      assert s == CommitWith(base', asked);
      RestSameProgram(rest, true, base'.memo.run.state, m);
      RestPushed(w, self, rest, text, base', asked, true, depth);
    }
  }

  /** Once everything is committed, the rest of the conditional changes nothing. */
  lemma {:induction false} RestSettled(w: World, self: FileId, rest: Rest, text: Items, s: Memo, depth: nat)
    ensures TrackRest(w, self, rest, text, true, Settled(s), depth) == Settled(s)
    decreases rest
  {
    SettledSteps(s, !HasEffectText(text));
    match rest
    case Endif =>
    case Elif(_, body, more) => RestSettled(w, self, more, body, s, depth);
    case Else(body) => SettledSteps(s, !HasEffectText(body));
  }

  /** The taken branch was quiet: only the skipped text can still force a commit. */
  lemma {:induction false} RestPushed(
      w: World, self: FileId, rest: Rest, text: Items, base: Tracker, asked: seq<ProgramMacro>, last: bool, depth: nat)
    requires base.conditions.macros == []
    ensures TrackRest(w, self, rest, text, true, Pushed(base, asked, last, true), depth)
      == if (!last && HasEffectText(text)) || RestCommits(rest, true, base.memo.run.state)
         then Settled(CommitWith(base, asked)) else base
    decreases rest
  {
    var skippable := !HasEffectText(text);
    var s := CommitWith(base, asked);
    assert asked + [] == asked;
    match rest
    case Endif => EndifStep(base, asked, last, true, skippable);
    case Elif(_, body, more) =>
      ElifStep(base, asked, last, true, skippable, [], false);
      if last || skippable {
        RestPushed(w, self, more, body, base, asked, false, depth);
      } else {
        RestSettled(w, self, more, body, s, depth);
      }
    case Else(body) =>
      ElseStep(base, asked, last, true, skippable);
      EndifStep(base, asked, false, true, !HasEffectText(body));
      SettledSteps(s, !HasEffectText(body));
  }

  /** No branch has been taken yet, and nothing committed. */
  lemma {:induction false} RestBeforeTaken(
      w: World, self: FileId, rest: Rest, text: Items, base: Tracker, asked: seq<ProgramMacro>, depth: nat)
    requires base.conditions.macros == []
    ensures var m := base.memo.run.state; var b := SelectRest(rest, m);
      TrackRest(w, self, rest, text, false, Pushed(base, asked, false, false), depth)
      == if HasEffectText(text) || RestCommits(rest, false, m)
         then Settled(ReplayItems(w, self, b.body, CommitWith(base, asked + b.asked), depth))
         else Mark(base, self, RunsOnce(b.body, m))
    decreases depth, RestSize(rest), 3
  {
    var skippable := !HasEffectText(text);
    match rest
    case Endif =>
      EndifStep(base, asked, false, false, skippable);
      assert asked + [] == asked;
    case Elif(test, body, more) => ElifBeforeTaken(w, self, test, body, more, text, base, asked, depth);
    case Else(body) => ElseBeforeTaken(w, self, body, text, base, asked, depth);
  }

  lemma {:induction false} ElifBeforeTaken(
      w: World, self: FileId, test: Test, body: Items, more: Rest, text: Items, base: Tracker, asked: seq<ProgramMacro>,
      depth: nat)
    requires base.conditions.macros == []
    ensures var m := base.memo.run.state; var rest := Elif(test, body, more); var b := SelectRest(rest, m);
      TrackRest(w, self, rest, text, false, Pushed(base, asked, false, false), depth)
      == if HasEffectText(text) || RestCommits(rest, false, m)
         then Settled(ReplayItems(w, self, b.body, CommitWith(base, asked + b.asked), depth))
         else Mark(base, self, RunsOnce(b.body, m))
    decreases depth, Size(body) + RestSize(more) + 1, 2
  {
    var m := base.memo.run.state;
    var v := Evaluate(test, m, []);
    ElifStep(base, asked, false, false, !HasEffectText(text), v.asked, v.taken);
    ElifAsked(test, body, more, m, asked);
    FirstBranch(test, body, more, m);
    if HasEffectText(text) {
      RestCommitted(w, self, v.taken, body, more, base, asked + v.asked, depth);
    } else if v.taken {
      PushedCommits(base, asked + v.asked, true, true);
      TrackItemsDefers(w, self, body, Pushed(base, asked + v.asked, true, true), depth);
      RestAfterTaken(w, self, body, more, body, base, asked + v.asked, depth);
    } else {
      RestBeforeTaken(w, self, more, body, base, asked + v.asked, depth);
    }
  }

  lemma {:induction false} ElseBeforeTaken(
      w: World, self: FileId, body: Items, text: Items, base: Tracker, asked: seq<ProgramMacro>, depth: nat)
    requires base.conditions.macros == []
    ensures var m := base.memo.run.state;
      TrackRest(w, self, Else(body), text, false, Pushed(base, asked, false, false), depth)
      == if HasEffectText(text) || Commits(body, m)
         then Settled(ReplayItems(w, self, body, CommitWith(base, asked + []), depth))
         else Mark(base, self, RunsOnce(body, m))
    decreases depth, Size(body) + 1, 2
  {
    assert asked + [] == asked;
    if HasEffectText(text) {
      ElseAfterEffect(w, self, body, text, base, asked, depth);
    } else {
      ElseAfterQuiet(w, self, body, text, base, asked, depth);
    }
  }

  lemma {:induction false} ElseAfterEffect(
      w: World, self: FileId, body: Items, text: Items, base: Tracker, asked: seq<ProgramMacro>, depth: nat)
    requires base.conditions.macros == [] && HasEffectText(text)
    ensures TrackRest(w, self, Else(body), text, false, Pushed(base, asked, false, false), depth)
      == Settled(ReplayItems(w, self, body, CommitWith(base, asked), depth))
    decreases depth, Size(body) + 1, 1
  {
    var s := CommitWith(base, asked);
    ElseStep(base, asked, false, false, false);
    TrackItemsDefers(w, self, body, Settled(s), depth);
    SettledBody(w, self, body, s, depth);
    SettledSteps(ReplayItems(w, self, body, s, depth), !HasEffectText(body));
  }

  lemma {:induction false} ElseAfterQuiet(
      w: World, self: FileId, body: Items, text: Items, base: Tracker, asked: seq<ProgramMacro>, depth: nat)
    requires base.conditions.macros == [] && !HasEffectText(text)
    ensures var m := base.memo.run.state;
      TrackRest(w, self, Else(body), text, false, Pushed(base, asked, false, false), depth)
      == if Commits(body, m) then Settled(ReplayItems(w, self, body, CommitWith(base, asked), depth))
         else Mark(base, self, RunsOnce(body, m))
    decreases depth, Size(body) + 1, 1
  {
    ElseStep(base, asked, false, false, true);
    EndifStep(Mark(base, self, RunsOnce(body, base.memo.run.state)), asked, true, false, !HasEffectText(body));
    PushedCommits(base, asked, true, false);
    TrackItemsDefers(w, self, body, Pushed(base, asked, true, false), depth);
    SettledSteps(ReplayItems(w, self, body, CommitWith(base, asked), depth), !HasEffectText(body));
  }

  lemma SettledBody(w: World, self: FileId, body: Items, s: Memo, depth: nat)
    requires Deferred(w, self, body, Settled(s), depth, TrackItems(w, self, body, Settled(s), depth))
    ensures TrackItems(w, self, body, Settled(s), depth) == Settled(ReplayItems(w, self, body, s, depth))
  {
    CommitSettled(Settled(s));
    if !Commits(body, s.run.state) {
      QuietReplay(w, self, body, s, depth);
    }
  }

  /** Everything asked so far is committed; the branch `body` follows, taken or not. */
  lemma {:induction false} RestCommitted(
      w: World, self: FileId, taken: bool, body: Items, rest: Rest, base: Tracker, asked: seq<ProgramMacro>, depth: nat)
    ensures var s := CommitWith(base, asked); var m := base.memo.run.state;
      if taken then
        var s' := Settled(ReplayItems(w, self, body, s, depth));
        TrackRest(w, self, rest, body, true, TrackItems(w, self, body, Settled(s), depth), depth) == s'
      else
        var b := SelectRest(rest, m);
        var s' := Settled(ReplayItems(w, self, b.body, CommitWith(base, asked + b.asked), depth));
        TrackRest(w, self, rest, body, false, Settled(s), depth) == s'
    decreases depth, Size(body) + RestSize(rest), 2
  {
    var s := CommitWith(base, asked);
    if taken {
      TrackItemsDefers(w, self, body, Settled(s), depth);
      SettledBody(w, self, body, s, depth);
      RestSettled(w, self, rest, body, ReplayItems(w, self, body, s, depth), depth);
    } else {
      CommittedRest(w, self, body, rest, base, asked, depth);
    }
  }

  lemma {:induction false} CommittedRest(
      w: World, self: FileId, text: Items, rest: Rest, base: Tracker, asked: seq<ProgramMacro>, depth: nat)
    ensures var b := SelectRest(rest, base.memo.run.state);
      TrackRest(w, self, rest, text, false, Settled(CommitWith(base, asked)), depth)
      == Settled(ReplayItems(w, self, b.body, CommitWith(base, asked + b.asked), depth))
    decreases depth, RestSize(rest), 1
  {
    var s := CommitWith(base, asked);
    match rest
    case Endif =>
      SettledSteps(s, !HasEffectText(text));
      assert asked + [] == asked;
    case Elif(test, body, more) =>
      var v := Evaluate(test, base.memo.run.state, []);
      SettledElif(base, asked, v.asked, !HasEffectText(text), v.taken);
      ElifAsked(test, body, more, base.memo.run.state, asked);
      RestCommitted(w, self, v.taken, body, more, base, asked + v.asked, depth);
    case Else(body) =>
      SettledSteps(s, !HasEffectText(text));
      assert asked + [] == asked;
      TrackItemsDefers(w, self, body, Settled(s), depth);
      SettledBody(w, self, body, s, depth);
      SettledSteps(ReplayItems(w, self, body, s, depth), !HasEffectText(body));
  }

  lemma ElifAsked(test: Test, body: Items, more: Rest, m: MacroMap, asked: seq<ProgramMacro>)
    ensures var v := Evaluate(test, m, []); var b := SelectRest(Elif(test, body, more), m);
      if v.taken then
        b.body == body && asked + b.asked == asked + v.asked
      else
        b.body == SelectRest(more, m).body && asked + b.asked == asked + v.asked + SelectRest(more, m).asked
  {
    var v := Evaluate(test, m, []);
    assert asked + v.asked + SelectRest(more, m).asked == asked + (v.asked + SelectRest(more, m).asked);
  }
}
