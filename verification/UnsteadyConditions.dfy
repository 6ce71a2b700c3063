/** Whether it is certain that a conditional commits is exactly what decides if the paths
    of a file that holds it fit one tree. */
module UnsteadyConditions {
  import opened Macros
  import opened Directives
  import opened Recording
  import opened DeferredReads
  import opened SteadyConditions
  import opened ConsistentKeys
  import opened Deferral
  import opened Transparency

  // --- Files that a text does not mention ------------------------------------------

  function Max(a: nat, b: nat): nat {
    if a <= b then b else a
  }

  /** No file from this one on is included. */
  function Bound(items: Items): nat {
    match items
    case End => 0
    case Then(head, tail) => Max(ItemBound(head), Bound(tail))
  }

  function ItemBound(item: Item): nat {
    match item
    case Include(Found(f)) => f + 1
    case If(_, body, rest) => Max(Bound(body), RestBound(rest))
    case _ => 0
  }

  function RestBound(rest: Rest): nat {
    match rest
    case Endif => 0
    case Elif(_, body, more) => Max(Bound(body), RestBound(more))
    case Else(body) => Bound(body)
  }

  lemma {:induction false} SelectBelow(test: Test, body: Items, rest: Rest, m: MacroMap, self: FileId)
    requires Bound(body) <= self && RestBound(rest) <= self
    ensures Bound(Select(test, body, rest, m).body) <= self
    decreases rest
  {
    if !Evaluate(test, m, []).taken && rest.Elif? {
      SelectBelow(rest.test, rest.body, rest.rest, m, self);
    }
  }

  lemma FreshMarker(names: set<MacroName>, from: FileId) returns (self: FileId)
    ensures from <= self && OnceMarker(self) !in names
  {
    self := from;
    if OnceMarker(from) in names {
      self := FreshMarker(names - {OnceMarker(from)}, from + 1);
    }
  }

  // --- A committed conditional that need not have committed ------------------------

  /** Once a branch has been taken the state does not matter. */
  lemma {:induction false} SkippedAlike(rest: Rest, m: MacroMap, m': MacroMap)
    ensures RestCommits(rest, true, m) == RestCommits(rest, true, m')
  {
    if rest.Elif? {
      SkippedAlike(rest.rest, m, m');
    }
  }

  /** If nothing was asked, it is the selected branch that makes the difference. */
  lemma {:induction false} SelectedDiffers(test: Test, body: Items, rest: Rest, m: MacroMap, m': MacroMap)
    requires Select(test, body, rest, m).asked == []
    requires BranchesCommit(test, body, rest, false, m) && !BranchesCommit(test, body, rest, false, m')
    ensures var s := Select(test, body, rest, m); Commits(s.body, m) && !Commits(s.body, m')
    decreases rest
  {
    assert test.Decide?;
    if Evaluate(test, m, []).taken {
      SkippedAlike(rest, m, m');
    } else if rest.Elif? {
      SelectedDiffers(rest.test, rest.body, rest.rest, m, m');
    }
  }

  /** Nothing but the marker of the file itself has been recorded or changed. */
  ghost predicate Untouched(self: FileId, m0: MacroMap, r: Run) {
    Faithful(m0, r) && r.changed <= {OnceMarker(self)} && |r.used| == 1 && r.used[0].0 == OnceMarker(self)
  }

  lemma RecordLearns(self: FileId, m0: MacroMap, r: Run, names: seq<ProgramMacro>)
    requires Untouched(self, m0, r) && names != []
    ensures |Record(r, names).used| > 1
  {
    var ps := Valued(r.state, names);
    var first: ProgramMacro := names[0];
    assert ps[0].0 == first && !Mentions(r.used, first);
    AddAllMentions(r.used + [ps[0]], r.changed, ps[1..]);
  }

  /** The text commits although from another state it would not: so something has been
      asked, and it is recorded. */
  lemma {:induction false} ItemsLearn(
      files: Files, self: FileId, items: Items, m0: MacroMap, r: Run, m': MacroMap, depth: nat)
    requires Untouched(self, m0, r)
    requires Commits(items, r.state) && !Commits(items, m')
    ensures |ObserveItems(files, self, items, r, depth).used| > 1
    decreases Size(items), 1
  {
    var head, tail := items.head, items.tail;
    ObserveItemIsExec(files, self, head, m0, r, depth);
    if ItemCommits(head, r.state) {
      ItemLearns(files, self, head, m0, r, m', depth);
      ObserveItemsIsExec(files, self, tail, m0, ObserveItem(files, self, head, r, depth), depth);
    } else {
      var once := ItemRunsOnce(head, r.state);
      assert ObserveItem(files, self, head, r, depth) == MarkIf(r, self, once);
      MarkedText(r, self, once, tail);
      ItemsLearn(files, self, tail, m0, MarkIf(r, self, once), m', depth);
    }
  }

  lemma {:induction false} ItemLearns(
      files: Files, self: FileId, item: Item, m0: MacroMap, r: Run, m': MacroMap, depth: nat)
    requires Untouched(self, m0, r)
    requires ItemCommits(item, r.state) && !ItemCommits(item, m')
    ensures |ObserveItem(files, self, item, r, depth).used| > 1
    decreases ItemSize(item), 2
  {
    var s := Select(item.test, item.body, item.rest, r.state);
    if s.asked == [] {
      SelectedDiffers(item.test, item.body, item.rest, r.state, m');
      assert Record(r, s.asked) == r;
      ItemsLearn(files, self, s.body, m0, r, m', depth);
    } else {
      RecordLearns(self, m0, r, s.asked);
      RecordPairsFaithful(m0, r, Valued(r.state, s.asked));
      ObserveItemsIsExec(files, self, s.body, m0, Record(r, s.asked), depth);
    }
  }

  // --- A file that shows the difference --------------------------------------------

  const DEFINE_X := Then(Define(Named("X"), ""), End)

  /** A file that holds the conditional and a define under a condition on `b`; all other
      files are empty. */
  function Context(c: Item, b: ProgramMacro, self: FileId): Files {
    f => if f == self then Then(c, Then(IfDefined(b, DEFINE_X), End)) else End
  }

  ghost predicate KeysConsistent(files: Files, f: FileId) {
    forall m: MacroMap, m': MacroMap, d: nat, d': nat ::
      !ObserveFile(files, f, m, d).tooDeep && !ObserveFile(files, f, m', d').tooDeep ==>
        Consistent(ObserveFile(files, f, m, d).used, ObserveFile(files, f, m', d').used)
  }

  ghost predicate EmptyBut(files: Files, self: FileId) {
    forall f :: f != self ==> files(f) == End
  }

  /** What a text that does not include `self` does is the same in all such files. */
  lemma {:induction false} ItemsAlone(files: Files, files': Files, self: FileId, items: Items, r: Run, depth: nat)
    requires EmptyBut(files, self) && EmptyBut(files', self) && Bound(items) <= self && depth > 0
    ensures ObserveItems(files, self, items, r, depth) == ObserveItems(files', self, items, r, depth)
    ensures ObserveItems(files, self, items, r, depth).tooDeep == r.tooDeep
    decreases Size(items), 1
  {
    if items.Then? {
      ItemAlone(files, files', self, items.head, r, depth);
      ItemsAlone(files, files', self, items.tail, ObserveItem(files, self, items.head, r, depth), depth);
    }
  }

  lemma {:induction false} ItemAlone(files: Files, files': Files, self: FileId, item: Item, r: Run, depth: nat)
    requires EmptyBut(files, self) && EmptyBut(files', self) && ItemBound(item) <= self && depth > 0
    ensures ObserveItem(files, self, item, r, depth) == ObserveItem(files', self, item, r, depth)
    ensures ObserveItem(files, self, item, r, depth).tooDeep == r.tooDeep
    decreases ItemSize(item), 2
  {
    match item
    case Include(Found(f)) => assert files(f) == files'(f) == End;
    case If(test, body, rest) =>
      var s := Select(test, body, rest, r.state);
      SelectBelow(test, body, rest, r.state, self);
      ItemsAlone(files, files', self, s.body, Record(r, s.asked), depth);
    case _ =>
  }

  lemma DefineUnder(files: Files, self: FileId, b: ProgramMacro, r: Run, depth: nat)
    ensures var r' := ObserveItem(files, self, IfDefined(b, DEFINE_X), r, depth);
      r'.tooDeep == r.tooDeep && r'.used == AddAll(r.used, r.changed, [(b, Lookup(r.state, b))])
  {
    var c := IfDefined(b, DEFINE_X);
    AskOnce(b, r.state);
    assert HasEffectText(c.body) && Commits(c.body, r.state) && ItemCommits(c, r.state);
    var s := Select(c.test, c.body, c.rest, r.state);
    assert s.asked == [b] && Valued(r.state, [b]) == [(b, Lookup(r.state, b))];
    if s.body != End {
      assert s.body == DEFINE_X;
      assert ObserveItems(files, self, End, ObserveItem(files, self, DEFINE_X.head, Record(r, [b]), depth), depth)
          == Write(Record(r, [b]), Named("X"), Text(""));
    }
  }

  lemma ContextRun(c: Item, b: ProgramMacro, self: FileId, m: MacroMap, depth: nat)
    ensures var files := Context(c, b, self);
      ObserveFile(files, self, m, depth)
        == ObserveItem(files, self, IfDefined(b, DEFINE_X), ObserveItem(files, self, c, Enter(self, m), depth), depth)
  {
    var files := Context(c, b, self);
    var r := ObserveItem(files, self, c, Enter(self, m), depth);
    assert files(self) == Then(c, Then(IfDefined(b, DEFINE_X), End));
    assert ObserveItems(files, self, Then(IfDefined(b, DEFINE_X), End), r, depth)
        == ObserveItems(files, self, End, ObserveItem(files, self, IfDefined(b, DEFINE_X), r, depth), depth);
  }

  /** The name a run reads first of all, apart from the file's marker. */
  lemma FirstQuestion(c: Item, m: MacroMap, m': MacroMap, self: FileId) returns (first: MacroName)
    requires c.If? && ItemBound(c) <= self
    requires ItemCommits(c, m) && !ItemCommits(c, m')
    ensures forall b: ProgramMacro :: var u := ObserveFile(Context(c, b, self), self, m, 1);
      !u.tooDeep && |u.used| > 1 && u.used[1].0 == first && u.used[0] == (OnceMarker(self), Lookup(m, OnceMarker(self)))
  {
    var r := Enter(self, m);
    var base := Context(c, A, self);
    var r1 := ObserveItem(base, self, c, r, 1);
    EnterFaithful(self, m);
    ItemLearns(base, self, c, m, r, m', 1);
    first := r1.used[1].0;
    forall b: ProgramMacro
      ensures var u := ObserveFile(Context(c, b, self), self, m, 1);
        !u.tooDeep && |u.used| > 1 && u.used[1].0 == first && u.used[0] == (OnceMarker(self), Lookup(m, OnceMarker(self)))
    {
      var files := Context(c, b, self);
      ItemAlone(base, files, self, c, r, 1);
      ContextRun(c, b, self, m, 1);
      DefineUnder(files, self, b, r1, 1);
      ObserveItemIsExec(files, self, c, m, r, 1);
      AddAllMentions(r1.used, r1.changed, [(b, Lookup(r1.state, b))]);
      assert r.used <= r1.used <= ObserveFile(files, self, m, 1).used;
    }
  }

  lemma QuietRun(c: Item, m: MacroMap, self: FileId, b: ProgramMacro)
    requires c.If? && !ItemCommits(c, m)
    ensures var v := ObserveFile(Context(c, b, self), self, m, 1);
      !v.tooDeep && v.used == [(OnceMarker(self), Lookup(m, OnceMarker(self))), (b, Lookup(m, b))]
  {
    var files, r, once := Context(c, b, self), Enter(self, m), ItemRunsOnce(c, m);
    ContextRun(c, b, self, m, 1);
    assert ObserveItem(files, self, c, r, 1) == MarkIf(r, self, once);
    DefineUnder(files, self, b, MarkIf(r, self, once), 1);
    MarkThenRecord(r, self, once, [b]);
    assert Valued(m, [b]) == [(b, Lookup(m, b))] && Valued(MarkIf(r, self, once).state, [b]) == [(b, Lookup(m, b))];
    AddOne(r.used, (b, Lookup(m, b)));
  }

  /** Two states between which the conditional changes its mind lead to paths that do
      not fit one tree. */
  lemma UnsteadyBreaksKeys(c: Item, m: MacroMap, m': MacroMap) returns (self: FileId, b: ProgramMacro)
    requires c.If? && ItemCommits(c, m) && !ItemCommits(c, m')
    ensures ItemBound(c) <= self && !KeysConsistent(Context(c, b, self), self)
  {
    self := FreshMarker(m.Keys + m'.Keys, ItemBound(c));
    var first := FirstQuestion(c, m, m', self);
    b := if first == A then B else A;
    QuietRun(c, m', self, b);
    var u, v := ObserveFile(Context(c, b, self), self, m, 1).used, ObserveFile(Context(c, b, self), self, m', 1).used;
    assert u[..1] == [u[0]] == v[..1];
    assert !Consistent(u, v);
  }

  /** The conditional is safe in a file if the paths of that file fit one tree whatever
      macro the rest of it depends on. */
  ghost predicate Safe(c: Item) {
    forall self: FileId, b: ProgramMacro {:trigger Context(c, b, self)} ::
      ItemBound(c) <= self ==> KeysConsistent(Context(c, b, self), self)
  }

  /** A conditional is safe exactly if the state cannot change whether it commits. */
  lemma SafeExactlyIfSteady(c: Item)
    requires c.If? && DecidedItem(c) && SteadyItems(c.body) && SteadyRest(c.rest)
    ensures Safe(c) <==> Steady(c)
  {
    if Steady(c) {
      forall self: FileId, b: ProgramMacro
        ensures KeysConsistent(Context(c, b, self), self)
      {
        SteadyIsSafe(c, b, self);
      }
    }
    forall m: MacroMap, m': MacroMap | Safe(c)
      ensures ItemCommits(c, m) == ItemCommits(c, m')
    {
      if ItemCommits(c, m) && !ItemCommits(c, m') {
        var self, b := UnsteadyBreaksKeys(c, m, m');
        assert false;
      } else if !ItemCommits(c, m) && ItemCommits(c, m') {
        var self, b := UnsteadyBreaksKeys(c, m', m);
        assert false;
      }
    }
  }

  lemma SteadyIsSafe(c: Item, b: ProgramMacro, self: FileId)
    requires DecidedItem(c) && SteadyItem(c)
    ensures KeysConsistent(Context(c, b, self), self)
  {
    var files := Context(c, b, self);
    assert DecidedItems(Then(IfDefined(b, DEFINE_X), End)) by {
      assert NoOnce(DEFINE_X) && OnceOutside(IfDefined(b, DEFINE_X));
      OnceOutsideIsDecided(IfDefined(b, DEFINE_X));
    }
    assert SteadyItems(Then(IfDefined(b, DEFINE_X), End)) by {
      assert Resolved(DEFINE_X) && ItemResolved(IfDefined(b, DEFINE_X));
      ResolvedItemIsSteady(IfDefined(b, DEFINE_X));
    }
    forall m: MacroMap, m': MacroMap, d: nat, d': nat
      | !ObserveFile(files, self, m, d).tooDeep && !ObserveFile(files, self, m', d').tooDeep
      ensures Consistent(ObserveFile(files, self, m, d).used, ObserveFile(files, self, m', d').used)
    {
      KeysAreConsistent(files, self, m, m', d, d');
    }
  }

  // --- Recorded reads -----------------------------------------------------------------

  /** A file with nothing but the conditional; all other files are empty. */
  function Only(c: Item, self: FileId): Files {
    f => if f == self then Then(c, End) else End
  }

  /** Any state that agrees with the reads recorded by a run sees the same effects. */
  ghost predicate ReadsSuffice(files: Files, f: FileId) {
    forall m: MacroMap, m': MacroMap, d: nat {:trigger ObserveFile(files, f, m, d), ExecFile(files, f, m', d)} ::
      Matches(ObserveFile(files, f, m, d).used, m') ==> ExecFile(files, f, m', d) == ExecFile(files, f, m, d)
  }

  ghost predicate ReadsSafe(c: Item) {
    forall self: FileId {:trigger Only(c, self)} :: ReadsSuffice(Only(c, self), self)
  }

  lemma OnlyRun(c: Item, self: FileId, m: MacroMap)
    requires !ItemCommits(c, m)
    ensures ObserveFile(Only(c, self), self, m, 0).used == Enter(self, m).used
  {
    var files := Only(c, self);
    assert ObserveItems(files, self, End, ObserveItem(files, self, c, Enter(self, m), 0), 0).used == Enter(self, m).used;
  }

  lemma OnlyExec(c: Item, self: FileId, m: MacroMap, m': MacroMap)
    requires !ItemCommits(c, m)
    ensures ExecFile(Only(c, self), self, m', 0).changes == MarkOutcome(self, ItemRunsOnce(c, m')).changes
  {
    var files, o := Only(c, self), MarkOutcome(self, ItemRunsOnce(c, m'));
    NeutralItem(files, self, c, m, m', 0);
    assert ExecItems(files, self, End, m' + o.changes, 0) == NOTHING;
    assert o.changes + map[] == o.changes;
  }

  /** If a state does not commit, and another one disagrees with it on a #pragma once, the
      second one matches the recorded reads of the first but sees another effect. */
  lemma UndecidedBreaksReads(c: Item, m: MacroMap, m': MacroMap) returns (self: FileId)
    requires !ItemCommits(c, m) && ItemRunsOnce(c, m) != ItemRunsOnce(c, m')
    ensures !ReadsSuffice(Only(c, self), self)
  {
    self := FreshMarker(m.Keys + m'.Keys, 0);
    var files := Only(c, self);
    OnlyRun(c, self, m);
    OnlyExec(c, self, m, m);
    OnlyExec(c, self, m, m');
    assert Matches(ObserveFile(files, self, m, 0).used, m');
    var marked: MacroMap := map[OnceMarker(self) := ONCE_VALUE];
    assert OnceMarker(self) in marked;
    assert ExecFile(files, self, m, 0) != ExecFile(files, self, m', 0);
  }

  /** The recorded reads of a conditional determine what it does exactly if, wherever they
      are not committed, the state cannot change whether a #pragma once is run. */
  lemma ReadsSafeExactlyIfDecided(c: Item)
    requires c.If? && DecidedItems(c.body) && DecidedRest(c.rest)
    ensures ReadsSafe(c) <==> Decided(c)
  {
    if Decided(c) {
      forall self: FileId
        ensures ReadsSuffice(Only(c, self), self)
      {
        DecidedIsSafe(c, self);
      }
    }
    forall m: MacroMap, m': MacroMap | ReadsSafe(c) && !ItemCommits(c, m)
      ensures ItemRunsOnce(c, m) == ItemRunsOnce(c, m')
    {
      if ItemRunsOnce(c, m) != ItemRunsOnce(c, m') {
        var self := UndecidedBreaksReads(c, m, m');
        assert false;
      }
    }
  }

  lemma DecidedIsSafe(c: Item, self: FileId)
    requires DecidedItem(c)
    ensures ReadsSuffice(Only(c, self), self)
  {
    var files := Only(c, self);
    assert DecidedItems(End) && DecidedItems(Then(c, End));
    forall m: MacroMap, m': MacroMap, d: nat | Matches(ObserveFile(files, self, m, d).used, m')
      ensures ExecFile(files, self, m', d) == ExecFile(files, self, m, d)
    {
      RecordedReadsSuffice(files, self, m, m', d);
    }
  }
}
