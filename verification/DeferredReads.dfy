/** The recorded reads determine everything a file does. */
module DeferredReads {
  import opened Macros
  import opened Directives
  import opened Recording

  // --- Conditionals that do not matter ---------------------------------------------

  /** Text without effect directives cannot commit, whatever the state. */
  lemma {:induction false} QuietText(items: Items, m: MacroMap)
    requires !HasEffectText(items)
    ensures !Commits(items, m)
    decreases Size(items), 1
  {
    if items.Then? {
      if items.head.If? {
        assert ItemSize(items.head) == 1 + Size(items.head.body) + RestSize(items.head.rest);
        QuietBranches(items.head.test, items.head.body, items.head.rest, false, m);
      }
      QuietText(items.tail, m);
    }
  }

  lemma {:induction false} QuietBranches(test: Test, body: Items, rest: Rest, anyTaken: bool, m: MacroMap)
    requires !HasEffectText(body) && !RestHasEffectText(rest)
    ensures !BranchesCommit(test, body, rest, anyTaken, m)
    decreases Size(body) + RestSize(rest), 3
  {
    QuietText(body, m);
    var anyTaken' := anyTaken || Evaluate(test, m, []).taken;
    match rest
    case Endif =>
    case Elif(t, b, more) => QuietBranches(t, b, more, anyTaken', m);
    case Else(b) => QuietText(b, m);
  }

  /** Where every #include is found, a conditional commits exactly when its text holds
      an effect directive. */
  lemma {:induction false} ResolvedCommits(items: Items, m: MacroMap)
    requires Resolved(items)
    ensures Commits(items, m) == HasEffectText(items)
    decreases Size(items), 1
  {
    if items.Then? {
      ResolvedItemCommits(items.head, m);
      ResolvedCommits(items.tail, m);
    }
  }

  lemma {:induction false} ResolvedItemCommits(item: Item, m: MacroMap)
    requires ItemResolved(item)
    ensures ItemCommits(item, m) == ItemHasEffectText(item)
    decreases ItemSize(item), 2
  {
    if item.If? {
      ResolvedBranchesCommit(item.test, item.body, item.rest, false, m);
    }
  }

  lemma {:induction false} ResolvedBranchesCommit(
      test: Test, body: Items, rest: Rest, anyTaken: bool, m: MacroMap)
    requires Resolved(body) && RestResolved(rest)
    ensures BranchesCommit(test, body, rest, anyTaken, m) == (HasEffectText(body) || RestHasEffectText(rest))
    decreases Size(body) + RestSize(rest), 3
  {
    ResolvedCommits(body, m);
    var anyTaken' := anyTaken || Evaluate(test, m, []).taken;
    match rest
    case Endif =>
    case Elif(t, b, more) => ResolvedBranchesCommit(t, b, more, anyTaken', m);
    case Else(b) => ResolvedCommits(b, m);
  }

  // --- A #pragma once that is not recorded -----------------------------------------

  /** Unless the item commits, all states agree on whether it runs a #pragma once. */
  ghost predicate Decided(item: Item) {
    forall m: MacroMap, m': MacroMap :: !ItemCommits(item, m) ==> ItemRunsOnce(item, m) == ItemRunsOnce(item, m')
  }

  /** So it is with every conditional in the text. */
  ghost predicate DecidedItems(items: Items) {
    match items
    case End => true
    case Then(head, tail) => DecidedItem(head) && DecidedItems(tail)
  }

  ghost predicate DecidedItem(item: Item) {
    match item
    case If(_, body, rest) => Decided(item) && DecidedItems(body) && DecidedRest(rest)
    case _ => true
  }

  ghost predicate DecidedRest(rest: Rest) {
    match rest
    case Endif => true
    case Elif(_, body, more) => DecidedItems(body) && DecidedRest(more)
    case Else(body) => DecidedItems(body)
  }

  ghost predicate AllDecided(files: Files) {
    forall f :: DecidedItems(files(f))
  }

  lemma {:induction false} SelectDecided(test: Test, body: Items, rest: Rest, m: MacroMap)
    requires DecidedItems(body) && DecidedRest(rest)
    ensures DecidedItems(Select(test, body, rest, m).body)
    decreases rest
  {
    if !Evaluate(test, m, []).taken && rest.Elif? {
      SelectDecided(rest.test, rest.body, rest.rest, m);
    }
  }

  /** Text without #pragma once runs none. */
  lemma {:induction false} NoOnceRunsNone(items: Items, m: MacroMap)
    requires NoOnce(items)
    ensures !RunsOnce(items, m)
    decreases Size(items), 1
  {
    if items.Then? {
      if items.head.If? {
        SelectOnce(items.head.test, items.head.body, items.head.rest, m);
        assert ItemSize(items.head) == 1 + Size(items.head.body) + RestSize(items.head.rest);
        NoOnceRunsNone(Select(items.head.test, items.head.body, items.head.rest, m).body, m);
      }
      NoOnceRunsNone(items.tail, m);
    }
  }

  lemma {:induction false} SelectOnce(test: Test, body: Items, rest: Rest, m: MacroMap)
    requires NoOnce(body) && RestNoOnce(rest)
    ensures NoOnce(Select(test, body, rest, m).body)
    decreases rest
  {
    if !Evaluate(test, m, []).taken && rest.Elif? {
      SelectOnce(rest.test, rest.body, rest.rest, m);
    }
  }

  /** Where #pragma once occurs only outside conditionals, everything is decided. */
  lemma {:induction false} OnceAtTopIsDecided(items: Items)
    requires OnceAtTop(items)
    ensures DecidedItems(items)
  {
    if items.Then? {
      if items.head.If? {
        OnceOutsideIsDecided(items.head);
      }
      OnceAtTopIsDecided(items.tail);
    }
  }

  lemma {:induction false} OnceOutsideIsDecided(item: Item)
    requires item.If? && OnceOutside(item)
    ensures DecidedItem(item)
  {
    forall m: MacroMap
      ensures !ItemRunsOnce(item, m)
    {
      SelectOnce(item.test, item.body, item.rest, m);
      NoOnceRunsNone(Select(item.test, item.body, item.rest, m).body, m);
    }
    NoOnceIsDecided(item.body);
    RestNoOnceIsDecided(item.rest);
  }

  lemma {:induction false} NoOnceIsDecided(items: Items)
    requires NoOnce(items)
    ensures DecidedItems(items)
  {
    if items.Then? {
      if items.head.If? {
        OnceOutsideIsDecided(items.head);
      }
      NoOnceIsDecided(items.tail);
    }
  }

  lemma {:induction false} RestNoOnceIsDecided(rest: Rest)
    requires RestNoOnce(rest)
    ensures DecidedRest(rest)
  {
    match rest
    case Endif =>
    case Elif(_, body, more) =>
      NoOnceIsDecided(body);
      RestNoOnceIsDecided(more);
    case Else(body) => NoOnceIsDecided(body);
  }

  // --- What text that does not commit can do ---------------------------------------

  function MarkOutcome(self: FileId, once: bool): Outcome {
    if once then Outcome(map[OnceMarker(self) := ONCE_VALUE], {}, false) else NOTHING
  }

  lemma MarkKeepsProgram(self: FileId, m: MacroMap, once: bool)
    ensures SameProgram(m + MarkOutcome(self, once).changes, m)
  {
  }

  /** A text that performed no effect from one state performs none from any other, even
      where other branches are taken; it can only run a #pragma once. */
  lemma {:induction false} Neutral(
      files: Files, self: FileId, items: Items, m: MacroMap, m': MacroMap, depth: nat)
    requires !Commits(items, m)
    ensures ExecItems(files, self, items, m', depth) == MarkOutcome(self, RunsOnce(items, m'))
    decreases Size(items), 1
  {
    if items.Then? {
      var once := ItemRunsOnce(items.head, m');
      NeutralItem(files, self, items.head, m, m', depth);
      MarkKeepsProgram(self, m', once);
      ItemsSameProgram(items.tail, m' + MarkOutcome(self, once).changes, m');
      Neutral(files, self, items.tail, m, m' + MarkOutcome(self, once).changes, depth);
    }
  }

  lemma {:induction false} NeutralItem(
      files: Files, self: FileId, item: Item, m: MacroMap, m': MacroMap, depth: nat)
    requires !ItemCommits(item, m)
    ensures ExecItem(files, self, item, m', depth) == MarkOutcome(self, ItemRunsOnce(item, m'))
    decreases ItemSize(item), 4
  {
    match item
    case PragmaOnce =>
    case Include(Missing) =>
    case If(test, body, rest) => NeutralBranches(files, self, test, body, rest, false, m, m', depth);
  }

  lemma {:induction false} NeutralBranches(
      files: Files, self: FileId, test: Test, body: Items, rest: Rest, anyTaken: bool,
      m: MacroMap, m': MacroMap, depth: nat)
    requires !BranchesCommit(test, body, rest, anyTaken, m)
    ensures var taken := Select(test, body, rest, m').body;
      ExecItems(files, self, taken, m', depth) == MarkOutcome(self, RunsOnce(taken, m'))
    decreases Size(body) + RestSize(rest), 3
  {
    var taken := !anyTaken && Evaluate(test, m, []).taken;
    if Evaluate(test, m', []).taken {
      if !taken {
        QuietText(body, m);
      }
      Neutral(files, self, body, m, m', depth);
    } else {
      match rest
      case Endif =>
      case Elif(t, b, more) => NeutralBranches(files, self, t, b, more, anyTaken || taken, m, m', depth);
      case Else(b) =>
        if anyTaken || taken {
          QuietText(b, m);
        }
        Neutral(files, self, b, m, m', depth);
    }
  }

  // --- Observing a run does not change it ------------------------------------------

  /** What the recorded sets mean, relative to the state `m0` the file was entered in. */
  ghost predicate Faithful(m0: MacroMap, r: Run) {
    && DistinctNames(r.used)
    && Matches(r.used, m0)
    && (forall n :: n !in r.changed ==> Lookup(r.state, n) == Lookup(m0, n))
  }

  ghost predicate Grows(r: Run, r': Run) {
    && r.used <= r'.used
    && r.changed <= r'.changed
    && r.headers <= r'.headers
    && (r.tooDeep ==> r'.tooDeep)
  }

  lemma RecordPairsFaithful(m0: MacroMap, r: Run, ps: seq<Macro>)
    requires Faithful(m0, r)
    requires forall i :: 0 <= i < |ps| ==> ps[i].1 == Lookup(r.state, ps[i].0)
    ensures Faithful(m0, RecordPairs(r, ps)) && Grows(r, RecordPairs(r, ps))
  {
    var u := AddAll(r.used, r.changed, ps);
    AddAllMentions(r.used, r.changed, ps);
    forall k | 0 <= k < |u|
      ensures Lookup(m0, u[k].0) == u[k].1
    {
      if |r.used| <= k {
        AddAllOrigin(r.used, r.changed, ps, k);
      } else {
        assert u[k] == r.used[k];
      }
    }
  }

  lemma EnterFaithful(f: FileId, m: MacroMap)
    ensures Faithful(m, Enter(f, m))
  {
  }

  /** The reference outcome `o` is what happened between `r` and `r'`. */
  ghost predicate Accounts(r: Run, o: Outcome, r': Run) {
    && r'.state == r.state + o.changes
    && r'.changed == r.changed + o.changes.Keys
    && r'.headers == r.headers + o.headers
    && r'.tooDeep == (r.tooDeep || o.tooDeep)
  }

  lemma ChangesOfChild(m: MacroMap, o: Outcome, c: Run)
    requires c.state == m + o.changes && c.changed == o.changes.Keys
    ensures Changes(c) == o.changes
  {
  }

  lemma AbsorbAccounts(m0: MacroMap, r: Run, path: seq<Macro>, o: Outcome)
    requires Faithful(m0, r) && Matches(path, r.state)
    ensures var r' := Absorb(r, path, o.changes, o.headers).(tooDeep := r.tooDeep || o.tooDeep);
      Accounts(r, o, r') && Faithful(m0, r') && Grows(r, r')
  {
    RecordPairsFaithful(m0, r, path);
  }

  lemma {:induction false} ObserveItemsIsExec(
      files: Files, self: FileId, items: Items, m0: MacroMap, r: Run, depth: nat)
    requires Faithful(m0, r)
    ensures Accounts(r, ExecItems(files, self, items, r.state, depth), ObserveItems(files, self, items, r, depth))
    ensures Faithful(m0, ObserveItems(files, self, items, r, depth))
    ensures Grows(r, ObserveItems(files, self, items, r, depth))
    decreases depth, Size(items), 1
  {
    match items
    case End => assert r.state + map[] == r.state;
    case Then(head, tail) =>
      ObserveItemIsExec(files, self, head, m0, r, depth);
      var r1 := ObserveItem(files, self, head, r, depth);
      ObserveItemsIsExec(files, self, tail, m0, r1, depth);
      var a := ExecItem(files, self, head, r.state, depth);
      var b := ExecItems(files, self, tail, r1.state, depth);
      assert r.state + (a.changes + b.changes) == (r.state + a.changes) + b.changes;
  }

  lemma {:induction false} ObserveItemIsExec(
      files: Files, self: FileId, item: Item, m0: MacroMap, r: Run, depth: nat)
    requires Faithful(m0, r)
    ensures Accounts(r, ExecItem(files, self, item, r.state, depth), ObserveItem(files, self, item, r, depth))
    ensures Faithful(m0, ObserveItem(files, self, item, r, depth))
    ensures Grows(r, ObserveItem(files, self, item, r, depth))
    decreases depth, ItemSize(item), 2
  {
    match item
    case Define(name, text) => WriteAccounts(m0, r, name, Text(text));
    case Undef(name) => WriteAccounts(m0, r, name, Undefined);
    case PragmaOnce => WriteAccounts(m0, r, OnceMarker(self), ONCE_VALUE);
    case Include(Missing) => NothingAccounts(r);
    case Include(Found(f)) =>
      if Lookup(r.state, OnceMarker(f)) != Undefined || depth == 0 {
        NothingAccounts(r);
        RecordPairsFaithful(m0, r, Valued(r.state, [OnceMarker(f)]));
      } else {
        EnterFaithful(f, r.state);
        ObserveItemsIsExec(files, f, files(f), r.state, Enter(f, r.state), depth - 1);
        ObserveChildIsExec(files, self, f, m0, r, depth);
      }
    case If(test, body, rest) =>
      if ItemCommits(item, r.state) {
        var s := Select(test, body, rest, r.state);
        RecordPairsFaithful(m0, r, Valued(r.state, s.asked));
        ObserveItemsIsExec(files, self, s.body, m0, Record(r, s.asked), depth);
        ObserveBranchIsExec(files, self, item, r, s, depth);
      } else {
        NeutralItem(files, self, item, r.state, r.state, depth);
        MarkAccounts(m0, r, self, ItemRunsOnce(item, r.state));
      }
  }

  lemma NothingAccounts(r: Run)
    ensures r.state + map[] == r.state && Accounts(r, NOTHING, r) && Grows(r, r)
  {
  }

  lemma MarkAccounts(m0: MacroMap, r: Run, self: FileId, once: bool)
    requires Faithful(m0, r)
    ensures var r' := MarkIf(r, self, once);
      Accounts(r, MarkOutcome(self, once), r') && Faithful(m0, r') && Grows(r, r')
  {
    if once {
      WriteAccounts(m0, r, OnceMarker(self), ONCE_VALUE);
    } else {
      NothingAccounts(r);
    }
  }

  lemma WriteAccounts(m0: MacroMap, r: Run, name: MacroName, value: MacroValue)
    requires Faithful(m0, r)
    ensures Accounts(r, Outcome(map[name := value], {}, false), Write(r, name, value))
    ensures Faithful(m0, Write(r, name, value)) && Grows(r, Write(r, name, value))
  {
    assert r.state[name := value] == r.state + map[name := value];
  }

  lemma ObserveChildIsExec(files: Files, self: FileId, f: FileId, m0: MacroMap, r: Run, depth: nat)
    requires Faithful(m0, r) && depth > 0 && Lookup(r.state, OnceMarker(f)) == Undefined
    requires Accounts(Enter(f, r.state), ExecFile(files, f, r.state, depth - 1), ObserveFile(files, f, r.state, depth - 1))
    requires Faithful(r.state, ObserveFile(files, f, r.state, depth - 1))
    ensures var item := Include(Found(f)); var r' := ObserveItem(files, self, item, r, depth);
      && Accounts(r, ExecItem(files, self, item, r.state, depth), r')
      && Faithful(m0, r') && Grows(r, r')
  {
    var c := ObserveFile(files, f, r.state, depth - 1);
    var o := ExecFile(files, f, r.state, depth - 1);
    ChangesOfChild(r.state, o, c);
    AbsorbAccounts(m0, r, c.used, Outcome(o.changes, o.headers + {f}, o.tooDeep));
  }

  lemma ObserveBranchIsExec(files: Files, self: FileId, item: Item, r: Run, s: Selection, depth: nat)
    requires item.If? && ItemCommits(item, r.state) && s == Select(item.test, item.body, item.rest, r.state)
    ensures ObserveItem(files, self, item, r, depth) == ObserveItems(files, self, s.body, Record(r, s.asked), depth)
    ensures ExecItem(files, self, item, r.state, depth) == ExecItems(files, self, s.body, r.state, depth)
  {
  }

  /** The report of a whole file: its changes, headers and state are those of
      preprocessing it, and its used list gives each macro the value it had on entry. */
  lemma ObserveFileIsExec(files: Files, f: FileId, m: MacroMap, depth: nat)
    ensures var r, o := ObserveFile(files, f, m, depth), ExecFile(files, f, m, depth);
      && r.state == m + o.changes && Changes(r) == o.changes && r.headers == o.headers
      && r.tooDeep == o.tooDeep && r.changed == o.changes.Keys
      && Matches(r.used, m) && DistinctNames(r.used)
      && Enter(f, m).used <= r.used
  {
    EnterFaithful(f, m);
    ObserveItemsIsExec(files, f, files(f), m, Enter(f, m), depth);
    ChangesOfChild(m, ExecFile(files, f, m, depth), ObserveFile(files, f, m, depth));
  }

  // --- Recorded reads suffice ------------------------------------------------------

  ghost predicate AgreeOnRecord(a: MacroMap, b: MacroMap, changed: set<MacroName>, used: seq<Macro>) {
    forall n :: n in changed || Mentions(used, n) ==> Lookup(a, n) == Lookup(b, n)
  }

  lemma MentionsPrefix(u: seq<Macro>, u': seq<Macro>)
    requires u <= u'
    ensures forall n :: Mentions(u, n) ==> Mentions(u', n)
  {
    forall n | Mentions(u, n)
      ensures Mentions(u', n)
    {
      var i :| 0 <= i < |u| && u[i].0 == n;
      assert u'[i].0 == n;
    }
  }

  lemma {:induction false} ReadsSufficeItems(
      files: Files, self: FileId, items: Items, m0: MacroMap, r: Run, m': MacroMap, depth: nat)
    requires AllDecided(files) && DecidedItems(items) && Faithful(m0, r)
    requires AgreeOnRecord(r.state, m', r.changed, ObserveItems(files, self, items, r, depth).used)
    ensures ExecItems(files, self, items, m', depth) == ExecItems(files, self, items, r.state, depth)
    decreases depth, Size(items), 1
  {
    match items
    case End =>
    case Then(head, tail) =>
      var r1 := ObserveItem(files, self, head, r, depth);
      ObserveItemIsExec(files, self, head, m0, r, depth);
      ObserveItemsIsExec(files, self, tail, m0, r1, depth);
      MentionsPrefix(r1.used, ObserveItems(files, self, items, r, depth).used);
      ReadsSufficeItem(files, self, head, m0, r, m', depth);
      var a := ExecItem(files, self, head, r.state, depth);
      ReadsSufficeItems(files, self, tail, m0, r1, m' + a.changes, depth);
  }

  /** A header that is entered is scanned the same way in both states. */
  lemma {:induction false} ReadsSufficeEntered(files: Files, f: FileId, r: Run, m': MacroMap, depth: nat)
    requires AllDecided(files) && depth > 0 && Lookup(r.state, OnceMarker(f)) == Undefined
    requires AgreeOnRecord(r.state, m', r.changed, AddAll(r.used, r.changed, ObserveFile(files, f, r.state, depth - 1).used))
    ensures Lookup(m', OnceMarker(f)) == Undefined
    ensures ExecFile(files, f, m', depth - 1) == ExecFile(files, f, r.state, depth - 1)
    decreases depth, 0, 0
  {
    var c := ObserveFile(files, f, r.state, depth - 1);
    ObserveFileIsExec(files, f, r.state, depth - 1);
    AddAllMentions(r.used, r.changed, c.used);
    assert c.used[0].0 == OnceMarker(f);
    forall n | Mentions(c.used, n)
      ensures Lookup(r.state, n) == Lookup(m', n)
    {
      var i :| 0 <= i < |c.used| && c.used[i].0 == n;
    }
    assert Mentions(c.used, OnceMarker(f));
    EnterFaithful(f, r.state);
    ReadsSufficeItems(files, f, files(f), r.state, Enter(f, r.state), m', depth - 1);
  }

  lemma {:induction false} ReadsSufficeItem(
      files: Files, self: FileId, item: Item, m0: MacroMap, r: Run, m': MacroMap, depth: nat)
    requires AllDecided(files) && DecidedItem(item) && Faithful(m0, r)
    requires AgreeOnRecord(r.state, m', r.changed, ObserveItem(files, self, item, r, depth).used)
    ensures ExecItem(files, self, item, m', depth) == ExecItem(files, self, item, r.state, depth)
    decreases depth, ItemSize(item), 2
  {
    match item
    case Include(Found(f)) =>
      var marker := OnceMarker(f);
      if Lookup(r.state, marker) != Undefined || depth == 0 {
        AddAllMentions(r.used, r.changed, Valued(r.state, [marker]));
        assert Valued(r.state, [marker])[0].0 == marker;
      } else {
        ReadsSufficeEntered(files, f, r, m', depth);
      }
    case If(test, body, rest) =>
      if ItemCommits(item, r.state) {
        var s := Select(test, body, rest, r.state);
        var r1 := Record(r, s.asked);
        RecordPairsFaithful(m0, r, Valued(r.state, s.asked));
        SelectDecided(test, body, rest, r.state);
        ObserveItemsIsExec(files, self, s.body, m0, r1, depth);
        AddAllMentions(r.used, r.changed, Valued(r.state, s.asked));
        MentionsPrefix(r1.used, ObserveItem(files, self, item, r, depth).used);
        forall n | n in s.asked
          ensures Lookup(r.state, n) == Lookup(m', n)
        {
          var i :| 0 <= i < |s.asked| && s.asked[i] == n;
          assert Valued(r.state, s.asked)[i].0 == n;
        }
        SelectAgrees(test, body, rest, r.state, m');
        ReadsSufficeItems(files, self, s.body, m0, r1, m', depth);
      } else {
        NeutralItem(files, self, item, r.state, r.state, depth);
        NeutralItem(files, self, item, r.state, m', depth);
        assert ItemRunsOnce(item, r.state) == ItemRunsOnce(item, m');
      }
    case _ =>
  }

  /** Any second state that agrees with the recorded pairs sees the same defines, undefs
      and includes, even though conditions that were dropped may go the other way. */
  lemma RecordedReadsSuffice(files: Files, f: FileId, m: MacroMap, m': MacroMap, depth: nat)
    requires AllDecided(files)
    requires Matches(ObserveFile(files, f, m, depth).used, m')
    ensures ExecFile(files, f, m', depth) == ExecFile(files, f, m, depth)
  {
    ObserveFileIsExec(files, f, m, depth);
    EnterFaithful(f, m);
    ReadsSufficeItems(files, f, files(f), m, Enter(f, m), m', depth);
  }
}
