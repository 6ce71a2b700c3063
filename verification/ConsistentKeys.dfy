/** Two runs of one file read the same macros in the same order until they see one with
    different values. This is what lets the recorded paths share one decision tree. */
module ConsistentKeys {
  import opened Macros
  import opened Directives
  import opened Recording
  import opened DeferredReads
  import opened SteadyConditions

  ghost predicate DivergedAt(u: seq<Macro>, v: seq<Macro>, k: nat) {
    k < |u| && k < |v| && u[..k] == v[..k] && u[k].0 == v[k].0 && u[k].1 != v[k].1
  }

  /** The first difference is one macro with two values. */
  ghost predicate Diverged(u: seq<Macro>, v: seq<Macro>) {
    exists k: nat :: DivergedAt(u, v, k)
  }

  /** Two paths that agree on their first k pairs either both end there or read the same
      macro next. */
  ghost predicate Consistent(u: seq<Macro>, v: seq<Macro>) {
    forall k: nat :: k <= |u| && k <= |v| && u[..k] == v[..k] ==>
      (k == |u| <==> k == |v|) && (k < |u| && k < |v| ==> u[k].0 == v[k].0)
  }

  lemma DivergedExtends(u: seq<Macro>, v: seq<Macro>, u': seq<Macro>, v': seq<Macro>)
    requires Diverged(u, v) && u <= u' && v <= v'
    ensures Diverged(u', v')
  {
    var k: nat :| DivergedAt(u, v, k);
    assert u'[..k] == u[..k] && v'[..k] == v[..k];
    assert DivergedAt(u', v', k);
  }

  lemma DivergedAfter(p: seq<Macro>, u: seq<Macro>, v: seq<Macro>)
    requires Diverged(u, v)
    ensures Diverged(p + u, p + v)
  {
    var k: nat :| DivergedAt(u, v, k);
    assert (p + u)[..|p| + k] == p + u[..k];
    assert (p + v)[..|p| + k] == p + v[..k];
    assert DivergedAt(p + u, p + v, |p| + k);
  }

  lemma DivergedSlices(u: seq<Macro>, v: seq<Macro>, d: nat, k: nat)
    requires DivergedAt(u, v, d) && k <= |u| && k <= |v|
    ensures d < k ==> u[..k] != v[..k]
  {
    if d < k {
      assert u[..k][d] == u[d] && v[..k][d] == v[d];
    }
  }

  lemma DivergedIsConsistent(u: seq<Macro>, v: seq<Macro>)
    requires u == v || Diverged(u, v)
    ensures Consistent(u, v)
  {
    if u != v {
      var d: nat :| DivergedAt(u, v, d);
      forall k: nat | k <= |u| && k <= |v| && u[..k] == v[..k]
        ensures (k == |u| <==> k == |v|) && (k < |u| && k < |v| ==> u[k].0 == v[k].0)
      {
        DivergedSlices(u, v, d, k);
        if k < d {
          assert u[..d][k] == v[..d][k];
        }
      }
    }
  }

  /** Two runs that have done the same so far and see the same value wherever it has
      been recorded. */
  ghost predicate InStep(r: Run, s: Run) {
    && r.used == s.used && r.changed == s.changed && r.headers == s.headers && r.tooDeep == s.tooDeep
    && AgreeOnRecord(r.state, s.state, r.changed, r.used)
  }

  // --- Asking for the same macros --------------------------------------------------

  lemma ValuedConcat(m: MacroMap, a: seq<MacroName>, b: seq<MacroName>)
    ensures Valued(m, a + b) == Valued(m, a) + Valued(m, b)
  {
  }

  lemma {:induction false} EvaluateInStep(test: Test, a: MacroMap, b: MacroMap, seen: seq<MacroValue>)
    ensures var p, q := Evaluate(test, a, seen), Evaluate(test, b, seen);
      (p == q && Valued(a, p.asked) == Valued(b, q.asked)) || Diverged(Valued(a, p.asked), Valued(b, q.asked))
  {
    match test
    case Decide(_) => assert Valued(a, []) == Valued(b, []);
    case Ask(name, choose, yes, no) =>
      var x, y := Lookup(a, name), Lookup(b, name);
      var p := Evaluate(if choose(x) then yes else no, a, seen + [x]);
      var q := Evaluate(if choose(y) then yes else no, b, seen + [y]);
      ValuedConcat(a, [name], p.asked);
      ValuedConcat(b, [name], q.asked);
      assert Valued(a, [name]) == [(name, x)] && Valued(b, [name]) == [(name, y)];
      if x == y {
        EvaluateInStep(if choose(x) then yes else no, a, b, seen + [x]);
        if Diverged(Valued(a, p.asked), Valued(b, q.asked)) {
          DivergedAfter([(name, x)], Valued(a, p.asked), Valued(b, q.asked));
        }
      } else {
        assert DivergedAt(Valued(a, [name] + p.asked), Valued(b, [name] + q.asked), 0);
      }
  }

  lemma {:induction false} SelectInStep(test: Test, body: Items, rest: Rest, a: MacroMap, b: MacroMap)
    ensures var p, q := Select(test, body, rest, a), Select(test, body, rest, b);
      (p == q && Valued(a, p.asked) == Valued(b, q.asked)) || Diverged(Valued(a, p.asked), Valued(b, q.asked))
    decreases rest
  {
    var p, q := Evaluate(test, a, []), Evaluate(test, b, []);
    var x, y := Valued(a, p.asked), Valued(b, q.asked);
    var s, t := SelectRest(rest, a), SelectRest(rest, b);
    ValuedConcat(a, p.asked, s.asked);
    ValuedConcat(b, q.asked, t.asked);
    EvaluateInStep(test, a, b, []);
    if Diverged(x, y) {
      DivergedExtends(x, y, Valued(a, Select(test, body, rest, a).asked), Valued(b, Select(test, body, rest, b).asked));
    } else if !p.taken {
      match rest
      case Endif => assert Valued(a, []) == Valued(b, []);
      case Else(_) => assert Valued(a, []) == Valued(b, []);
      case Elif(t1, b1, more) =>
        SelectInStep(t1, b1, more, a, b);
        if Diverged(Valued(a, s.asked), Valued(b, t.asked)) {
          DivergedAfter(x, Valued(a, s.asked), Valued(b, t.asked));
        }
    }
  }

  // --- Recording them --------------------------------------------------------------

  lemma RecordSameInStep(r: Run, s: Run, ps: seq<Macro>)
    requires InStep(r, s) && Matches(ps, r.state) && Matches(ps, s.state)
    ensures InStep(RecordPairs(r, ps), RecordPairs(s, ps))
  {
    var u := AddAll(r.used, r.changed, ps);
    forall n | Mentions(u, n)
      ensures Lookup(r.state, n) == Lookup(s.state, n)
    {
      var k :| 0 <= k < |u| && u[k].0 == n;
      if |r.used| <= k {
        AddAllOrigin(r.used, r.changed, ps, k);
      } else {
        AddAllMentions(r.used, r.changed, ps);
        assert r.used[k].0 == n;
      }
    }
  }

  lemma RecordApart(r: Run, s: Run, ps: seq<Macro>, qs: seq<Macro>)
    requires InStep(r, s) && Matches(ps, r.state) && Matches(qs, s.state) && Diverged(ps, qs)
    ensures Diverged(RecordPairs(r, ps).used, RecordPairs(s, qs).used)
  {
    var k: nat :| DivergedAt(ps, qs, k);
    var common, name := ps[..k], ps[k].0;
    var u := AddAll(r.used, r.changed, common);
    assert common == qs[..k];
    RecordSameInStep(r, s, common);
    assert Lookup(r.state, name) == ps[k].1 && Lookup(s.state, name) == qs[k].1;
    assert !Mentions(u, name) && name !in r.changed;
    AddAllThrough(r.used, r.changed, ps, k);
    AddAllThrough(s.used, s.changed, qs, k);
    assert DivergedAt(u + [ps[k]], u + [qs[k]], |u|);
    DivergedExtends(u + [ps[k]], u + [qs[k]], RecordPairs(r, ps).used, RecordPairs(s, qs).used);
  }

  /** A macro met for the first time at position k is appended there. */
  lemma AddAllThrough(used: seq<Macro>, changed: set<MacroName>, ps: seq<Macro>, k: nat)
    requires k < |ps| && ps[k].0 !in changed && !Mentions(AddAll(used, changed, ps[..k]), ps[k].0)
    ensures AddAll(used, changed, ps[..k]) + [ps[k]] <= AddAll(used, changed, ps)
  {
    var u := AddAll(used, changed, ps[..k]);
    assert ps == ps[..k] + ps[k..] && ps[k..][1..] == ps[k + 1..];
    AddAllConcat(used, changed, ps[..k], ps[k..]);
    AddAllMentions(u + [ps[k]], changed, ps[k + 1..]);
  }

  // --- Runs in step ----------------------------------------------------------------

  lemma {:induction false} ItemsInStep(
      files: Files, self: FileId, items: Items, m: MacroMap, r: Run, m': MacroMap, s: Run, depth: nat)
    requires AllDecided(files) && AllSteady(files) && DecidedItems(items) && SteadyItems(items)
    requires Faithful(m, r) && Faithful(m', s) && InStep(r, s)
    ensures var a, b := ObserveItems(files, self, items, r, depth), ObserveItems(files, self, items, s, depth);
      InStep(a, b) || Diverged(a.used, b.used)
    decreases depth, Size(items), 1
  {
    if items.Then? {
      var r1, s1 := ObserveItem(files, self, items.head, r, depth), ObserveItem(files, self, items.head, s, depth);
      ObserveItemIsExec(files, self, items.head, m, r, depth);
      ObserveItemIsExec(files, self, items.head, m', s, depth);
      ItemInStep(files, self, items.head, m, r, m', s, depth);
      if InStep(r1, s1) {
        ItemsInStep(files, self, items.tail, m, r1, m', s1, depth);
      } else {
        ObserveItemsIsExec(files, self, items.tail, m, r1, depth);
        ObserveItemsIsExec(files, self, items.tail, m', s1, depth);
        DivergedExtends(r1.used, s1.used,
          ObserveItems(files, self, items, r, depth).used, ObserveItems(files, self, items, s, depth).used);
      }
    }
  }

  lemma {:induction false} ItemInStep(
      files: Files, self: FileId, item: Item, m: MacroMap, r: Run, m': MacroMap, s: Run, depth: nat)
    requires AllDecided(files) && AllSteady(files) && DecidedItem(item) && SteadyItem(item)
    requires Faithful(m, r) && Faithful(m', s) && InStep(r, s)
    ensures var a, b := ObserveItem(files, self, item, r, depth), ObserveItem(files, self, item, s, depth);
      InStep(a, b) || Diverged(a.used, b.used)
    decreases depth, ItemSize(item), 2
  {
    match item
    case Include(Found(f)) => IncludeInStep(files, self, f, m, r, m', s, depth);
    case If(test, body, rest) =>
      assert ItemCommits(item, r.state) == ItemCommits(item, s.state);
      if ItemCommits(item, r.state) {
        BranchInStep(files, self, test, body, rest, m, r, m', s, depth);
      } else {
        assert ItemRunsOnce(item, r.state) == ItemRunsOnce(item, s.state);
      }
    case _ =>
  }

  lemma {:induction false} IncludeInStep(
      files: Files, self: FileId, f: FileId, m: MacroMap, r: Run, m': MacroMap, s: Run, depth: nat)
    requires AllDecided(files) && AllSteady(files)
    requires Faithful(m, r) && Faithful(m', s) && InStep(r, s)
    ensures var item := Include(Found(f));
      var a, b := ObserveItem(files, self, item, r, depth), ObserveItem(files, self, item, s, depth);
      InStep(a, b) || Diverged(a.used, b.used)
    decreases depth, 0, 0
  {
    var x, y := Lookup(r.state, OnceMarker(f)), Lookup(s.state, OnceMarker(f));
    if x != y {
      IncludeApart(files, self, f, r, s, depth);
    } else if x != Undefined || depth == 0 {
      assert Valued(r.state, [OnceMarker(f)]) == Valued(s.state, [OnceMarker(f)]);
      RecordSameInStep(r, s, Valued(r.state, [OnceMarker(f)]));
    } else {
      EnterFaithful(f, r.state);
      EnterFaithful(f, s.state);
      ItemsInStep(files, f, files(f), r.state, Enter(f, r.state), s.state, Enter(f, s.state), depth - 1);
      ChildInStep(files, self, f, r, s, depth);
    }
  }

  lemma ChildInStep(files: Files, self: FileId, f: FileId, r: Run, s: Run, depth: nat)
    requires InStep(r, s) && depth > 0
    requires Lookup(r.state, OnceMarker(f)) == Undefined && Lookup(s.state, OnceMarker(f)) == Undefined
    requires var c, d := ObserveFile(files, f, r.state, depth - 1), ObserveFile(files, f, s.state, depth - 1);
      InStep(c, d) || Diverged(c.used, d.used)
    ensures var item := Include(Found(f));
      var a, b := ObserveItem(files, self, item, r, depth), ObserveItem(files, self, item, s, depth);
      InStep(a, b) || Diverged(a.used, b.used)
  {
    var c, d := ObserveFile(files, f, r.state, depth - 1), ObserveFile(files, f, s.state, depth - 1);
    ObserveFileIsExec(files, f, r.state, depth - 1);
    ObserveFileIsExec(files, f, s.state, depth - 1);
    AbsorbInStep(r, s, c, d, f);
  }

  /** A conditional that records its reads: the same branch is executed in step, or the
      reads differ. */
  lemma {:induction false} BranchInStep(
      files: Files, self: FileId, test: Test, body: Items, rest: Rest, m: MacroMap, r: Run, m': MacroMap, s: Run,
      depth: nat)
    requires AllDecided(files) && AllSteady(files) && DecidedItems(body) && DecidedRest(rest)
    requires SteadyItems(body) && SteadyRest(rest)
    requires Faithful(m, r) && Faithful(m', s) && InStep(r, s)
    ensures var p, q := Select(test, body, rest, r.state), Select(test, body, rest, s.state);
      var a := ObserveItems(files, self, p.body, Record(r, p.asked), depth);
      var b := ObserveItems(files, self, q.body, Record(s, q.asked), depth);
      InStep(a, b) || Diverged(a.used, b.used)
    decreases depth, Size(body) + RestSize(rest), 2
  {
    var p, q := Select(test, body, rest, r.state), Select(test, body, rest, s.state);
    SelectInStep(test, body, rest, r.state, s.state);
    if Diverged(Valued(r.state, p.asked), Valued(s.state, q.asked)) {
      BranchApart(files, self, test, body, rest, m, r, m', s, depth);
    } else {
      SelectDecided(test, body, rest, r.state);
      SelectSteady(test, body, rest, r.state);
      RecordPairsFaithful(m, r, Valued(r.state, p.asked));
      RecordPairsFaithful(m', s, Valued(s.state, q.asked));
      RecordSameInStep(r, s, Valued(r.state, p.asked));
      ItemsInStep(files, self, p.body, m, Record(r, p.asked), m', Record(s, q.asked), depth);
    }
  }

  lemma BranchApart(
      files: Files, self: FileId, test: Test, body: Items, rest: Rest, m: MacroMap, r: Run, m': MacroMap, s: Run,
      depth: nat)
    requires Faithful(m, r) && Faithful(m', s) && InStep(r, s)
    requires Diverged(Valued(r.state, Select(test, body, rest, r.state).asked),
                      Valued(s.state, Select(test, body, rest, s.state).asked))
    ensures var p, q := Select(test, body, rest, r.state), Select(test, body, rest, s.state);
      Diverged(ObserveItems(files, self, p.body, Record(r, p.asked), depth).used,
               ObserveItems(files, self, q.body, Record(s, q.asked), depth).used)
  {
    var p, q := Select(test, body, rest, r.state), Select(test, body, rest, s.state);
    RecordApart(r, s, Valued(r.state, p.asked), Valued(s.state, q.asked));
    BranchGrows(files, self, p, m, r, depth);
    BranchGrows(files, self, q, m', s, depth);
    DivergedExtends(Record(r, p.asked).used, Record(s, q.asked).used,
      ObserveItems(files, self, p.body, Record(r, p.asked), depth).used,
      ObserveItems(files, self, q.body, Record(s, q.asked), depth).used);
  }

  lemma BranchGrows(files: Files, self: FileId, p: Selection, m: MacroMap, r: Run, depth: nat)
    requires Faithful(m, r)
    ensures Record(r, p.asked).used <= ObserveItems(files, self, p.body, Record(r, p.asked), depth).used
  {
    RecordPairsFaithful(m, r, Valued(r.state, p.asked));
    ObserveItemsIsExec(files, self, p.body, m, Record(r, p.asked), depth);
  }

  /** The pairs an inclusion of `f` hands to the including context. */
  ghost function IncludePath(files: Files, f: FileId, m: MacroMap, depth: nat): seq<Macro> {
    if Lookup(m, OnceMarker(f)) != Undefined || depth == 0 then
      Valued(m, [OnceMarker(f)])
    else
      ObserveFile(files, f, m, depth - 1).used
  }

  lemma IncludeApart(files: Files, self: FileId, f: FileId, r: Run, s: Run, depth: nat)
    requires InStep(r, s)
    requires Lookup(r.state, OnceMarker(f)) != Lookup(s.state, OnceMarker(f))
    ensures var item := Include(Found(f));
      Diverged(ObserveItem(files, self, item, r, depth).used, ObserveItem(files, self, item, s, depth).used)
  {
    var ps, qs := IncludePath(files, f, r.state, depth), IncludePath(files, f, s.state, depth);
    if depth > 0 {
      ObserveFileIsExec(files, f, r.state, depth - 1);
      ObserveFileIsExec(files, f, s.state, depth - 1);
    }
    assert DivergedAt(ps, qs, 0);
    RecordApart(r, s, ps, qs);
  }

  lemma AbsorbInStep(r: Run, s: Run, c: Run, d: Run, f: FileId)
    requires InStep(r, s) && Matches(c.used, r.state) && Matches(d.used, s.state)
    requires InStep(c, d) || Diverged(c.used, d.used)
    requires c.state == r.state + Changes(c) && d.state == s.state + Changes(d)
    ensures var a := Absorb(r, c.used, Changes(c), c.headers + {f}).(tooDeep := r.tooDeep || c.tooDeep);
      var b := Absorb(s, d.used, Changes(d), d.headers + {f}).(tooDeep := s.tooDeep || d.tooDeep);
      InStep(a, b) || Diverged(a.used, b.used)
  {
    if Diverged(c.used, d.used) {
      RecordApart(r, s, c.used, d.used);
    } else {
      RecordSameInStep(r, s, c.used);
      assert Changes(c) == Changes(d);
    }
  }

  // --- Whole files -----------------------------------------------------------------

  lemma FileInStep(files: Files, f: FileId, m: MacroMap, m': MacroMap, depth: nat)
    requires AllDecided(files) && AllSteady(files)
    ensures var a, b := ObserveFile(files, f, m, depth), ObserveFile(files, f, m', depth);
      (InStep(a, b) && Changes(a) == Changes(b)) || Diverged(a.used, b.used)
  {
    EnterFaithful(f, m);
    EnterFaithful(f, m');
    var a, b := ObserveFile(files, f, m, depth), ObserveFile(files, f, m', depth);
    if Lookup(m, OnceMarker(f)) == Lookup(m', OnceMarker(f)) {
      ItemsInStep(files, f, files(f), m, Enter(f, m), m', Enter(f, m'), depth);
      if InStep(a, b) {
        assert Changes(a) == Changes(b);
      }
    } else {
      ObserveFileIsExec(files, f, m, depth);
      ObserveFileIsExec(files, f, m', depth);
      assert DivergedAt(a.used, b.used, 0);
    }
  }

  lemma {:induction false} ObserveItemsDeeper(files: Files, self: FileId, items: Items, r: Run, depth: nat)
    requires !ObserveItems(files, self, items, r, depth).tooDeep
    ensures ObserveItems(files, self, items, r, depth + 1) == ObserveItems(files, self, items, r, depth)
    decreases depth, Size(items), 1
  {
    if items.Then? {
      StaysTooDeep(files, self, items.tail, ObserveItem(files, self, items.head, r, depth), depth);
      ObserveItemDeeper(files, self, items.head, r, depth);
      ObserveItemsDeeper(files, self, items.tail, ObserveItem(files, self, items.head, r, depth), depth);
    }
  }

  lemma {:induction false} ObserveItemDeeper(files: Files, self: FileId, item: Item, r: Run, depth: nat)
    requires !ObserveItem(files, self, item, r, depth).tooDeep
    ensures ObserveItem(files, self, item, r, depth + 1) == ObserveItem(files, self, item, r, depth)
    decreases depth, ItemSize(item), 2
  {
    match item
    case Include(Found(f)) =>
      if Lookup(r.state, OnceMarker(f)) == Undefined {
        ObserveItemsDeeper(files, f, files(f), Enter(f, r.state), depth - 1);
      }
    case If(test, body, rest) =>
      if ItemCommits(item, r.state) {
        var s := Select(test, body, rest, r.state);
        ObserveItemsDeeper(files, self, s.body, Record(r, s.asked), depth);
      }
    case _ =>
  }

  lemma {:induction false} StaysTooDeep(files: Files, self: FileId, items: Items, r: Run, depth: nat)
    ensures r.tooDeep ==> ObserveItems(files, self, items, r, depth).tooDeep
    decreases Size(items), 1
  {
    if items.Then? {
      if items.head.If? {
        var s := Select(items.head.test, items.head.body, items.head.rest, r.state);
        assert ItemSize(items.head) == 1 + Size(items.head.body) + RestSize(items.head.rest);
        StaysTooDeep(files, self, s.body, Record(r, s.asked), depth);
      }
      StaysTooDeep(files, self, items.tail, ObserveItem(files, self, items.head, r, depth), depth);
    }
  }

  lemma {:induction false} ObserveFileDeeper(files: Files, f: FileId, m: MacroMap, depth: nat, more: nat)
    requires !ObserveFile(files, f, m, depth).tooDeep && depth <= more
    ensures ObserveFile(files, f, m, more) == ObserveFile(files, f, m, depth)
    decreases more
  {
    if depth < more {
      ObserveFileDeeper(files, f, m, depth, more - 1);
      ObserveItemsDeeper(files, f, files(f), Enter(f, m), more - 1);
    }
  }

  /** Across all runs of one file, from any states, the used lists are consistent; each
      is nonempty and begins with the file's own #pragma once marker. */
  lemma KeysAreConsistent(files: Files, f: FileId, m: MacroMap, m': MacroMap, depth: nat, depth': nat)
    requires AllDecided(files) && AllSteady(files)
    requires !ObserveFile(files, f, m, depth).tooDeep && !ObserveFile(files, f, m', depth').tooDeep
    ensures var u, v := ObserveFile(files, f, m, depth).used, ObserveFile(files, f, m', depth').used;
      Consistent(u, v) && u != [] && u[0].0 == OnceMarker(f)
  {
    var more := if depth <= depth' then depth' else depth;
    ObserveFileDeeper(files, f, m, depth, more);
    ObserveFileDeeper(files, f, m', depth', more);
    FileInStep(files, f, m, m', more);
    DivergedIsConsistent(ObserveFile(files, f, m, more).used, ObserveFile(files, f, m', more).used);
    ObserveFileIsExec(files, f, m, depth);
  }

  /** A state that matches a recorded path reproduces the run that recorded it, path
      included. */
  lemma MatchingStateReplays(files: Files, f: FileId, m: MacroMap, m': MacroMap, depth: nat)
    requires AllDecided(files) && AllSteady(files)
    requires Matches(ObserveFile(files, f, m, depth).used, m')
    ensures var a, b := ObserveFile(files, f, m, depth), ObserveFile(files, f, m', depth);
      b.used == a.used && Changes(b) == Changes(a) && b.headers == a.headers && b.tooDeep == a.tooDeep
  {
    var a, b := ObserveFile(files, f, m, depth), ObserveFile(files, f, m', depth);
    FileInStep(files, f, m, m', depth);
    ObserveFileIsExec(files, f, m', depth);
    forall k: nat
      ensures !DivergedAt(a.used, b.used, k)
    {
      if k < |a.used| && k < |b.used| && a.used[k].0 == b.used[k].0 {
        assert a.used[k].1 == b.used[k].1;
      }
    }
  }
}
