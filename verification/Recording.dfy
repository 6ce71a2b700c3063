/** The read and write sets of a header context, and the report an ideal observer
    makes of a run: a conditional contributes the macros it asked for exactly when it
    could have mattered. */
module Recording {
  import opened Macros
  import opened Directives

  /** `used` lists the macros read before being changed, with the values they had when
      the file was entered; `changed` the macros written. */
  datatype Run = Run(
    state: MacroMap, used: seq<Macro>, changed: set<MacroName>, headers: set<FileId>, tooDeep: bool)

  function Add(used: seq<Macro>, changed: set<MacroName>, p: Macro): seq<Macro> {
    if p.0 in changed || Mentions(used, p.0) then used else used + [p]
  }

  function AddAll(used: seq<Macro>, changed: set<MacroName>, ps: seq<Macro>): seq<Macro>
    decreases |ps|
  {
    if ps == [] then used else AddAll(Add(used, changed, ps[0]), changed, ps[1..])
  }

  function Valued(m: MacroMap, names: seq<MacroName>): (ps: seq<Macro>)
    ensures |ps| == |names|
    ensures forall i :: 0 <= i < |names| ==> ps[i] == (names[i], Lookup(m, names[i]))
  {
    seq(|names|, i requires 0 <= i < |names| => (names[i], Lookup(m, names[i])))
  }

  function RecordPairs(r: Run, ps: seq<Macro>): Run {
    r.(used := AddAll(r.used, r.changed, ps))
  }

  function Record(r: Run, names: seq<MacroName>): Run {
    RecordPairs(r, Valued(r.state, names))
  }

  function Write(r: Run, name: MacroName, value: MacroValue): Run {
    r.(state := r.state[name := value], changed := r.changed + {name})
  }

  /** A #pragma once sets the file's marker; the scanner does not take it for an effect. */
  function MarkIf(r: Run, self: FileId, once: bool): Run {
    if once then Write(r, OnceMarker(self), ONCE_VALUE) else r
  }

  /** What a finished context says it changed: the final value of every written macro. */
  function Changes(r: Run): MacroMap {
    map n | n in r.changed :: Lookup(r.state, n)
  }

  /** A file is entered: the first macro read is always its #pragma once marker. */
  function Enter(f: FileId, m: MacroMap): Run {
    Run(m, [(OnceMarker(f), Lookup(m, OnceMarker(f)))], {}, {}, false)
  }

  /** What a child leaves to the context that included it. */
  function Absorb(r: Run, path: seq<Macro>, changes: MacroMap, headers: set<FileId>): Run {
    var r' := RecordPairs(r, path);
    r'.(state := r.state + changes, changed := r.changed + changes.Keys, headers := r.headers + headers)
  }

  /** A file whose marker is set is replaced by an empty one. */
  function SkipOnce(r: Run, f: FileId): Run {
    var r' := Record(r, [OnceMarker(f)]);
    r'.(headers := r.headers + {f})
  }

  // --- When a conditional matters --------------------------------------------------

  /** Executing the items from `m` performs an effect, or skips text that holds one. */
  predicate Commits(items: Items, m: MacroMap)
    decreases Size(items), 1
  {
    match items
    case End => false
    case Then(head, tail) => ItemCommits(head, m) || Commits(tail, m)
  }

  predicate ItemCommits(item: Item, m: MacroMap)
    decreases ItemSize(item), 2
  {
    match item
    case Define(_, _) => true
    case Undef(_) => true
    case PragmaOnce => false
    case Include(target) => target.Found?
    case If(test, body, rest) => BranchesCommit(test, body, rest, false, m)
  }

  predicate BranchesCommit(test: Test, body: Items, rest: Rest, anyTaken: bool, m: MacroMap)
    decreases Size(body) + RestSize(rest), 3
  {
    var taken := !anyTaken && Evaluate(test, m, []).taken;
    || (if taken then Commits(body, m) else HasEffectText(body))
    || RestCommits(rest, anyTaken || taken, m)
  }

  predicate RestCommits(rest: Rest, anyTaken: bool, m: MacroMap)
    decreases RestSize(rest), 2
  {
    match rest
    case Endif => false
    case Elif(test, body, more) => BranchesCommit(test, body, more, anyTaken, m)
    case Else(body) => if anyTaken then HasEffectText(body) else Commits(body, m)
  }

  /** Executing the items from `m` runs a #pragma once. It need not look at what the text
      changes: this is asked of text that does not commit. */
  predicate RunsOnce(items: Items, m: MacroMap)
    decreases Size(items), 1
  {
    match items
    case End => false
    case Then(head, tail) => ItemRunsOnce(head, m) || RunsOnce(tail, m)
  }

  predicate ItemRunsOnce(item: Item, m: MacroMap)
    decreases ItemSize(item), 2
  {
    match item
    case PragmaOnce => true
    case If(test, body, rest) => RunsOnce(Select(test, body, rest, m).body, m)
    case _ => false
  }

  lemma {:induction false} ItemsSameProgram(items: Items, a: MacroMap, b: MacroMap)
    requires SameProgram(a, b)
    ensures Commits(items, a) == Commits(items, b) && RunsOnce(items, a) == RunsOnce(items, b)
    decreases Size(items), 1
  {
    if items.Then? {
      ItemSameProgram(items.head, a, b);
      ItemsSameProgram(items.tail, a, b);
    }
  }

  lemma {:induction false} ItemSameProgram(item: Item, a: MacroMap, b: MacroMap)
    requires SameProgram(a, b)
    ensures ItemCommits(item, a) == ItemCommits(item, b) && ItemRunsOnce(item, a) == ItemRunsOnce(item, b)
    decreases ItemSize(item), 2
  {
    if item.If? {
      SelectSameProgram(item.test, item.body, item.rest, a, b);
      ItemsSameProgram(Select(item.test, item.body, item.rest, a).body, a, b);
      BranchesSameProgram(item.test, item.body, item.rest, false, a, b);
    }
  }

  lemma {:induction false} BranchesSameProgram(test: Test, body: Items, rest: Rest, anyTaken: bool, a: MacroMap, b: MacroMap)
    requires SameProgram(a, b)
    ensures BranchesCommit(test, body, rest, anyTaken, a) == BranchesCommit(test, body, rest, anyTaken, b)
    decreases Size(body) + RestSize(rest), 3
  {
    EvaluateSameProgram(test, a, b, []);
    ItemsSameProgram(body, a, b);
    var anyTaken' := anyTaken || Evaluate(test, a, []).taken;
    match rest
    case Endif =>
    case Elif(t, body', more) => BranchesSameProgram(t, body', more, anyTaken', a, b);
    case Else(body') => ItemsSameProgram(body', a, b);
  }

  // --- The observer ---------------------------------------------------------------

  ghost function ObserveItems(files: Files, self: FileId, items: Items, r: Run, depth: nat): Run
    decreases depth, Size(items), 1
  {
    match items
    case End => r
    case Then(head, tail) =>
      ObserveItems(files, self, tail, ObserveItem(files, self, head, r, depth), depth)
  }

  ghost function ObserveItem(files: Files, self: FileId, item: Item, r: Run, depth: nat): Run
    decreases depth, ItemSize(item), 2
  {
    match item
    case Define(name, text) => Write(r, name, Text(text))
    case Undef(name) => Write(r, name, Undefined)
    case PragmaOnce => MarkIf(r, self, true)
    case Include(Missing) => r
    case Include(Found(f)) =>
      if Lookup(r.state, OnceMarker(f)) != Undefined then
        SkipOnce(r, f)
      else if depth == 0 then
        SkipOnce(r, f).(tooDeep := true)
      else
        var c := ObserveItems(files, f, files(f), Enter(f, r.state), depth - 1);
        Absorb(r, c.used, Changes(c), c.headers + {f}).(tooDeep := r.tooDeep || c.tooDeep)
    case If(test, body, rest) =>
      if ItemCommits(item, r.state) then
        var s := Select(test, body, rest, r.state);
        ObserveItems(files, self, s.body, Record(r, s.asked), depth)
      else
        MarkIf(r, self, ItemRunsOnce(item, r.state))
  }

  ghost function ObserveFile(files: Files, f: FileId, m: MacroMap, depth: nat): Run {
    ObserveItems(files, f, files(f), Enter(f, m), depth)
  }

  // --- Lists of used macros -------------------------------------------------------

  lemma {:induction false} AddAllConcat(used: seq<Macro>, changed: set<MacroName>, a: seq<Macro>, b: seq<Macro>)
    ensures AddAll(AddAll(used, changed, a), changed, b) == AddAll(used, changed, a + b)
    decreases |a|
  {
    if a == [] {
      assert a + b == b;
    } else {
      assert (a + b)[1..] == a[1..] + b;
      AddAllConcat(Add(used, changed, a[0]), changed, a[1..], b);
    }
  }

  lemma {:induction false} AddAllMentions(used: seq<Macro>, changed: set<MacroName>, ps: seq<Macro>)
    ensures used <= AddAll(used, changed, ps)
    ensures forall n :: Mentions(used, n) ==> Mentions(AddAll(used, changed, ps), n)
    ensures forall i :: 0 <= i < |ps| ==> ps[i].0 in changed || Mentions(AddAll(used, changed, ps), ps[i].0)
    ensures DistinctNames(used) ==> DistinctNames(AddAll(used, changed, ps))
    decreases |ps|
  {
    if ps != [] {
      var u := Add(used, changed, ps[0]);
      MentionsAppend(used, ps[0]);
      AddAllMentions(u, changed, ps[1..]);
      assert Mentions(u, ps[0].0) || ps[0].0 in changed;
      forall i | 0 <= i < |ps|
        ensures ps[i].0 in changed || Mentions(AddAll(used, changed, ps), ps[i].0)
      {
        if i > 0 {
          assert ps[i] == ps[1..][i - 1];
        }
      }
    }
  }

  /** Pairs are only ever appended, and only with values taken from the list added. */
  lemma {:induction false} AddAllOrigin(used: seq<Macro>, changed: set<MacroName>, ps: seq<Macro>, k: nat)
    requires |used| <= k < |AddAll(used, changed, ps)|
    ensures exists i :: 0 <= i < |ps| && ps[i] == AddAll(used, changed, ps)[k]
    ensures AddAll(used, changed, ps)[k].0 !in changed
    decreases |ps|
  {
    if ps != [] {
      var u := Add(used, changed, ps[0]);
      AddAllMentions(u, changed, ps[1..]);
      if |u| <= k {
        AddAllOrigin(u, changed, ps[1..], k);
        var i :| 0 <= i < |ps[1..]| && ps[1..][i] == AddAll(used, changed, ps)[k];
        assert ps[i + 1] == AddAll(used, changed, ps)[k];
      } else {
        assert ps[0] == AddAll(used, changed, ps)[k];
      }
    }
  }

  lemma RecordConcat(r: Run, a: seq<MacroName>, b: seq<MacroName>)
    ensures Record(Record(r, a), b) == Record(r, a + b)
  {
    assert Valued(r.state, a + b) == Valued(r.state, a) + Valued(r.state, b);
    AddAllConcat(r.used, r.changed, Valued(r.state, a), Valued(r.state, b));
  }
}
