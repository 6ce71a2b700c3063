/** The directives of a file, and what preprocessing them does when nothing is
    remembered between inclusions. */
module Directives {
  import opened Macros

  /** The condition of an #if or #elif: it asks for macros one after the other, may
      choose the next question by the answer, and decides on all the answers. */
  datatype Test =
    | Decide(holds: seq<MacroValue> -> bool)
    | Ask(name: ProgramMacro, choose: MacroValue -> bool, yes: Test, no: Test)

  datatype Items = End | Then(head: Item, tail: Items)

  datatype Item =
    | Define(name: ProgramMacro, text: string)
    | Undef(name: ProgramMacro)
    | PragmaOnce
    | Include(target: Target)
    | If(test: Test, body: Items, rest: Rest)

  /** What follows a branch of a conditional. */
  datatype Rest = Endif | Elif(test: Test, body: Items, rest: Rest) | Else(body: Items)

  /** The fixed result of looking the included name up on the search path. */
  datatype Target = Missing | Found(file: FileId)

  type Files = FileId -> Items

  function Size(items: Items): nat {
    match items
    case End => 0
    case Then(head, tail) => 1 + ItemSize(head) + Size(tail)
  }

  function ItemSize(item: Item): nat {
    match item
    case If(_, body, rest) => 1 + Size(body) + RestSize(rest)
    case _ => 0
  }

  function RestSize(rest: Rest): nat {
    match rest
    case Endif => 0
    case Elif(_, body, more) => 1 + Size(body) + RestSize(more)
    case Else(body) => 1 + Size(body)
  }

  /** The verdict of a test and the macros it asked for, in order. */
  datatype Verdict = Verdict(taken: bool, asked: seq<ProgramMacro>)

  function Evaluate(test: Test, m: MacroMap, seen: seq<MacroValue>): Verdict {
    match test
    case Decide(holds) => Verdict(holds(seen), [])
    case Ask(name, choose, yes, no) =>
      var value := Lookup(m, name);
      var v := Evaluate(if choose(value) then yes else no, m, seen + [value]);
      Verdict(v.taken, [name] + v.asked)
  }

  /** The branch of a conditional that is executed, and every macro asked for on the
      way to it. No test is evaluated after a branch has been taken. */
  datatype Selection = Selection(body: Items, asked: seq<ProgramMacro>)

  function Select(test: Test, body: Items, rest: Rest, m: MacroMap): (s: Selection)
    ensures Size(s.body) <= Size(body) + RestSize(rest)
    decreases rest, 1
  {
    var v := Evaluate(test, m, []);
    if v.taken then
      Selection(body, v.asked)
    else
      var s := SelectRest(rest, m);
      Selection(s.body, v.asked + s.asked)
  }

  function SelectRest(rest: Rest, m: MacroMap): (s: Selection)
    ensures Size(s.body) <= RestSize(rest)
    decreases rest, 0
  {
    match rest
    case Endif => Selection(End, [])
    case Elif(test, body, more) => Select(test, body, more, m)
    case Else(body) => Selection(body, [])
  }

  /** The macros a piece of text leaves changed, with their new values, and the files
      it includes. `tooDeep` says that the include nesting limit was hit. */
  datatype Outcome = Outcome(changes: MacroMap, headers: set<FileId>, tooDeep: bool)

  const NOTHING := Outcome(map[], {}, false)

  const ONCE_VALUE := Text(" 1")

  ghost function ExecItems(files: Files, self: FileId, items: Items, m: MacroMap, depth: nat): Outcome
    decreases depth, Size(items), 1
  {
    match items
    case End => NOTHING
    case Then(head, tail) =>
      var a := ExecItem(files, self, head, m, depth);
      var b := ExecItems(files, self, tail, m + a.changes, depth);
      Outcome(a.changes + b.changes, a.headers + b.headers, a.tooDeep || b.tooDeep)
  }

  ghost function ExecItem(files: Files, self: FileId, item: Item, m: MacroMap, depth: nat): Outcome
    decreases depth, ItemSize(item), 2
  {
    match item
    case Define(name, text) => Outcome(map[name := Text(text)], {}, false)
    case Undef(name) => Outcome(map[name := Undefined], {}, false)
    case PragmaOnce => Outcome(map[OnceMarker(self) := ONCE_VALUE], {}, false)
    case Include(Missing) => NOTHING
    case Include(Found(f)) =>
      if Lookup(m, OnceMarker(f)) != Undefined then
        Outcome(map[], {f}, false)
      else if depth == 0 then
        Outcome(map[], {f}, true)
      else
        var o := ExecItems(files, f, files(f), m, depth - 1);
        o.(headers := o.headers + {f})
    case If(test, body, rest) =>
      ExecItems(files, self, Select(test, body, rest, m).body, m, depth)
  }

  /** Preprocessing a whole file. */
  ghost function ExecFile(files: Files, f: FileId, m: MacroMap, depth: nat): Outcome {
    ExecItems(files, f, files(f), m, depth)
  }

  /** What the line scan of a skipped branch looks for: a #define, #undef or #include
      anywhere in the text, whatever it would do. */
  predicate HasEffectText(items: Items) {
    match items
    case End => false
    case Then(head, tail) => ItemHasEffectText(head) || HasEffectText(tail)
  }

  predicate ItemHasEffectText(item: Item) {
    match item
    case Define(_, _) => true
    case Undef(_) => true
    case Include(_) => true
    case PragmaOnce => false
    case If(_, body, rest) => HasEffectText(body) || RestHasEffectText(rest)
  }

  predicate RestHasEffectText(rest: Rest) {
    match rest
    case Endif => false
    case Elif(_, body, more) => HasEffectText(body) || RestHasEffectText(more)
    case Else(body) => HasEffectText(body)
  }

  /** No #pragma once anywhere inside. */
  predicate NoOnce(items: Items) {
    match items
    case End => true
    case Then(head, tail) => !head.PragmaOnce? && OnceOutside(head) && NoOnce(tail)
  }

  /** If the item is a conditional, no branch of it holds a #pragma once. */
  predicate OnceOutside(item: Item) {
    match item
    case If(_, body, rest) => NoOnce(body) && RestNoOnce(rest)
    case _ => true
  }

  predicate RestNoOnce(rest: Rest) {
    match rest
    case Endif => true
    case Elif(_, body, more) => NoOnce(body) && RestNoOnce(more)
    case Else(body) => NoOnce(body)
  }

  /** #pragma once occurs only outside conditionals. */
  predicate OnceAtTop(items: Items) {
    match items
    case End => true
    case Then(head, tail) => OnceOutside(head) && OnceAtTop(tail)
  }

  /** Every #include in the text names a file that is found. */
  predicate Resolved(items: Items) {
    match items
    case End => true
    case Then(head, tail) => ItemResolved(head) && Resolved(tail)
  }

  predicate ItemResolved(item: Item) {
    match item
    case Include(target) => target.Found?
    case If(_, body, rest) => Resolved(body) && RestResolved(rest)
    case _ => true
  }

  predicate RestResolved(rest: Rest) {
    match rest
    case Endif => true
    case Elif(_, body, more) => Resolved(body) && RestResolved(more)
    case Else(body) => Resolved(body)
  }

  ghost predicate AllOnceAtTop(files: Files) {
    forall f :: OnceAtTop(files(f))
  }

  // --- Selecting a branch depends only on the macros it asked for -----------------

  lemma {:induction false} EvaluateAgrees(test: Test, a: MacroMap, b: MacroMap, seen: seq<MacroValue>)
    requires forall n :: n in Evaluate(test, a, seen).asked ==> Lookup(a, n) == Lookup(b, n)
    ensures Evaluate(test, a, seen) == Evaluate(test, b, seen)
  {
    match test
    case Decide(_) =>
    case Ask(name, choose, yes, no) =>
      var value := Lookup(a, name);
      var next := if choose(value) then yes else no;
      var v := Evaluate(next, a, seen + [value]);
      assert Evaluate(test, a, seen).asked == [name] + v.asked;
      assert name in Evaluate(test, a, seen).asked;
      EvaluateAgrees(next, a, b, seen + [value]);
  }

  lemma {:induction false} SelectAgrees(test: Test, body: Items, rest: Rest, a: MacroMap, b: MacroMap)
    requires forall n :: n in Select(test, body, rest, a).asked ==> Lookup(a, n) == Lookup(b, n)
    ensures Select(test, body, rest, a) == Select(test, body, rest, b)
    decreases rest
  {
    EvaluateAgrees(test, a, b, []);
    if !Evaluate(test, a, []).taken && rest.Elif? {
      assert Select(test, body, rest, a).asked == Evaluate(test, a, []).asked + SelectRest(rest, a).asked;
      SelectAgrees(rest.test, rest.body, rest.rest, a, b);
    }
  }

  /** The states differ in markers only, which no program can ask for. */
  ghost predicate SameProgram(a: MacroMap, b: MacroMap) {
    forall n: ProgramMacro :: Lookup(a, n) == Lookup(b, n)
  }

  lemma {:induction false} EvaluateSameProgram(test: Test, a: MacroMap, b: MacroMap, seen: seq<MacroValue>)
    requires SameProgram(a, b)
    ensures Evaluate(test, a, seen) == Evaluate(test, b, seen)
  {
    if test.Ask? {
      var value := Lookup(a, test.name);
      EvaluateSameProgram(if test.choose(value) then test.yes else test.no, a, b, seen + [value]);
    }
  }

  lemma {:induction false} SelectSameProgram(test: Test, body: Items, rest: Rest, a: MacroMap, b: MacroMap)
    requires SameProgram(a, b)
    ensures Select(test, body, rest, a) == Select(test, body, rest, b)
    decreases rest
  {
    EvaluateSameProgram(test, a, b, []);
    if rest.Elif? {
      SelectSameProgram(rest.test, rest.body, rest.rest, a, b);
    }
  }

  // --- Depth only matters while the limit is hit ----------------------------------

  lemma {:induction false} ExecItemsDeeper(files: Files, self: FileId, items: Items, m: MacroMap, depth: nat)
    requires !ExecItems(files, self, items, m, depth).tooDeep
    ensures ExecItems(files, self, items, m, depth + 1) == ExecItems(files, self, items, m, depth)
    decreases depth, Size(items), 1
  {
    match items
    case End =>
    case Then(head, tail) =>
      ExecItemDeeper(files, self, head, m, depth);
      ExecItemsDeeper(files, self, tail, m + ExecItem(files, self, head, m, depth).changes, depth);
  }

  lemma {:induction false} ExecItemDeeper(files: Files, self: FileId, item: Item, m: MacroMap, depth: nat)
    requires !ExecItem(files, self, item, m, depth).tooDeep
    ensures ExecItem(files, self, item, m, depth + 1) == ExecItem(files, self, item, m, depth)
    decreases depth, ItemSize(item), 2
  {
    match item
    case Include(Found(f)) =>
      if Lookup(m, OnceMarker(f)) == Undefined {
        ExecItemsDeeper(files, f, files(f), m, depth - 1);
      }
    case If(test, body, rest) =>
      ExecItemsDeeper(files, self, Select(test, body, rest, m).body, m, depth);
    case _ =>
  }
}
