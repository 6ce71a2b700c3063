/** Which branch of a conditional is executed, and what its tests ask, said without running
    through it. */
module Conditionals {
  import opened Macros
  import opened Directives

  /** One branch; the last one of a conditional may have no test. */
  datatype Branch = When(test: Test, body: Items) | Otherwise(body: Items)

  function Branches(test: Test, body: Items, rest: Rest): seq<Branch>
    decreases rest
  {
    [When(test, body)] +
    match rest
    case Endif => []
    case Elif(test', body', more) => Branches(test', body', more)
    case Else(body') => [Otherwise(body')]
  }

  predicate Holds(b: Branch, m: MacroMap) {
    b.When? ==> Evaluate(b.test, m, []).taken
  }

  function AsksFor(b: Branch, m: MacroMap): seq<ProgramMacro> {
    if b.When? then Evaluate(b.test, m, []).asked else []
  }

  function AllAsked(bs: seq<Branch>, m: MacroMap): seq<ProgramMacro> {
    if bs == [] then [] else AsksFor(bs[0], m) + AllAsked(bs[1..], m)
  }

  predicate FirstToHold(bs: seq<Branch>, k: nat, m: MacroMap) {
    k <= |bs| && (forall i :: 0 <= i < k ==> !Holds(bs[i], m)) && (k < |bs| ==> Holds(bs[k], m))
  }

  /** The first branch whose test holds is executed, and nothing if there is none; the tests
      up to that one are evaluated and no others. */
  lemma {:induction false} FirstBranchIsTaken(test: Test, body: Items, rest: Rest, m: MacroMap, k: nat)
    requires FirstToHold(Branches(test, body, rest), k, m)
    ensures var bs := Branches(test, body, rest);
      && Select(test, body, rest, m).body == (if k < |bs| then bs[k].body else End)
      && Select(test, body, rest, m).asked == AllAsked(if k < |bs| then bs[..k + 1] else bs, m)
    decreases rest
  {
    var bs := Branches(test, body, rest);
    assert bs[0] == When(test, body);
    if k == 0 {
      assert bs[..1] == [bs[0]];
      assert AllAsked([bs[0]], m) == AsksFor(bs[0], m) + AllAsked([], m);
    } else {
      var more := bs[1..];
      assert FirstToHold(more, k - 1, m) by {
        assert forall i :: 0 <= i < k - 1 ==> more[i] == bs[i + 1];
      }
      assert k < |bs| ==> bs[..k + 1][1..] == more[..k];
      match rest
      case Endif =>
      case Elif(test', body', rest') => FirstBranchIsTaken(test', body', rest', m, k - 1);
      case Else(body') =>
        assert more == [Otherwise(body')] && more[..1] == more;
        assert AllAsked(more, m) == AsksFor(more[0], m) + AllAsked([], m);
    }
  }

  /** The answers lead through the test to a decision, which made on `all` of them is
      `verdict`. */
  predicate Decides(test: Test, answers: seq<MacroValue>, all: seq<MacroValue>, verdict: bool) {
    match test
    case Decide(holds) => answers == [] && verdict == holds(all)
    case Ask(_, choose, yes, no) =>
      answers != [] && Decides(if choose(answers[0]) then yes else no, answers[1..], all, verdict)
  }

  function Answers(m: MacroMap, names: seq<ProgramMacro>): (vs: seq<MacroValue>)
    ensures |vs| == |names| && forall i :: 0 <= i < |names| ==> vs[i] == Lookup(m, names[i])
  {
    seq(|names|, i requires 0 <= i < |names| => Lookup(m, names[i]))
  }

  lemma AnswersCons(m: MacroMap, name: ProgramMacro, names: seq<ProgramMacro>)
    ensures Answers(m, [name] + names) == [Lookup(m, name)] + Answers(m, names)
  {
  }

  lemma AskDecides(test: Test, value: MacroValue, answers: seq<MacroValue>, all: seq<MacroValue>, verdict: bool)
    requires test.Ask? && Decides(if test.choose(value) then test.yes else test.no, answers, all, verdict)
    ensures Decides(test, [value] + answers, all, verdict)
  {
    assert ([value] + answers)[1..] == answers;
  }

  /** A test decides on the values of all the macros it has asked for, in the order asked,
      by the decision these values lead to. */
  lemma {:induction false} DecidesOnAnswers(test: Test, m: MacroMap, seen: seq<MacroValue>)
    ensures var v := Evaluate(test, m, seen);
      Decides(test, Answers(m, v.asked), seen + Answers(m, v.asked), v.taken)
  {
    var v := Evaluate(test, m, seen);
    match test
    case Decide(_) => assert seen + Answers(m, v.asked) == seen;
    case Ask(name, choose, yes, no) =>
      var value := Lookup(m, name);
      var next := if choose(value) then yes else no;
      var v' := Evaluate(next, m, seen + [value]);
      var rest := Answers(m, v'.asked);
      DecidesOnAnswers(next, m, seen + [value]);
      AnswersCons(m, name, v'.asked);
      assert seen + [value] + rest == seen + ([value] + rest);
      AskDecides(test, value, rest, seen + ([value] + rest), v.taken);
  }

  /** #undef leaves a macro as unknown as one that was never defined. */
  lemma UndefinedIsUnknown(m: MacroMap, name: MacroName, other: MacroName)
    ensures Lookup(m[name := Undefined], other) == Lookup(m - {name}, other)
  {
  }
}
