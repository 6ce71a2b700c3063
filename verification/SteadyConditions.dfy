/** Conditionals of which it is certain beforehand whether they commit their reads. */
module SteadyConditions {
  import opened Macros
  import opened Directives
  import opened Recording
  import opened DeferredReads

  /** Whether the item commits does not depend on the state. */
  ghost predicate Steady(item: Item) {
    forall m: MacroMap, m': MacroMap :: ItemCommits(item, m) == ItemCommits(item, m')
  }

  /** So it is with every conditional in the text. */
  ghost predicate SteadyItems(items: Items) {
    match items
    case End => true
    case Then(head, tail) => SteadyItem(head) && SteadyItems(tail)
  }

  ghost predicate SteadyItem(item: Item) {
    match item
    case If(_, body, rest) => Steady(item) && SteadyItems(body) && SteadyRest(rest)
    case _ => true
  }

  ghost predicate SteadyRest(rest: Rest) {
    match rest
    case Endif => true
    case Elif(_, body, more) => SteadyItems(body) && SteadyRest(more)
    case Else(body) => SteadyItems(body)
  }

  ghost predicate AllSteady(files: Files) {
    forall f :: SteadyItems(files(f))
  }

  lemma {:induction false} SelectSteady(test: Test, body: Items, rest: Rest, m: MacroMap)
    requires SteadyItems(body) && SteadyRest(rest)
    ensures SteadyItems(Select(test, body, rest, m).body)
    decreases rest
  {
    if !Evaluate(test, m, []).taken && rest.Elif? {
      SelectSteady(rest.test, rest.body, rest.rest, m);
    }
  }

  // --- A condition on the text alone -----------------------------------------------

  /** Includes that are not found occur only outside conditionals. */
  predicate MissingOutside(items: Items) {
    match items
    case End => true
    case Then(head, tail) => (head.If? ==> ItemResolved(head)) && MissingOutside(tail)
  }

  lemma {:induction false} MissingOutsideIsSteady(items: Items)
    requires MissingOutside(items)
    ensures SteadyItems(items)
  {
    if items.Then? {
      if items.head.If? {
        ResolvedItemIsSteady(items.head);
      }
      MissingOutsideIsSteady(items.tail);
    }
  }

  lemma {:induction false} ResolvedIsSteady(items: Items)
    requires Resolved(items)
    ensures SteadyItems(items)
  {
    if items.Then? {
      ResolvedItemIsSteady(items.head);
      ResolvedIsSteady(items.tail);
    }
  }

  lemma {:induction false} ResolvedItemIsSteady(item: Item)
    requires ItemResolved(item)
    ensures SteadyItem(item)
  {
    if item.If? {
      forall m: MacroMap
        ensures ItemCommits(item, m) == ItemHasEffectText(item)
      {
        ResolvedItemCommits(item, m);
      }
      ResolvedIsSteady(item.body);
      ResolvedRestIsSteady(item.rest);
    }
  }

  lemma {:induction false} ResolvedRestIsSteady(rest: Rest)
    requires RestResolved(rest)
    ensures SteadyRest(rest)
  {
    match rest
    case Endif =>
    case Elif(_, body, more) =>
      ResolvedIsSteady(body);
      ResolvedRestIsSteady(more);
    case Else(body) => ResolvedIsSteady(body);
  }
}
