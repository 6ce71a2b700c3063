/** The objects that watch one header being scanned. */
module HeaderContexts {
  import opened Macros
  import opened Directives
  import opened Recording
  import opened Replay
  import opened Deferral

  /** A cached result together with the path that leads to it. */
  datatype Hit = Miss | Hit(path: seq<Macro>, entry: Entry)

  class HeaderCtx {
    const macroState: MacroState
    const parent: HeaderCtx?
    const replaced: bool
    var cacheHit: Hit
    var usedHere: seq<Macro>
    var changedHere: set<MacroName>
    var includedHeaders: set<FileId>

    constructor (macroState: MacroState, parent: HeaderCtx?, replaced: bool, cacheHit: Hit)
      ensures this.macroState == macroState && this.parent == parent && this.replaced == replaced
      ensures this.cacheHit == cacheHit && usedHere == [] && changedHere == {} && includedHeaders == {}
    {
      this.macroState, this.parent, this.replaced, this.cacheHit := macroState, parent, replaced, cacheHit;
      usedHere, changedHere, includedHeaders := [], {}, {};
    }

    ghost function Current(): Run
      reads this, macroState
    {
      Run(macroState.values, usedHere, changedHere, includedHeaders, false)
    }

    /** Appends the macro unless it is listed already. */
    method AddMacro(name: MacroName, value: MacroValue)
      modifies this`usedHere
      ensures usedHere == Add(old(usedHere), {}, (name, value))
    {
      if !Mentions(usedHere, name) {
        usedHere := usedHere + [(name, value)];
      }
    }

    method MacroUsed(name: MacroName)
      modifies this`usedHere
      ensures Current() == Record(old(Current()), [name])
    {
      if name !in changedHere {
        var value := macroState.GetMacroValue(name);
        AddMacro(name, value);
      }
      assert Valued(macroState.values, [name]) == [(name, Lookup(macroState.values, name))];
      AddAllOne(old(usedHere), changedHere, (name, Lookup(macroState.values, name)));
    }

    /** A child saw `name` with `value`; it counts as used here unless changed here. */
    method MacroUsedWith(name: MacroName, value: MacroValue)
      modifies this`usedHere
      ensures usedHere == Add(old(usedHere), changedHere, (name, value))
    {
      if name !in changedHere {
        AddMacro(name, value);
      }
    }

    method MacroDefined(name: MacroName, value: MacroValue)
      modifies this`changedHere, macroState
      ensures Current() == Write(old(Current()), name, value)
    {
      macroState.DefineMacro(name, value);
      changedHere := changedHere + {name};
    }

    method MacroUndefined(name: MacroName)
      modifies this`changedHere, macroState
      ensures Current() == Write(old(Current()), name, Undefined)
    {
      macroState.UndefineMacro(name);
      changedHere := changedHere + {name};
    }

    method AddHeader(f: FileId)
      modifies this`includedHeaders
      ensures includedHeaders == old(includedHeaders) + {f}
    {
      includedHeaders := includedHeaders + {f};
    }

    method IsViableForCache() returns (viable: bool)
      ensures viable <==> !replaced && |usedHere| < 1024
    {
      viable := !replaced && |usedHere| < USED_LIMIT;
    }

    /** What the context contributes to its parent. */
    ghost function Contribution(): (seq<Macro>, MacroMap, set<MacroName>, set<FileId>)
      reads this
    {
      match cacheHit
      case Miss => (usedHere, map[], changedHere, includedHeaders)
      case Hit(path, entry) => (path, entry.changes, entry.changes.Keys, entry.headers)
    }

    /** Hands the record of this context, or of the cached result it stands for, to the
        context that included it. */
    method PropagateToParent()
      requires parent != null && parent != this && parent.macroState == macroState
      modifies parent, macroState
      ensures var (path, changes, names, headers) := old(Contribution());
        && parent.usedHere == AddAll(old(parent.usedHere), old(parent.changedHere), path)
        && macroState.values == old(macroState.values) + changes
        && parent.changedHere == old(parent.changedHere) + names
        && parent.includedHeaders == old(parent.includedHeaders) + headers
        && parent.cacheHit == old(parent.cacheHit)
    {
      match cacheHit
      case Hit(path, entry) =>
        UsePath(path);
        ReplayChanges(entry.changes);
        parent.includedHeaders := parent.includedHeaders + entry.headers;
      case Miss =>
        UsePath(usedHere);
        parent.changedHere := parent.changedHere + changedHere;
        parent.includedHeaders := parent.includedHeaders + includedHeaders;
        assert macroState.values + map[] == macroState.values;
    }

    method UsePath(path: seq<Macro>)
      requires parent != null && parent != this
      modifies parent`usedHere
      ensures parent.usedHere == AddAll(old(parent.usedHere), parent.changedHere, path)
    {
      assert path[..0] == [];
      for i := 0 to |path|
        invariant parent.usedHere == AddAll(old(parent.usedHere), parent.changedHere, path[..i])
      {
        AddAllConcat(old(parent.usedHere), parent.changedHere, path[..i], [path[i]]);
        AddAllOne(parent.usedHere, parent.changedHere, path[i]);
        assert path[..i + 1] == path[..i] + [path[i]];
        parent.MacroUsedWith(path[i].0, path[i].1);
      }
      assert path[..|path|] == path;
    }

    method ReplayChanges(changes: MacroMap)
      requires parent != null && parent.macroState == macroState
      modifies parent`changedHere, macroState
      ensures macroState.values == old(macroState.values) + changes
      ensures parent.changedHere == old(parent.changedHere) + changes.Keys
    {
      var rest := changes.Keys;
      while rest != {}
        invariant rest <= changes.Keys
        invariant macroState.values == old(macroState.values) + (map n | n in changes && n !in rest :: changes[n])
        invariant parent.changedHere == old(parent.changedHere) + (changes.Keys - rest)
        decreases rest
      {
        var name :| name in rest;
        parent.changedHere := parent.changedHere + {name};
        macroState.DefineMacro(name, changes[name]);
        rest := rest - {name};
      }
      assert (map n | n in changes && n !in rest :: changes[n]) == changes;
    }
  }

  lemma AddAllOne(used: seq<Macro>, changed: set<MacroName>, p: Macro)
    ensures AddAll(used, changed, [p]) == Add(used, changed, p)
  {
    assert [p][1..] == [];
  }

  /** The raw tokens a skipped branch is scanned for. */
  datatype Token = Hash(atLineStart: bool) | Identifier(text: string) | Other

  predicate IsEffectWord(t: Token) {
    t == Identifier("define") || t == Identifier("undef") || t == Identifier("include")
  }

  /** No effect word directly follows a hash at the start of a line. */
  predicate NoEffectTokens(tokens: seq<Token>)
    decreases |tokens|
  {
    if tokens == [] then
      true
    else if tokens[0] != Hash(true) then
      NoEffectTokens(tokens[1..])
    else
      |tokens| == 1 || (!IsEffectWord(tokens[1]) && NoEffectTokens(tokens[2..]))
  }

  /** The tokens of a piece of text. */
  function Tokens(items: Items): seq<Token> {
    match items
    case End => []
    case Then(head, tail) => ItemTokens(head) + Tokens(tail)
  }

  function ItemTokens(item: Item): seq<Token> {
    match item
    case Define(name, _) => [Hash(true), Identifier("define"), Other]
    case Undef(name) => [Hash(true), Identifier("undef"), Other]
    case PragmaOnce => [Hash(true), Identifier("pragma"), Identifier("once")]
    case Include(_) => [Hash(true), Identifier("include"), Other]
    case If(_, body, rest) => [Hash(true), Identifier("if"), Other] + Tokens(body) + RestTokens(rest)
  }

  function RestTokens(rest: Rest): seq<Token> {
    match rest
    case Endif => [Hash(true), Identifier("endif")]
    case Elif(_, body, more) => [Hash(true), Identifier("elif"), Other] + Tokens(body) + RestTokens(more)
    case Else(body) => [Hash(true), Identifier("else")] + Tokens(body) + [Hash(true), Identifier("endif")]
  }

  lemma OneDirective(word: string, tail: seq<Token>, more: seq<Token>)
    requires !IsEffectWord(Identifier(word))
    requires tail == [] || tail == [Other] || tail == [Identifier("once")]
    ensures NoEffectTokens([Hash(true), Identifier(word)] + tail + more) == NoEffectTokens(more)
  {
    var ts := [Hash(true), Identifier(word)] + tail + more;
    assert ts[2..] == tail + more;
    if tail != [] {
      assert (tail + more)[1..] == more;
    } else {
      assert tail + more == more;
    }
  }

  lemma OneEffect(word: string, more: seq<Token>)
    requires IsEffectWord(Identifier(word))
    ensures !NoEffectTokens([Hash(true), Identifier(word), Other] + more)
  {
    var ts := [Hash(true), Identifier(word), Other] + more;
    assert ts[1] == Identifier(word);
  }

  /** Scanning the tokens finds exactly the text that holds an effect directive. */
  lemma {:induction false} TokensShowEffects(items: Items, more: seq<Token>)
    ensures NoEffectTokens(Tokens(items) + more) == (!HasEffectText(items) && NoEffectTokens(more))
  {
    match items
    case End => assert [] + more == more;
    case Then(head, tail) =>
      ItemTokensShowEffects(head, Tokens(tail) + more);
      TokensShowEffects(tail, more);
      assert Tokens(items) + more == ItemTokens(head) + (Tokens(tail) + more);
  }

  lemma {:induction false} ItemTokensShowEffects(item: Item, more: seq<Token>)
    ensures NoEffectTokens(ItemTokens(item) + more) == (!ItemHasEffectText(item) && NoEffectTokens(more))
  {
    match item
    case Define(_, _) => OneEffect("define", more);
    case Undef(_) => OneEffect("undef", more);
    case Include(_) => OneEffect("include", more);
    case PragmaOnce =>
      OneDirective("pragma", [Identifier("once")], more);
      assert ItemTokens(item) == [Hash(true), Identifier("pragma")] + [Identifier("once")];
    case If(_, body, rest) =>
      TokensShowEffects(body, RestTokens(rest) + more);
      RestTokensShowEffects(rest, more);
      BranchTokens("if", body, RestTokens(rest), more);
  }

  lemma BranchTokens(word: string, body: Items, rest: seq<Token>, more: seq<Token>)
    requires !IsEffectWord(Identifier(word))
    ensures NoEffectTokens([Hash(true), Identifier(word), Other] + Tokens(body) + rest + more)
      == NoEffectTokens(Tokens(body) + (rest + more))
  {
    OneDirective(word, [Other], Tokens(body) + (rest + more));
    assert [Hash(true), Identifier(word), Other] + Tokens(body) + rest + more
        == [Hash(true), Identifier(word)] + [Other] + (Tokens(body) + (rest + more));
  }

  lemma {:induction false} RestTokensShowEffects(rest: Rest, more: seq<Token>)
    ensures NoEffectTokens(RestTokens(rest) + more) == (!RestHasEffectText(rest) && NoEffectTokens(more))
  {
    match rest
    case Endif =>
      OneDirective("endif", [], more);
      assert RestTokens(rest) + more == [Hash(true), Identifier("endif")] + [] + more;
    case Elif(_, body, rest') =>
      BranchTokens("elif", body, RestTokens(rest'), more);
      TokensShowEffects(body, RestTokens(rest') + more);
      RestTokensShowEffects(rest', more);
    case Else(body) =>
      var end := [Hash(true), Identifier("endif")] + more;
      OneDirective("else", [], Tokens(body) + end);
      assert RestTokens(rest) + more == [Hash(true), Identifier("else")] + [] + (Tokens(body) + end);
      TokensShowEffects(body, end);
      OneDirective("endif", [], more);
      assert end == [Hash(true), Identifier("endif")] + [] + more;
  }

  // --- The condition stack ---------------------------------------------------------

  class ConditionStack {
    var macros: seq<ProgramMacro>
    var conditions: seq<Condition>

    ghost function Current(): Conditions
      reads this
    {
      Conditions(macros, conditions)
    }

    constructor ()
      ensures Current() == NO_CONDITIONS
    {
      macros, conditions := [], [];
    }

    method AddMacro(name: ProgramMacro)
      modifies this
      ensures Current() == AddMacros(old(Current()), [name])
    {
      macros := macros + [name];
    }

    /** Reports every pending read to the context, outermost condition first. */
    method Commit(ctx: HeaderCtx)
      modifies this, ctx`usedHere
      ensures Current() == NO_CONDITIONS
      ensures ctx.Current() == Record(old(ctx.Current()), Pending(old(Current())))
    {
      ghost var before := ctx.Current();
      RecordNothing(before);
      for i := 0 to |conditions|
        invariant Current() == old(Current())
        invariant ctx.Current() == Record(before, Flatten(conditions[..i]))
      {
        FlattenAppend(conditions[..i], [conditions[i]]);
        assert conditions[..i + 1] == conditions[..i] + [conditions[i]];
        FlattenOne(conditions[i]);
        RecordConcat(before, Flatten(conditions[..i]), conditions[i].macros);
        Report(ctx, conditions[i].macros);
      }
      assert conditions[..|conditions|] == conditions;
      RecordConcat(before, Flatten(conditions), macros);
      conditions := [];
      Report(ctx, macros);
      macros := [];
    }

    method Report(ctx: HeaderCtx, names: seq<ProgramMacro>)
      modifies ctx`usedHere
      ensures ctx.Current() == Record(old(ctx.Current()), names)
    {
      ghost var before := ctx.Current();
      RecordNothing(before);
      for i := 0 to |names|
        invariant ctx.Current() == Record(before, names[..i])
      {
        RecordConcat(before, names[..i], [names[i]]);
        assert names[..i + 1] == names[..i] + [names[i]];
        ctx.MacroUsed(names[i]);
      }
      assert names[..|names|] == names;
    }

    method IfDirective(taken: bool)
      modifies this
      ensures Current() == Deferral.IfDirective(old(Current()), taken)
    {
      conditions := conditions + [Condition(macros, taken, taken)];
      macros := [];
    }

    method ElifDirective(ctx: HeaderCtx, text: seq<Token>, taken: bool)
      modifies this, ctx`usedHere
      ensures var r := Deferral.ElifDirective(old(Current()), NoEffectTokens(text), taken);
        Current() == r.next && ctx.Current() == Record(old(ctx.Current()), r.committed)
    {
      RecordNothing(ctx.Current());
      if conditions == [] {
        Commit(ctx);
        return;
      }
      var last := |conditions| - 1;
      var c := conditions[last];
      conditions := conditions[..last] + [Condition(c.macros + macros, c.lastBranchTaken, c.anyBranchTaken || taken)];
      macros := [];
      var skip := LastConditionSkippable(ctx, text);
      if skip {
        conditions := conditions[..last] + [conditions[last].(lastBranchTaken := taken)];
      }
    }

    method ElseDirective(ctx: HeaderCtx, text: seq<Token>)
      modifies this, ctx`usedHere
      ensures var r := Deferral.ElseDirective(old(Current()), NoEffectTokens(text));
        Current() == r.next && ctx.Current() == Record(old(ctx.Current()), r.committed)
    {
      RecordNothing(ctx.Current());
      if conditions == [] {
        Commit(ctx);
        return;
      }
      AbsorbMacros();
      var skip := LastConditionSkippable(ctx, text);
      if skip {
        var last := |conditions| - 1;
        conditions := conditions[..last] + [conditions[last].(lastBranchTaken := !conditions[last].anyBranchTaken)];
      }
    }

    method EndifDirective(ctx: HeaderCtx, text: seq<Token>)
      modifies this, ctx`usedHere
      ensures var r := Deferral.EndifDirective(old(Current()), NoEffectTokens(text));
        Current() == r.next && ctx.Current() == Record(old(ctx.Current()), r.committed)
    {
      RecordNothing(ctx.Current());
      if conditions == [] {
        return;
      }
      AbsorbMacros();
      var skip := LastConditionSkippable(ctx, text);
      if skip {
        conditions := conditions[..|conditions| - 1];
      }
    }

    /** Macros seen without a directive go to the innermost condition, which must then be
        scanned again. */
    method AbsorbMacros()
      requires conditions != []
      modifies this
      ensures Current() == Absorbed(old(Current()))
    {
      if macros != [] {
        var last := |conditions| - 1;
        var c := conditions[last];
        conditions := conditions[..last] + [Condition(c.macros + macros, false, c.anyBranchTaken)];
        macros := [];
      }
    }

    /** True if the branch that just ended was taken or holds no effect; commits if not. */
    method LastConditionSkippable(ctx: HeaderCtx, text: seq<Token>) returns (skip: bool)
      requires conditions != [] && macros == []
      modifies this, ctx`usedHere
      ensures skip == (old(conditions[|conditions| - 1]).lastBranchTaken || NoEffectTokens(text))
      ensures skip ==> Current() == old(Current()) && ctx.Current() == old(ctx.Current())
      ensures !skip ==> Current() == NO_CONDITIONS
      ensures !skip ==> ctx.Current() == Record(old(ctx.Current()), Pending(old(Current())))
    {
      skip := conditions[|conditions| - 1].lastBranchTaken;
      if !skip {
        skip := Skippable(text);
        if !skip {
          Commit(ctx);
        }
      }
    }

    /** Lexes the text of a branch, looking for effect directives. */
    method Skippable(text: seq<Token>) returns (skip: bool)
      ensures skip == NoEffectTokens(text)
    {
      var i := 0;
      assert text[0..] == text;
      while i < |text|
        invariant 0 <= i <= |text|
        invariant NoEffectTokens(text) == NoEffectTokens(text[i..])
      {
        if text[i] != Hash(true) {
          assert text[i..][1..] == text[i + 1..];
          i := i + 1;
          continue;
        }
        if i + 1 == |text| {
          return true;
        }
        assert text[i..][1] == text[i + 1] && text[i..][2..] == text[i + 2..];
        if IsEffectWord(text[i + 1]) {
          return false;
        }
        i := i + 2;
      }
      return true;
    }
  }

  lemma FlattenOne(c: Condition)
    ensures Flatten([c]) == c.macros
  {
    assert [c][1..] == [];
    assert c.macros + [] == c.macros;
  }
}
