/** The handlers that run when the preprocessor reports an inclusion. */
module HeaderTrackers {
  import opened Macros
  import opened Directives
  import opened Recording
  import opened Replay
  import Deferral
  import opened HeaderContexts
  import opened HeaderCaches

  class HeaderTracker {
    const macroState: MacroState
    const cache: Cache
    const conditionStack: ConditionStack
    var fileStack: seq<FileId>
    var current: HeaderCtx
    var replaced: bool
    var cacheHit: Hit

    /** A source file is entered. */
    constructor (source: FileId, macroState: MacroState, cache: Cache)
      modifies {}
      ensures this.macroState == macroState && this.cache == cache && fileStack == [source]
      ensures fresh(current) && current.macroState == macroState && current.parent == null
      ensures current.Current() == Enter(source, macroState.values) && current.cacheHit == Miss
      ensures fresh(conditionStack) && conditionStack.Current() == Deferral.NO_CONDITIONS
      ensures !replaced && cacheHit == Miss
    {
      this.macroState, this.cache := macroState, cache;
      conditionStack := new ConditionStack();
      current := new HeaderCtx(macroState, null, false, Miss);
      fileStack, replaced, cacheHit := [source], false, Miss;
      new;
      UseMarker(source);
    }

    method UseMarker(f: FileId)
      requires current.usedHere == [] && current.changedHere == {}
      modifies current
      ensures current.Current() == Record(old(current.Current()), [OnceMarker(f)])
      ensures current.usedHere == [(OnceMarker(f), Lookup(current.macroState.values, OnceMarker(f)))]
      ensures current.cacheHit == old(current.cacheHit)
    {
      AddAllOne([], {}, (OnceMarker(f), Lookup(current.macroState.values, OnceMarker(f))));
      assert Valued(current.macroState.values, [OnceMarker(f)])
          == [(OnceMarker(f), Lookup(current.macroState.values, OnceMarker(f)))];
      current.MacroUsed(OnceMarker(f));
    }

    /** An #include has been resolved: every pending read now matters. */
    method InclusionDirective(f: FileId)
      modifies this`fileStack, conditionStack, current`usedHere
      ensures fileStack == old(fileStack) + [f]
      ensures conditionStack.Current() == Deferral.NO_CONDITIONS
      ensures current.Current() == Record(old(current.Current()), Deferral.Pending(old(conditionStack.Current())))
    {
      conditionStack.Commit(current);
      fileStack := fileStack + [f];
    }

    /** A definition counts, with everything read for it, unless a cached result is replayed. */
    method MacroDefined(name: ProgramMacro, value: MacroValue)
      modifies conditionStack, current`usedHere, current`changedHere, current.macroState
      ensures if current.cacheHit.Hit? then
          current.Current() == old(current.Current()) && conditionStack.Current() == old(conditionStack.Current())
        else
          && conditionStack.Current() == Deferral.NO_CONDITIONS
          && current.Current()
              == Write(Record(old(current.Current()), Deferral.Pending(old(conditionStack.Current()))), name, value)
    {
      if current.cacheHit.Hit? {
        return;
      }
      conditionStack.Commit(current);
      current.MacroDefined(name, value);
    }

    method MacroUndefined(name: ProgramMacro)
      modifies conditionStack, current`usedHere, current`changedHere, current.macroState
      ensures if current.cacheHit.Hit? then
          current.Current() == old(current.Current()) && conditionStack.Current() == old(conditionStack.Current())
        else
          && conditionStack.Current() == Deferral.NO_CONDITIONS
          && current.Current()
              == Write(Record(old(current.Current()), Deferral.Pending(old(conditionStack.Current()))), name, Undefined)
    {
      if current.cacheHit.Hit? {
        return;
      }
      conditionStack.Commit(current);
      current.MacroUndefined(name);
    }

    /** The marker is set, but what is pending stays pending. */
    method PragmaOnce()
      requires fileStack != []
      modifies current`changedHere, current.macroState
      ensures current.Current() == if current.cacheHit.Hit? then old(current.Current())
        else MarkIf(old(current.Current()), fileStack[|fileStack| - 1], true)
      ensures current.cacheHit == Miss ==> Lookup(current.macroState.values, OnceMarker(fileStack[|fileStack| - 1])) != Undefined
    {
      if current.cacheHit.Hit? {
        return;
      }
      current.MacroDefined(OnceMarker(fileStack[|fileStack| - 1]), ONCE_VALUE);
    }

    /** Decides what is read in place of the included file: nothing if its marker is set,
        the cached result if the cache has one, or the file itself. */
    method ReplaceFile(f: FileId) returns (ghost gone: set<Key>)
      requires cache.Valid() && current.macroState == macroState
      modifies this`replaced, this`cacheHit, cache
      ensures cache.Valid() && cache.entries == old(cache.entries) - gone
      ensures Lookup(macroState.values, OnceMarker(f)) != Undefined ==>
        replaced && cacheHit == old(cacheHit) && gone == {}
      ensures Lookup(macroState.values, OnceMarker(f)) == Undefined ==>
        && (cacheHit == Miss <==> !IsHit(old(cache.entries), f, macroState.values))
        && (cacheHit.Hit? ==> (
             && replaced && HitPath(old(cache.entries), f, macroState.values, cacheHit.path)
             && cacheHit.entry == old(cache.entries)[(f, cacheHit.path)]))
        && (cacheHit == Miss ==> replaced == old(replaced))
    {
      gone := {};
      var marker := macroState.GetMacroValue(OnceMarker(f));
      if marker != Undefined {
        replaced := true;
        return;
      }
      cacheHit, gone := cache.FindEntry(f, macroState);
      if cacheHit.Hit? {
        replaced := true;
      }
    }

    /** The file on top of the stack, or what replaces it, is entered. */
    method EnterFile()
      requires fileStack != [] && current.macroState == macroState
      modifies this`current, this`replaced, this`cacheHit
      ensures fresh(current) && current.parent == old(current) && current.macroState == macroState
      ensures current.cacheHit == old(cacheHit) && current.replaced == old(replaced)
      ensures old(cacheHit) == Miss ==> current.Current() == Enter(fileStack[|fileStack| - 1], macroState.values)
      ensures !replaced && cacheHit == Miss
    {
      current := new HeaderCtx(macroState, current, replaced, cacheHit);
      if cacheHit == Miss {
        UseMarker(fileStack[|fileStack| - 1]);
      }
      replaced, cacheHit := false, Miss;
    }

    /** Stores the context's record in the cache; from now on it stands for the entry kept. */
    method AddToCache(f: FileId)
      requires cache.Valid() && current.cacheHit == Miss
      modifies current`cacheHit, cache
      ensures cache.Valid() && cache.entries == Store(old(cache.entries), f, old(current.Current()))
      ensures current.cacheHit == Hit(current.usedHere, cache.entries[(f, current.usedHere)])
    {
      var changed: MacroMap := map[];
      var rest := current.changedHere;
      while rest != {}
        invariant rest <= current.changedHere
        invariant changed == map n | n in current.changedHere && n !in rest :: Lookup(current.macroState.values, n)
        decreases rest
        modifies {}
      {
        var name :| name in rest;
        var value := current.macroState.GetMacroValue(name);
        changed := changed[name := value];
        rest := rest - {name};
      }
      assert changed == Changes(current.Current());
      var hit := cache.AddEntry(f, current.usedHere, Entry(changed, current.includedHeaders));
      current.cacheHit := hit;
    }

    /** What the including context has after the header is left, from what it had, its
        child's record and the cache the child's result was stored in. */
    ghost function AfterLeave(r: Run, f: FileId, c: Run, hit: Hit, replaced: bool, cache: CacheMap): Run
      requires !replaced && |c.used| < USED_LIMIT ==> (f, c.used) in cache
    {
      var r' := r.(state := c.state);
      if hit.Hit? then
        AbsorbEntry(r', hit.path, hit.entry, f)
      else if !replaced && |c.used| < USED_LIMIT then
        AbsorbEntry(r', c.used, cache[(f, c.used)], f)
      else
        Absorb(r', c.used, map[], c.headers + {f}).(changed := r.changed + c.changed)
    }

    /** The header on top of the stack is left: cached if viable, then handed over. */
    method LeaveHeader()
      requires fileStack != [] && cache.Valid() && current.parent != null && current.parent != current
      requires current.macroState == macroState && current.parent.macroState == macroState
      requires current.cacheHit.Hit? ==> current.replaced
      modifies this`fileStack, this`current, current, current.parent, macroState, cache
      ensures current == old(current.parent) && fileStack == old(fileStack)[..|old(fileStack)| - 1]
      ensures cache.Valid()
      ensures var f := old(fileStack)[|old(fileStack)| - 1]; var c := old(current.Current());
        && cache.entries ==
            (if !old(current).replaced && |c.used| < USED_LIMIT then Store(old(cache.entries), f, c)
             else old(cache.entries))
        && current.Current()
            == AfterLeave(old(current.parent.Current()), f, c, old(current.cacheHit), old(current).replaced, cache.entries)
    {
      var f := fileStack[|fileStack| - 1];
      var child := current;
      var viable := child.IsViableForCache();
      if viable {
        AddToCache(f);
      }
      child.PropagateToParent();
      current := child.parent;
      current.AddHeader(f);
      fileStack := fileStack[..|fileStack| - 1];
    }
  }

  // --- The handlers together are one inclusion of the scan ---------------------------

  /** Leaving a header that was scanned is the scan's own step. */
  lemma LeaveIsLeave(w: World, t: HeaderTracker, r: Run, f: FileId, child: Memo)
    requires !r.tooDeep && !child.run.tooDeep
    ensures var cache := if |child.run.used| < USED_LIMIT then Store(Tick(w, child).cache, f, child.run) else child.cache;
      Leave(w, r, f, child).cache == cache
      && Leave(w, r, f, child).run == t.AfterLeave(r, f, child.run, Miss, false, cache)
  {
  }

  /** Leaving an empty replacement is skipping the file. */
  lemma LeaveIsSkip(t: HeaderTracker, r: Run, f: FileId)
    requires Lookup(r.state, OnceMarker(f)) != Undefined
    ensures t.AfterLeave(r, f, Enter(f, r.state), Miss, true, map[]) == SkipOnce(r, f)
  {
    assert Valued(r.state, [OnceMarker(f)]) == Enter(f, r.state).used;
    assert r.state + map[] == r.state;
  }

  /** Leaving a cached result absorbs its entry. */
  lemma LeaveIsAbsorb(t: HeaderTracker, r: Run, f: FileId, c: Run, path: seq<Macro>, e: Entry)
    requires c.state == r.state
    ensures t.AfterLeave(r, f, c, Hit(path, e), true, map[]) == AbsorbEntry(r, path, e, f)
  {
  }
}
