/** The scan that follows every #include in the text, whatever conditions surround it, with
    a cache of the include lists of the files it has read. */
module NaiveScan {
  import opened Macros
  import opened Directives

  /** A line the scan stops at: an include whose name is spelled out, resolved as it will be
      in its file, or one whose name is computed by a macro. */
  datatype Line = Inc(target: Target) | Computed

  type Sources = map<FileId, seq<Line>>

  // --- Closures --------------------------------------------------------------------

  predicate Plain(lines: seq<Line>) {
    forall i :: 0 <= i < |lines| ==> lines[i].Inc?
  }

  predicate LeadsInto(line: Line, s: set<FileId>) {
    line.Inc? && line.target.Found? ==> line.target.file in s
  }

  predicate AllInto(lines: seq<Line>, s: set<FileId>) {
    forall i :: 0 <= i < |lines| ==> LeadsInto(lines[i], s)
  }

  predicate TargetsInto(targets: seq<Target>, s: set<FileId>) {
    forall i :: 0 <= i < |targets| ==> targets[i].Found? ==> targets[i].file in s
  }

  /** Whatever a file of the set includes is in the set. */
  ghost predicate Closed(files: Sources, s: set<FileId>) {
    forall f {:trigger files[f]} {:trigger f in s} :: f in s ==> f in files && AllInto(files[f], s)
  }

  /** Every found file exists. */
  ghost predicate Complete(files: Sources) {
    Closed(files, files.Keys)
  }

  /** The sets that hold everything the main file includes, or that is forced on it. */
  ghost predicate Covers(files: Sources, main: FileId, forced: seq<Target>, s: set<FileId>) {
    main in files && AllInto(files[main], s) && TargetsInto(forced, s) && Closed(files, s)
  }

  /** The include closure: the least of these sets. */
  ghost predicate IsClosure(files: Sources, main: FileId, forced: seq<Target>, r: set<FileId>) {
    Covers(files, main, forced, r) && forall s {:trigger Covers(files, main, forced, s)} :: Covers(files, main, forced, s) ==> r <= s
  }

  /** No way around a computed include. */
  ghost predicate Spoiled(files: Sources, s: set<FileId>) {
    exists g :: g in s && g in files && !Plain(files[g])
  }

  ghost predicate Tainted(files: Sources, f: FileId) {
    forall s {:trigger Closed(files, s)} :: f in s && Closed(files, s) ==> Spoiled(files, s)
  }

  /** There is no way to cover the file without a computed include. */
  ghost predicate AllSpoiled(files: Sources, main: FileId, forced: seq<Target>) {
    forall s {:trigger Covers(files, main, forced, s)} :: Covers(files, main, forced, s) ==> Spoiled(files, s + {main})
  }

  predicate Includes(files: Sources, f: FileId, g: FileId) {
    f in files && Inc(Found(g)) in files[f]
  }

  /** A file that includes a tainted file is tainted. */
  lemma TaintSpreads(files: Sources, f: FileId, g: FileId)
    requires Includes(files, f, g) && Tainted(files, g)
    ensures Tainted(files, f)
  {
    forall s | f in s && Closed(files, s)
      ensures Spoiled(files, s)
    {
      var i :| 0 <= i < |files[f]| && files[f][i] == Inc(Found(g));
      assert LeadsInto(files[f][i], s);
    }
  }

  lemma ComputedTaints(files: Sources, f: FileId)
    requires f in files && !Plain(files[f])
    ensures Tainted(files, f)
  {
  }

  // --- The cache of include lists ----------------------------------------------------

  datatype CacheEntry = CacheEntry(complex: bool, includes: seq<Target>)

  type NaiveCache = map<FileId, CacheEntry>

  function TargetsOf(lines: seq<Line>): (ts: seq<Target>)
    requires Plain(lines)
    ensures |ts| == |lines| && forall i :: 0 <= i < |lines| ==> ts[i] == lines[i].target
  {
    seq(|lines|, i requires 0 <= i < |lines| => lines[i].target)
  }

  ghost predicate ListsOk(files: Sources, cache: NaiveCache) {
    forall f :: f in cache && !cache[f].complex && f in files ==> Plain(files[f]) && cache[f].includes == TargetsOf(files[f])
  }

  predicate Marked(cache: NaiveCache, f: FileId) {
    f in cache && cache[f].complex
  }

  ghost predicate MarksOk(files: Sources, cache: NaiveCache) {
    forall f {:trigger Marked(cache, f)} :: Marked(cache, f) ==> Tainted(files, f)
  }

  // --- The scan ------------------------------------------------------------------------

  datatype Finder = Fixed(includes: seq<Target>, next: nat) | Lexing(includes: seq<Target>, next: nat)

  datatype Context = Context(file: FileId, finder: Finder)

  datatype NextInclude = IncludeFound(target: Target) | HeaderDone | HeaderComplex

  /** The finder has handed out the file's includes up to `next`. */
  ghost predicate ContextOk(files: Sources, c: Context, visited: set<FileId>) {
    && c.file in files
    && var lines := files[c.file];
       && c.finder.next <= |lines| && Plain(lines[..c.finder.next]) && AllInto(lines[..c.finder.next], visited)
       && match c.finder
          case Fixed(includes, _) => Plain(lines) && includes == TargetsOf(lines)
          case Lexing(includes, next) => includes == TargetsOf(lines[..next])
  }

  function StackFiles(stack: seq<Context>): set<FileId> {
    set i | 0 < i < |stack| :: stack[i].file
  }

  /** How far a scan has got: everything visited is wanted, and whatever a file that is done
      with includes has been visited. */
  ghost predicate Progress(
    files: Sources, main: FileId, forced: seq<Target>, stack: seq<Context>, visited: set<FileId>, allHeaders: set<FileId>)
  {
    && main in files && visited <= files.Keys
    && (forall i {:trigger stack[i]} :: 0 <= i < |stack| ==> ContextOk(files, stack[i], visited))
    && (|stack| > 0 ==> stack[0].file == main)
    && (|stack| == 0 ==> Plain(files[main]) && AllInto(files[main], visited))
    && visited == allHeaders + StackFiles(stack)
    && (forall f {:trigger f in allHeaders} :: f in allHeaders ==> f in files && Plain(files[f]) && AllInto(files[f], visited))
    && (forall s {:trigger Covers(files, main, forced, s)} :: Covers(files, main, forced, s) ==> visited <= s)
  }

  /** Every header on the stack is included by the one below it, or is the same file. */
  ghost predicate Chained(files: Sources, stack: seq<Context>) {
    forall i {:trigger stack[i]} :: 0 < i < |stack| ==> Leads(files, stack[i - 1].file, stack[i].file)
  }

  predicate Leads(files: Sources, f: FileId, g: FileId) {
    f == g || Includes(files, f, g)
  }

  // --- Forced includes -------------------------------------------------------------------

  /** No file but the main one itself is forced on it. */
  predicate OnlyMain(main: FileId, forced: seq<Target>) {
    forall i :: 0 <= i < |forced| && forced[i].Found? ==> forced[i].file == main
  }

  /** The header that is on top once the forced ones have been opened. */
  function LastOpened(main: FileId, forced: seq<Target>): FileId {
    if forced == [] then main
    else
      var n := |forced| - 1;
      if forced[n].Found? && forced[n] !in forced[..n] then forced[n].file else LastOpened(main, forced[..n])
  }

  ghost predicate Unmarked(cache: NaiveCache) {
    forall f :: !Marked(cache, f)
  }

  ghost predicate NoNewMarks(cache: NaiveCache, cache': NaiveCache) {
    forall f {:trigger Marked(cache', f)} :: Marked(cache', f) ==> Marked(cache, f)
  }

  ghost predicate Expected(files: Sources, main: FileId, forced: seq<Target>) {
    Complete(files) && main in files && TargetsInto(forced, files.Keys)
  }

  /** What a run does to the marks: success adds none; right marks stay right if only the
      main file is forced; and if the forced header opened last has a computed include, the
      main file and all forced ones are marked. */
  ghost predicate RunLeaves(
    files: Sources, main: FileId, forced: seq<Target>, cache: NaiveCache, ok: bool, cache': NaiveCache)
  {
    && ListsOk(files, cache')
    && (ok ==> NoNewMarks(cache, cache'))
    && (OnlyMain(main, forced) && MarksOk(files, cache) ==> MarksOk(files, cache'))
    && var last := LastOpened(main, forced);
       (last in files && !Plain(files[last]) && Unmarked(cache) ==> !ok && AllMarked(main, forced, cache'))
  }

  ghost predicate AllMarked(main: FileId, forced: seq<Target>, cache: NaiveCache) {
    Marked(cache, main) && forall i {:trigger forced[i]} :: 0 <= i < |forced| && forced[i].Found? ==> Marked(cache, forced[i].file)
  }

  lemma ContextGrows(files: Sources, c: Context, visited: set<FileId>, more: set<FileId>)
    requires ContextOk(files, c, visited) && visited <= more
    ensures ContextOk(files, c, more)
  {
    assert forall l :: LeadsInto(l, visited) ==> LeadsInto(l, more);
  }

  lemma AllIntoGrows(lines: seq<Line>, visited: set<FileId>, more: set<FileId>)
    requires AllInto(lines, visited) && visited <= more
    ensures AllInto(lines, more)
  {
    assert forall l :: LeadsInto(l, visited) ==> LeadsInto(l, more);
  }

  /** A new header goes on the stack. */
  lemma PushProgress(
    files: Sources, main: FileId, forced: seq<Target>, stack: seq<Context>, visited: set<FileId>, allHeaders: set<FileId>, c: Context)
    requires Progress(files, main, forced, stack, visited, allHeaders) && stack != []
    requires ContextOk(files, c, visited + {c.file})
    requires forall s {:trigger Covers(files, main, forced, s)} :: Covers(files, main, forced, s) ==> c.file in s
    ensures Progress(files, main, forced, stack + [c], visited + {c.file}, allHeaders)
  {
    var visited', stack' := visited + {c.file}, stack + [c];
    forall i | 0 <= i < |stack'|
      ensures ContextOk(files, stack'[i], visited')
    {
      if i < |stack| {
        ContextGrows(files, stack[i], visited, visited');
      }
    }
    StackFilesPush(stack, c);
    forall f | f in allHeaders
      ensures AllInto(files[f], visited')
    {
      AllIntoGrows(files[f], visited, visited');
    }
  }

  lemma StackFilesPush(stack: seq<Context>, c: Context)
    requires stack != []
    ensures StackFiles(stack + [c]) == StackFiles(stack) + {c.file}
  {
    forall f | f in StackFiles(stack)
      ensures f in StackFiles(stack + [c])
    {
      var i :| 0 < i < |stack| && stack[i].file == f;
      assert (stack + [c])[i].file == f;
    }
    assert (stack + [c])[|stack|] == c;
  }

  /** The i-th forced include has been opened, unless it is not new. */
  lemma OpenedProgress(
    files: Sources, main: FileId, forced: seq<Target>, i: nat, cache: NaiveCache,
    stack: seq<Context>, visited: set<FileId>, allHeaders: set<FileId>, stack': seq<Context>, visited': set<FileId>)
    requires Expected(files, main, forced) && ListsOk(files, cache) && i < |forced|
    requires Progress(files, main, forced, stack, visited, allHeaders) && stack != []
    requires var t := forced[i];
      if t.Found? && t.file !in visited then
        && visited' == visited + {t.file} && !(t.file in cache && cache[t.file].complex)
        && stack' == stack + [Context(t.file, if t.file in cache then Fixed(cache[t.file].includes, 0) else Lexing([], 0))]
      else stack' == stack && visited' == visited
    ensures Progress(files, main, forced, stack', visited', allHeaders)
  {
    if forced[i].Found? && forced[i].file !in visited {
      PushProgress(files, main, forced, stack, visited, allHeaders, stack'[|stack|]);
    }
  }

  /** A header on the stack has handed out an include that has been visited. */
  lemma AdvanceProgress(
    files: Sources, main: FileId, forced: seq<Target>, stack: seq<Context>, visited: set<FileId>, allHeaders: set<FileId>,
    k: nat, c: Context)
    requires Progress(files, main, forced, stack, visited, allHeaders) && k < |stack| && c.file == stack[k].file
    requires ContextOk(files, c, visited)
    ensures Progress(files, main, forced, stack[k := c], visited, allHeaders)
  {
    var stack' := stack[k := c];
    assert StackFiles(stack') == StackFiles(stack) by {
      assert forall i :: 0 <= i < |stack| ==> stack'[i].file == stack[i].file;
    }
  }

  /** The header on top is done with. */
  lemma PopProgress(
    files: Sources, main: FileId, forced: seq<Target>, stack: seq<Context>, visited: set<FileId>, allHeaders: set<FileId>)
    requires Progress(files, main, forced, stack, visited, allHeaders) && stack != []
    requires stack[|stack| - 1].finder.next == |files[stack[|stack| - 1].file]|
    ensures var last := |stack| - 1;
      Progress(files, main, forced, stack[..last], visited, allHeaders + if last > 0 then {stack[last].file} else {})
  {
    var last := |stack| - 1;
    var top := stack[last];
    assert ContextOk(files, top, visited);
    assert files[top.file][..top.finder.next] == files[top.file];
    if last > 0 {
      assert stack == stack[..last] + [top];
      StackFilesPush(stack[..last], top);
    }
  }

  /** Whatever the header on top includes belongs to every covering set. */
  lemma TargetCovered(
    files: Sources, main: FileId, forced: seq<Target>, stack: seq<Context>, visited: set<FileId>, allHeaders: set<FileId>,
    next: nat, s: set<FileId>)
    requires Progress(files, main, forced, stack, visited, allHeaders) && stack != [] && Covers(files, main, forced, s)
    requires var lines := files[stack[|stack| - 1].file]; next < |lines|
    ensures LeadsInto(files[stack[|stack| - 1].file][next], s)
  {
    TopCovered(files, main, forced, stack, visited, allHeaders, s);
  }

  lemma TopCovered(
    files: Sources, main: FileId, forced: seq<Target>, stack: seq<Context>, visited: set<FileId>, allHeaders: set<FileId>, s: set<FileId>)
    requires Progress(files, main, forced, stack, visited, allHeaders) && stack != [] && Covers(files, main, forced, s)
    ensures stack[|stack| - 1].file == main || stack[|stack| - 1].file in s
  {
    var last := |stack| - 1;
    if last > 0 {
      assert stack[last].file in StackFiles(stack);
    }
  }

  /** The header on top has handed out `target` and is now `top`; if the file is new, it is
      on top as `c`. */
  lemma FollowProgress(
    files: Sources, main: FileId, forced: seq<Target>, stack: seq<Context>, visited: set<FileId>, allHeaders: set<FileId>,
    top: Context, target: Target, c: Context)
    requires Complete(files) && Progress(files, main, forced, stack, visited, allHeaders) && stack != []
    requires top.file == stack[|stack| - 1].file && Inc(target) in files[top.file]
    requires ContextOk(files, top, visited + if target.Found? then {target.file} else {})
    requires target.Found? && target.file !in visited ==>
        c.file == target.file && (c.file in files ==> ContextOk(files, c, visited + {c.file}))
    ensures var stack' := stack[|stack| - 1 := top];
      if target.Found? && target.file !in visited then Progress(files, main, forced, stack' + [c], visited + {c.file}, allHeaders)
      else Progress(files, main, forced, stack', visited, allHeaders)
  {
    var last := |stack| - 1;
    var next: nat :| next < |files[top.file]| && files[top.file][next] == Inc(target);
    if target.Found? && target.file !in visited {
      forall s | Covers(files, main, forced, s)
        ensures c.file in s
      {
        TargetCovered(files, main, forced, stack, visited, allHeaders, next, s);
      }
      assert LeadsInto(files[top.file][next], files.Keys);
      PushProgress(files, main, forced, stack, visited, allHeaders, c);
      AdvanceProgress(files, main, forced, stack + [c], visited + {c.file}, allHeaders, last, top);
      assert (stack + [c])[last := top] == stack[last := top] + [c];
    } else {
      assert target.Found? ==> visited + {target.file} == visited;
      assert visited + {} == visited;
      AdvanceProgress(files, main, forced, stack, visited, allHeaders, last, top);
    }
  }

  /** With nothing left on the stack the scan has found the closure. */
  lemma DoneIsClosure(files: Sources, main: FileId, forced: seq<Target>, visited: set<FileId>, allHeaders: set<FileId>)
    requires Progress(files, main, forced, [], visited, allHeaders) && TargetsInto(forced, visited)
    ensures IsClosure(files, main, forced, allHeaders) && !Spoiled(files, allHeaders + {main})
  {
    assert StackFiles([]) == {};
    assert visited == allHeaders;
  }

  /** A file with a marked include cannot be covered without a computed include. */
  lemma MarkedSpoils(
    files: Sources, main: FileId, forced: seq<Target>, stack: seq<Context>, visited: set<FileId>, allHeaders: set<FileId>,
    target: Target, s: set<FileId>)
    requires Progress(files, main, forced, stack, visited, allHeaders) && stack != [] && Covers(files, main, forced, s)
    requires Inc(target) in files[stack[|stack| - 1].file] && target.Found? && Tainted(files, target.file)
    ensures Spoiled(files, s + {main})
  {
    var lines := files[stack[|stack| - 1].file];
    var next: nat :| next < |lines| && lines[next] == Inc(target);
    TargetCovered(files, main, forced, stack, visited, allHeaders, next, s);
    var g :| g in s && g in files && !Plain(files[g]);
    assert g in s + {main};
  }

  lemma MarkSpoils(
    files: Sources, main: FileId, forced: seq<Target>, stack: seq<Context>, visited: set<FileId>, allHeaders: set<FileId>,
    target: Target, cache: NaiveCache)
    requires Progress(files, main, forced, stack, visited, allHeaders) && stack != []
    requires Inc(target) in files[stack[|stack| - 1].file] && target.Found? && Marked(cache, target.file)
    ensures MarksOk(files, cache) ==> AllSpoiled(files, main, forced)
  {
    forall s | MarksOk(files, cache) && Covers(files, main, forced, s)
      ensures Spoiled(files, s + {main})
    {
      MarkedSpoils(files, main, forced, stack, visited, allHeaders, target, s);
    }
  }

  lemma ForcedSpoils(files: Sources, main: FileId, forced: seq<Target>, i: nat, cache: NaiveCache)
    requires i < |forced| && forced[i].Found? && Marked(cache, forced[i].file)
    ensures MarksOk(files, cache) ==> AllSpoiled(files, main, forced)
  {
    forall s | MarksOk(files, cache) && Covers(files, main, forced, s)
      ensures Spoiled(files, s + {main})
    {
      assert forced[i].file in s && Tainted(files, forced[i].file);
      var g :| g in s && g in files && !Plain(files[g]);
      assert g in s + {main};
    }
  }

  lemma ChainedPush(files: Sources, stack: seq<Context>, top: Context, c: Context)
    requires Chained(files, stack) && stack != [] && top.file == stack[|stack| - 1].file
    ensures Chained(files, stack[|stack| - 1 := top])
    ensures Leads(files, top.file, c.file) ==> Chained(files, stack[|stack| - 1 := top] + [c])
  {
    var stack' := stack[|stack| - 1 := top];
    assert forall i :: 0 <= i < |stack| ==> stack'[i].file == stack[i].file;
    forall i | 0 < i < |stack'|
      ensures Leads(files, stack'[i - 1].file, stack'[i].file)
    {
      assert Leads(files, stack[i - 1].file, stack[i].file);
    }
  }

  predicate OnStack(stack: seq<Context>, f: FileId) {
    exists i :: 0 <= i < |stack| && stack[i].file == f
  }

  lemma OnStackPush(stack: seq<Context>, c: Context)
    ensures forall f :: OnStack(stack + [c], f) <==> OnStack(stack, f) || f == c.file
  {
    forall f
      ensures OnStack(stack + [c], f) <==> OnStack(stack, f) || f == c.file
    {
      assert (stack + [c])[|stack|] == c;
      if OnStack(stack, f) {
        var i :| 0 <= i < |stack| && stack[i].file == f;
        assert (stack + [c])[i].file == f;
      }
    }
  }

  ghost predicate StackOpened(main: FileId, stack: seq<Context>, targets: seq<Target>) {
    && stack != [] && stack[0].file == main
    && stack[|stack| - 1].file == LastOpened(main, targets)
    && (forall f :: Found(f) in targets ==> OnStack(stack, f))
    && (OnlyMain(main, targets) ==> forall k :: 0 <= k < |stack| ==> stack[k].file == main)
  }

  /** The files of `stack0` still lie at the bottom of the stack. */
  predicate Below(stack0: seq<Context>, stack: seq<Context>) {
    |stack0| <= |stack| && forall k {:trigger stack0[k]} {:trigger stack[k]} :: 0 <= k < |stack0| ==> stack[k].file == stack0[k].file
  }

  predicate HasComputed(files: Sources, stack: seq<Context>) {
    stack != [] && stack[|stack| - 1].file in files && !Plain(files[stack[|stack| - 1].file])
  }

  /** How a scan that fails leaves the marks. */
  ghost predicate MarksLeft(files: Sources, cache0: NaiveCache, stack0: seq<Context>, stack: seq<Context>, cache: NaiveCache) {
    && (MarksOk(files, cache0) && Chained(files, stack0) ==> MarksOk(files, cache))
    && (Unmarked(cache0) ==> forall f :: OnStack(stack, f) ==> Marked(cache, f))
  }

  /** At most the header on top has gone, and that only if it has no computed include. */
  predicate Keeps(files: Sources, stack0: seq<Context>, stack: seq<Context>) {
    stack0 != [] && (Below(stack0, stack) || (!HasComputed(files, stack0) && Below(stack0[..|stack0| - 1], stack)))
  }

  lemma KeepsOn(files: Sources, stack0: seq<Context>, stack1: seq<Context>, stack2: seq<Context>)
    requires HasComputed(files, stack0) && Below(stack0, stack1) && Keeps(files, stack1, stack2)
    ensures Below(stack0, stack2)
  {
    if !Below(stack1, stack2) {
      assert |stack1| > |stack0|;
      var below := stack1[..|stack1| - 1];
      assert forall k :: 0 <= k < |below| ==> below[k] == stack1[k];
    }
  }

  lemma BelowAdvanced(stack0: seq<Context>, stack1: seq<Context>, stack2: seq<Context>)
    requires stack0 != [] && |stack1| == |stack0| <= |stack2| && stack2[..|stack1|] == stack1
    requires stack1[..|stack1| - 1] == stack0[..|stack1| - 1] && stack1[|stack1| - 1].file == stack0[|stack1| - 1].file
    ensures Below(stack0, stack2)
  {
    forall k | 0 <= k < |stack0|
      ensures stack2[k].file == stack0[k].file
    {
      assert stack2[k] == stack2[..|stack1|][k] == stack1[k];
      assert k < |stack0| - 1 ==> stack1[k] == stack1[..|stack1| - 1][k] == stack0[..|stack1| - 1][k] == stack0[k];
    }
  }

  lemma StillOnStack(stack0: seq<Context>, stack1: seq<Context>)
    requires Below(stack0, stack1)
    ensures forall f :: OnStack(stack0, f) ==> OnStack(stack1, f)
  {
    forall f | OnStack(stack0, f)
      ensures OnStack(stack1, f)
    {
      var k :| 0 <= k < |stack0| && stack0[k].file == f;
      assert stack1[k].file == f;
    }
  }

  class NaivePreprocessor {
    const files: Sources
    const main: FileId
    const forced: seq<Target>
    var cache: NaiveCache
    var stack: seq<Context>
    var visited: set<FileId>
    var allHeaders: set<FileId>

    constructor (files: Sources, main: FileId, forced: seq<Target>, cache: NaiveCache)
      ensures this.files == files && this.main == main && this.forced == forced && this.cache == cache
      ensures stack == [] && visited == {} && allHeaders == {}
    {
      this.files, this.main, this.forced, this.cache := files, main, forced, cache;
      stack, visited, allHeaders := [], {}, {};
    }

    ghost predicate Wanted() {
      Expected(files, main, forced)
    }

    ghost predicate Scanning()
      reads this
    {
      ListsOk(files, cache) && Progress(files, main, forced, stack, visited, allHeaders)
    }

    method PushHeader(file: FileId, found: bool, includes: seq<Target>)
      modifies this`stack
      ensures stack == old(stack) + [Context(file, if found then Fixed(includes, 0) else Lexing([], 0))]
    {
      stack := stack + [Context(file, if found then Fixed(includes, 0) else Lexing([], 0))];
    }

    method PopHeader()
      requires stack != []
      modifies this`stack, this`allHeaders
      ensures stack == old(stack)[..|old(stack)| - 1]
      ensures allHeaders == old(allHeaders) + if |old(stack)| > 1 then {old(stack)[|old(stack)| - 1].file} else {}
    {
      var top := stack[|stack| - 1];
      stack := stack[..|stack| - 1];
      if stack != [] {
        allHeaders := allHeaders + {top.file};
      }
    }

    /** False if the header is known to lead to a computed include. */
    method HandleInclude(target: Target) returns (ok: bool)
      modifies this`stack, this`visited
      ensures var pushes := target.Found? && target.file !in old(visited);
        && visited == old(visited) + (if pushes then {target.file} else {})
        && ok == !(pushes && target.file in cache && cache[target.file].complex)
        && stack == old(stack) + (if pushes && ok
              then [Context(target.file, if target.file in cache then Fixed(cache[target.file].includes, 0) else Lexing([], 0))]
              else [])
    {
      if target.Missing? || target.file in visited {
        return true;
      }
      visited := visited + {target.file};
      var foundInCache := target.file in cache;
      var includes := [];
      if foundInCache {
        if cache[target.file].complex {
          return false;
        }
        includes := cache[target.file].includes;
      }
      PushHeader(target.file, foundInCache, includes);
      return true;
    }

    /** The next include of the header on top; a header read to its end enters the cache. */
    method NextInclude() returns (r: NextInclude)
      requires stack != [] && stack[|stack| - 1].file in files
      requires ContextOk(files, stack[|stack| - 1], visited) && ListsOk(files, cache)
      modifies this`stack, this`cache
      ensures ListsOk(files, cache)
      ensures NoNewMarks(old(cache), cache)
      ensures var top := old(stack)[|old(stack)| - 1];
        cache == if r.HeaderDone? && top.finder.Lexing? then old(cache)[top.file := CacheEntry(false, top.finder.includes)] else old(cache)
      ensures r.IncludeFound? ==> TopLeft() < old(TopLeft())
      ensures var top := old(stack)[|old(stack)| - 1];
        var lines, next := files[top.file], top.finder.next;
        && |stack| == |old(stack)| && stack[..|stack| - 1] == old(stack)[..|stack| - 1]
        && stack[|stack| - 1].file == top.file
        && (r.HeaderDone? ==> next == |lines| && stack == old(stack))
        && (r.HeaderComplex? ==> next < |lines| && lines[next] == Computed && stack == old(stack))
        && (r.IncludeFound? ==>
              && next < |lines| && lines[next] == Inc(r.target)
              && stack[|stack| - 1].finder.next == next + 1
              && ContextOk(files, stack[|stack| - 1], visited + if r.target.Found? then {r.target.file} else {}))
    {
      var top := stack[|stack| - 1];
      var lines := files[top.file];
      match top.finder {
        case Fixed(includes, next) =>
          if next == |includes| {
            return HeaderDone;
          }
          r := IncludeFound(includes[next]);
          stack := stack[|stack| - 1 := Context(top.file, Fixed(includes, next + 1))];
          Consumed(lines, next, visited);
        case Lexing(includes, next) =>
          if next == |lines| {
            assert lines[..next] == lines;
            cache := cache[top.file := CacheEntry(false, includes)];
            return HeaderDone;
          }
          if lines[next] == Computed {
            return HeaderComplex;
          }
          r := IncludeFound(lines[next].target);
          Consumed(lines, next, visited);
          assert TargetsOf(lines[..next + 1]) == includes + [lines[next].target];
          stack := stack[|stack| - 1 := Context(top.file, Lexing(includes + [lines[next].target], next + 1))];
      }
    }

    static lemma Consumed(lines: seq<Line>, next: nat, visited: set<FileId>)
      requires next < |lines| && lines[next].Inc? && Plain(lines[..next]) && AllInto(lines[..next], visited)
      ensures Plain(lines[..next + 1])
      ensures AllInto(lines[..next + 1], visited + if lines[next].target.Found? then {lines[next].target.file} else {})
    {
      var visited' := visited + if lines[next].target.Found? then {lines[next].target.file} else {};
      forall i | 0 <= i < next
        ensures lines[i].Inc? && LeadsInto(lines[i], visited')
      {
        assert lines[..next][i] == lines[i] && LeadsInto(lines[..next][i], visited);
      }
      assert forall i :: 0 <= i < next + 1 ==> lines[..next + 1][i] == lines[i];
    }

    /** The main file and the forced headers lie on the stack. */
    ghost predicate Opened(targets: seq<Target>)
      reads this
    {
      StackOpened(main, stack, targets)
    }

    lemma OpenedMore(stack0: seq<Context>, targets: seq<Target>, t: Target)
      requires StackOpened(main, stack0, targets)
      requires if t.Found? && t !in targets then |stack| == |stack0| + 1 && stack[..|stack0|] == stack0 && stack[|stack0|].file == t.file
        else stack == stack0
      ensures Opened(targets + [t])
    {
      assert (targets + [t])[..|targets|] == targets;
      forall f | Found(f) in targets + [t]
        ensures OnStack(stack, f)
      {
        if Found(f) in targets {
          var k :| 0 <= k < |stack0| && stack0[k].file == f;
          assert stack[k] == stack0[k];
        } else {
          assert stack[|stack0|].file == f;
        }
      }
      if OnlyMain(main, targets + [t]) {
        assert forall i :: 0 <= i < |targets| ==> targets[i] == (targets + [t])[i];
        assert OnlyMain(main, targets);
        assert t == (targets + [t])[|targets|];
      }
    }

    /** The includes forced on the file open one header on top of the other. */
    method HandleForced() returns (ok: bool)
      requires Wanted() && Scanning() && |stack| == 1 && visited == {}
      modifies this`stack, this`visited
      ensures ok ==> Scanning() && Opened(forced) && TargetsInto(forced, visited)
      ensures !ok && MarksOk(files, cache) ==> AllSpoiled(files, main, forced)
      ensures Unmarked(cache) ==> ok
    {
      var i := 0;
      assert forced[..0] == [];
      while i < |forced|
        invariant i <= |forced|
        invariant Scanning() && Opened(forced[..i])
        invariant forall f :: f in visited <==> Found(f) in forced[..i]
      {
        ghost var stack0, visited0 := stack, visited;
        ok := HandleInclude(forced[i]);
        if !ok {
          ForcedSpoils(files, main, forced, i, cache);
          assert Marked(cache, forced[i].file);
          return;
        }
        OpenedProgress(files, main, forced, i, cache, stack0, visited0, allHeaders, stack, visited);
        assert forced[..i + 1] == forced[..i] + [forced[i]];
        OpenedMore(stack0, forced[..i], forced[i]);
        i := i + 1;
      }
      assert forced[..i] == forced;
      assert forall j :: 0 <= j < |forced| && forced[j].Found? ==> Found(forced[j].file) in forced;
      return true;
    }

    /** One include of the header on top is followed. */
    method FollowInclude(target: Target, ghost stack0: seq<Context>) returns (ok: bool)
      requires Wanted() && ListsOk(files, cache) && stack0 != [] && Progress(files, main, forced, stack0, visited, allHeaders)
      requires |stack| == |stack0| && stack[..|stack| - 1] == stack0[..|stack| - 1]
      requires stack[|stack| - 1].file == stack0[|stack| - 1].file
      requires Inc(target) in files[stack[|stack| - 1].file]
      requires ContextOk(files, stack[|stack| - 1], visited + if target.Found? then {target.file} else {})
      modifies this`stack, this`visited
      ensures ok ==> Scanning() && (Chained(files, stack0) ==> Chained(files, stack))
      ensures old(visited) <= visited
      ensures ok ==> Unvisited() < old(Unvisited()) || (visited == old(visited) && stack == old(stack))
      ensures !ok && MarksOk(files, cache) ==> AllSpoiled(files, main, forced)
      ensures !ok ==> !Unmarked(cache)
      ensures |old(stack)| <= |stack| && stack[..|old(stack)|] == old(stack)
    {
      ghost var visited0, top := visited, stack[|stack| - 1];
      assert stack == stack0[|stack| - 1 := top];
      ok := HandleInclude(target);
      if !ok {
        MarkSpoils(files, main, forced, stack0, visited0, allHeaders, target, cache);
        assert Marked(cache, target.file);
        return;
      }
      ghost var c := stack[|stack| - 1];
      FollowProgress(files, main, forced, stack0, visited0, allHeaders, top, target, c);
      if target.Found? && target.file !in visited0 {
        assert stack == stack0[|stack0| - 1 := top] + [c] && visited == visited0 + {c.file};
        Fewer(files.Keys, visited0, visited);
      } else {
        assert stack == stack0[|stack0| - 1 := top] && visited == visited0;
      }
      if Chained(files, stack0) {
        ChainedPush(files, stack0, top, c);
      }
    }

    /** The include the header on top has just handed out is followed. */
    method OpenInclude(target: Target, ghost stack0: seq<Context>) returns (ok: bool)
      requires Wanted() && ListsOk(files, cache) && stack0 != [] && Progress(files, main, forced, stack0, visited, allHeaders)
      requires |stack| == |stack0| && stack[..|stack| - 1] == stack0[..|stack| - 1]
      requires stack[|stack| - 1].file == stack0[|stack| - 1].file
      requires Inc(target) in files[stack[|stack| - 1].file]
      requires ContextOk(files, stack[|stack| - 1], visited + if target.Found? then {target.file} else {})
      requires TopLeft() < Left(stack0[|stack0| - 1])
      modifies this`stack, this`visited
      ensures old(visited) <= visited && Keeps(files, stack0, stack)
      ensures ok ==> Scanning() && (Chained(files, stack0) ==> Chained(files, stack)) && Smaller(old(visited), stack0)
      ensures !ok && MarksOk(files, cache) ==> AllSpoiled(files, main, forced)
      ensures !ok ==> !Unmarked(cache)
    {
      ghost var stack1 := stack;
      ok := FollowInclude(target, stack0);
      BelowAdvanced(stack0, stack1, stack);
    }

    /** Less is left to do than before. */
    ghost predicate Smaller(visited0: set<FileId>, stack0: seq<Context>)
      reads this
    {
      && stack0 != [] && Unvisited() <= |files.Keys - visited0|
      && (Unvisited() == |files.Keys - visited0| ==> |stack| <= |stack0|)
      && (Unvisited() == |files.Keys - visited0| && |stack| == |stack0| ==> TopLeft() < Left(stack0[|stack0| - 1]))
    }

    /** Every header on the stack is known from now on to lead to a computed include. */
    method MarkComplex()
      modifies this`cache
      ensures forall f {:trigger Marked(cache, f)} :: Marked(cache, f) <==> Marked(old(cache), f) || OnStack(stack, f)
      ensures forall f :: f in cache && !cache[f].complex ==> f in old(cache) && cache[f] == old(cache)[f]
    {
      var k := 0;
      while k < |stack|
        invariant k <= |stack|
        invariant forall f {:trigger Marked(cache, f)} :: Marked(cache, f) <==> Marked(old(cache), f) || OnStack(stack[..k], f)
        invariant forall f :: f in cache && !cache[f].complex ==> f in old(cache) && cache[f] == old(cache)[f]
      {
        var f := stack[k].file;
        assert stack[..k + 1] == stack[..k] + [stack[k]];
        OnStackPush(stack[..k], stack[k]);
        ghost var cache0 := cache;
        cache := cache[f := CacheEntry(true, if f in cache then cache[f].includes else [])];
        assert forall g {:trigger Marked(cache, g)} :: Marked(cache, g) <==> Marked(cache0, g) || g == f;
        k := k + 1;
      }
      assert stack[..k] == stack;
    }

    /** The marks are right if every header on the stack is included by the one below it. */
    lemma {:induction false} StackTainted(k: nat)
      requires Chained(files, stack) && k < |stack| && Tainted(files, stack[|stack| - 1].file)
      ensures Tainted(files, stack[k].file)
      decreases |stack| - k
    {
      if k < |stack| - 1 {
        StackTainted(k + 1);
        assert Leads(files, stack[k + 1 - 1].file, stack[k + 1].file);
        if stack[k].file != stack[k + 1].file {
          TaintSpreads(files, stack[k].file, stack[k + 1].file);
        }
      }
    }

    /** The header on top has been read to its end. */
    method FinishHeader()
      requires Scanning() && stack != []
      requires stack[|stack| - 1].finder.next == |files[stack[|stack| - 1].file]|
      modifies this`stack, this`allHeaders
      ensures Scanning() && stack == old(stack)[..|old(stack)| - 1] && Keeps(files, old(stack), stack)
      ensures Smaller(old(visited), old(stack))
    {
      assert ContextOk(files, stack[|stack| - 1], visited);
      ghost var lines := files[stack[|stack| - 1].file];
      assert lines[..|lines|] == lines;
      PopProgress(files, main, forced, stack, visited, allHeaders);
      PopHeader();
    }

    /** The header on top has turned out to be complex. */
    method GiveUp() returns (ok: bool)
      requires Scanning() && stack != []
      requires stack[|stack| - 1].file in files && !Plain(files[stack[|stack| - 1].file])
      modifies this`cache
      ensures !ok && ListsOk(files, cache) && AllSpoiled(files, main, forced)
      ensures MarksLeft(files, old(cache), stack, stack, cache) && Keeps(files, stack, stack)
    {
      ComputedTaints(files, stack[|stack| - 1].file);
      SpoiledByTop();
      StackIsTainted();
      MarkComplex();
      ok := false;
    }

    /** One turn of the scan; it fails if the header on top is found to be complex. */
    method Turn() returns (ok: bool)
      requires Wanted() && Scanning() && stack != []
      modifies this`stack, this`visited, this`cache, this`allHeaders
      ensures ListsOk(files, cache) && old(visited) <= visited && Keeps(files, old(stack), stack)
      ensures ok ==> Scanning() && (Chained(files, old(stack)) ==> Chained(files, stack))
      ensures ok ==> Smaller(old(visited), old(stack))
      ensures !ok && MarksOk(files, old(cache)) ==> AllSpoiled(files, main, forced)
      ensures if ok then NoNewMarks(old(cache), cache) else MarksLeft(files, old(cache), old(stack), stack, cache)
    {
      ghost var stack0 := stack;
      assert ContextOk(files, stack[|stack| - 1], visited);
      var r := NextInclude();
      if r.IncludeFound? {
        ok := OpenInclude(r.target, stack0);
      } else {
        ok := EndHeader(r.HeaderDone?);
      }
    }

    /** Nothing more comes from the header on top: it has been read, or is complex. */
    method EndHeader(done: bool) returns (ok: bool)
      requires Scanning() && stack != [] && stack[|stack| - 1].file in files
      requires if done then stack[|stack| - 1].finder.next == |files[stack[|stack| - 1].file]|
        else !Plain(files[stack[|stack| - 1].file])
      modifies this`stack, this`cache, this`allHeaders
      ensures ok == done && ListsOk(files, cache) && Keeps(files, old(stack), stack)
      ensures ok ==> Scanning() && (Chained(files, old(stack)) ==> Chained(files, stack))
      ensures ok ==> Smaller(visited, old(stack)) && cache == old(cache)
      ensures !ok ==> AllSpoiled(files, main, forced) && MarksLeft(files, old(cache), old(stack), stack, cache)
    {
      if done {
        FinishHeader();
        ok := true;
      } else {
        ok := GiveUp();
      }
    }

    lemma StackIsTainted()
      requires stack != [] && Tainted(files, stack[|stack| - 1].file)
      ensures Chained(files, stack) ==> forall k :: 0 <= k < |stack| ==> Tainted(files, stack[k].file)
    {
      if Chained(files, stack) {
        forall k | 0 <= k < |stack|
          ensures Tainted(files, stack[k].file)
        {
          StackTainted(k);
        }
      }
    }

    /** Headers are scanned until none is left open. */
    method ScanHeaders() returns (ok: bool)
      requires Wanted() && Scanning() && TargetsInto(forced, visited) && stack != []
      modifies this`stack, this`visited, this`cache, this`allHeaders
      ensures ListsOk(files, cache)
      ensures ok ==> Scanning() && stack == [] && TargetsInto(forced, visited)
      ensures !ok && MarksOk(files, old(cache)) ==> AllSpoiled(files, main, forced)
      ensures (ok || Chained(files, old(stack))) && MarksOk(files, old(cache)) ==> MarksOk(files, cache)
      ensures ok ==> NoNewMarks(old(cache), cache)
      ensures HasComputed(files, old(stack)) ==> !ok
      ensures HasComputed(files, old(stack)) && Unmarked(old(cache)) ==> forall f :: OnStack(old(stack), f) ==> Marked(cache, f)
    {
      ghost var stack0 := stack;
      while stack != []
        invariant Wanted() && Scanning() && TargetsInto(forced, visited)
        invariant NoNewMarks(old(cache), cache)
        invariant Chained(files, stack0) ==> Chained(files, stack)
        invariant HasComputed(files, stack0) ==> Below(stack0, stack)
        decreases Unvisited(), |stack|, TopLeft()
      {
        ghost var stack1 := stack;
        ok := Turn();
        if HasComputed(files, stack0) {
          KeepsOn(files, stack0, stack1, stack);
          StillOnStack(stack0, stack);
        }
        if !ok {
          return;
        }
      }
      return true;
    }

    /** The scan succeeds exactly if nothing that can be reached has a computed include,
        provided the marks in the cache are right; its result is then the include closure,
        whatever the cache holds. */
    method Run() returns (ok: bool, result: set<FileId>)
      requires Wanted() && ListsOk(files, cache) && stack == [] && visited == {} && allHeaders == {}
      modifies this
      ensures ok ==> IsClosure(files, main, forced, result) && !Spoiled(files, result + {main})
      ensures !ok && MarksOk(files, old(cache)) ==> AllSpoiled(files, main, forced)
      ensures RunLeaves(files, main, forced, old(cache), ok, cache)
    {
      PushHeader(main, false, []);
      assert files[main][..0] == [];
      ok := HandleForced();
      if ok {
        SameFileChains();
        ok := ScanHeaders();
      }
      if ok {
        DoneIsClosure(files, main, forced, visited, allHeaders);
      }
      result := allHeaders;
    }

    lemma SameFileChains()
      requires Opened(forced)
      ensures OnlyMain(main, forced) ==> Chained(files, stack)
      ensures OnStack(stack, main) && forall i {:trigger forced[i]} :: 0 <= i < |forced| && forced[i].Found? ==> OnStack(stack, forced[i].file)
    {
      assert stack[0].file == main;
      forall i | 0 <= i < |forced| && forced[i].Found?
        ensures OnStack(stack, forced[i].file)
      {
        assert Found(forced[i].file) == forced[i];
      }
    }

    ghost function Unvisited(): nat
      reads this
    {
      |files.Keys - visited|
    }

    ghost function TopLeft(): nat
      reads this
    {
      if stack == [] then 0 else Left(stack[|stack| - 1])
    }

    ghost function Left(c: Context): nat {
      if c.file in files && c.finder.next <= |files[c.file]| then |files[c.file]| - c.finder.next else 0
    }

    static lemma Fewer(all: set<FileId>, before: set<FileId>, after: set<FileId>)
      requires before <= after <= all
      ensures |all - after| <= |all - before| && (before != after ==> |all - after| < |all - before|)
    {
      assert all - before == (all - after) + (after - before);
    }

    lemma SpoiledByTop()
      requires Scanning() && stack != [] && !Plain(files[stack[|stack| - 1].file])
      ensures AllSpoiled(files, main, forced)
    {
      forall s | Covers(files, main, forced, s)
        ensures Spoiled(files, s + {main})
      {
        TopCovered(files, main, forced, stack, visited, allHeaders, s);
        assert ContextOk(files, stack[|stack| - 1], visited);
        assert stack[|stack| - 1].file in s + {main};
      }
    }
  }

  /** There is only one closure, so what the cache holds makes no difference to a result. */
  lemma ClosureIsUnique(files: Sources, main: FileId, forced: seq<Target>, r: set<FileId>, r': set<FileId>)
    requires IsClosure(files, main, forced, r) && IsClosure(files, main, forced, r')
    ensures r == r'
  {
    assert r <= r' && r' <= r;
  }

  // --- The scan covers what preprocessing includes -----------------------------------

  /** The includes of a text in their order, conditions left aside. */
  function LinesOf(items: Items): seq<Line> {
    match items
    case End => []
    case Then(head, tail) => ItemLines(head) + LinesOf(tail)
  }

  function ItemLines(item: Item): seq<Line> {
    match item
    case Include(target) => [Inc(target)]
    case If(_, body, rest) => LinesOf(body) + RestLines(rest)
    case _ => []
  }

  function RestLines(rest: Rest): seq<Line> {
    match rest
    case Endif => []
    case Elif(_, body, more) => LinesOf(body) + RestLines(more)
    case Else(body) => LinesOf(body)
  }

  lemma IntoConcat(a: seq<Line>, b: seq<Line>, s: set<FileId>)
    ensures AllInto(a + b, s) <==> AllInto(a, s) && AllInto(b, s)
  {
    if AllInto(a + b, s) {
      forall i | 0 <= i < |a|
        ensures LeadsInto(a[i], s)
      {
        assert (a + b)[i] == a[i];
      }
      forall i | 0 <= i < |b|
        ensures LeadsInto(b[i], s)
      {
        assert (a + b)[|a| + i] == b[i];
      }
    }
  }

  lemma {:induction false} SelectedInto(test: Test, body: Items, rest: Rest, m: MacroMap, s: set<FileId>)
    requires AllInto(LinesOf(body), s) && AllInto(RestLines(rest), s)
    ensures AllInto(LinesOf(Select(test, body, rest, m).body), s)
    decreases rest
  {
    if !Evaluate(test, m, []).taken {
      match rest
      case Endif =>
      case Elif(test', body', more) =>
        IntoConcat(LinesOf(body'), RestLines(more), s);
        SelectedInto(test', body', more, m, s);
      case Else(body') =>
    }
  }

  /** The scanned sources are those of the files preprocessed. */
  ghost predicate Scans(sources: Sources, files: Files) {
    forall f {:trigger sources[f]} :: f in sources ==> sources[f] == LinesOf(files(f))
  }

  /** Whatever the macros are, preprocessing includes only files of a closed set that holds
      everything the text could include. */
  lemma {:induction false} ExecStaysInside(sources: Sources, files: Files, self: FileId, items: Items, m: MacroMap, depth: nat, s: set<FileId>)
    requires Scans(sources, files) && Closed(sources, s) && AllInto(LinesOf(items), s)
    ensures ExecItems(files, self, items, m, depth).headers <= s
    decreases depth, Size(items), 1
  {
    match items
    case End =>
    case Then(head, tail) =>
      IntoConcat(ItemLines(head), LinesOf(tail), s);
      ExecItemStaysInside(sources, files, self, head, m, depth, s);
      ExecStaysInside(sources, files, self, tail, m + ExecItem(files, self, head, m, depth).changes, depth, s);
  }

  lemma {:induction false} ExecItemStaysInside(sources: Sources, files: Files, self: FileId, item: Item, m: MacroMap, depth: nat, s: set<FileId>)
    requires Scans(sources, files) && Closed(sources, s) && AllInto(ItemLines(item), s)
    ensures ExecItem(files, self, item, m, depth).headers <= s
    decreases depth, ItemSize(item), 2
  {
    match item
    case Include(target) =>
      assert LeadsInto(ItemLines(item)[0], s);
      if target.Found? && Lookup(m, OnceMarker(target.file)) == Undefined && depth > 0 {
        assert sources[target.file] == LinesOf(files(target.file));
        ExecStaysInside(sources, files, target.file, files(target.file), m, depth - 1, s);
      }
    case If(test, body, rest) =>
      IntoConcat(LinesOf(body), RestLines(rest), s);
      SelectedInto(test, body, rest, m, s);
      ExecStaysInside(sources, files, self, Select(test, body, rest, m).body, m, depth, s);
    case _ =>
  }

  /** The closure the naive scan finds holds every file the preprocessor would include,
      under any macros and to any depth. */
  lemma ClosureCoversPreprocessing(
    sources: Sources, files: Files, main: FileId, forced: seq<Target>, r: set<FileId>, m: MacroMap, depth: nat)
    requires Scans(sources, files) && IsClosure(sources, main, forced, r)
    ensures ExecFile(files, main, m, depth).headers <= r
  {
    assert sources[main] == LinesOf(files(main));
    ExecStaysInside(sources, files, main, files(main), m, depth, r);
  }

  // --- Marks left by forced includes -------------------------------------------------

  /** All files are empty but the forced one opened last, which has a computed include. */
  function LastIsComputed(main: FileId, forced: seq<Target>): Sources {
    map f | f in {main} + FoundIn(forced) :: if f == LastOpened(main, forced) then [Computed] else []
  }

  function FoundIn(targets: seq<Target>): set<FileId> {
    set i | 0 <= i < |targets| && targets[i].Found? :: targets[i].file
  }

  lemma {:induction false} LastIsFound(main: FileId, forced: seq<Target>)
    ensures LastOpened(main, forced) in {main} + FoundIn(forced)
  {
    if forced != [] {
      var n := |forced| - 1;
      LastIsFound(main, forced[..n]);
      assert FoundIn(forced[..n]) <= FoundIn(forced);
    }
  }

  lemma LastIsExpected(main: FileId, forced: seq<Target>)
    ensures Expected(LastIsComputed(main, forced), main, forced)
    ensures var last := LastOpened(main, forced); last in LastIsComputed(main, forced) && !Plain(LastIsComputed(main, forced)[last])
  {
    LastIsFound(main, forced);
    var files, last := LastIsComputed(main, forced), LastOpened(main, forced);
    assert files[last][0] == Computed;
    forall f | f in files
      ensures AllInto(files[f], files.Keys)
    {
    }
  }

  /** A file among the main one and the forced ones that is not the one opened last. */
  lemma OtherFile(main: FileId, forced: seq<Target>) returns (f: FileId)
    requires !OnlyMain(main, forced)
    ensures f != LastOpened(main, forced) && (f == main || Found(f) in forced)
    ensures f in LastIsComputed(main, forced) && !Tainted(LastIsComputed(main, forced), f)
  {
    var i :| 0 <= i < |forced| && forced[i].Found? && forced[i].file != main;
    f := if LastOpened(main, forced) == main then forced[i].file else main;
    assert f == main || (Found(f) == forced[i] && f in FoundIn(forced));
    EmptyIsUntainted(LastIsComputed(main, forced), f);
  }

  /** A run on these files leaves a wrong mark, as every run does that is described by the
      contract. */
  lemma ForcedMarksWrong(main: FileId, forced: seq<Target>, ok: bool, cache: NaiveCache) returns (f: FileId)
    requires !OnlyMain(main, forced) && RunLeaves(LastIsComputed(main, forced), main, forced, map[], ok, cache)
    ensures Marked(cache, f) && !Tainted(LastIsComputed(main, forced), f)
  {
    LastIsExpected(main, forced);
    f := OtherFile(main, forced);
    if f != main {
      var i :| 0 <= i < |forced| && forced[i] == Found(f);
      assert forced[i].Found?;
    }
  }

  /** Whatever the sources and the cache, a run leaves right marks right. */
  ghost predicate AlwaysRight(main: FileId, forced: seq<Target>) {
    forall files, cache, ok, cache' {:trigger RunLeaves(files, main, forced, cache, ok, cache')} ::
      (Expected(files, main, forced) && ListsOk(files, cache) && MarksOk(files, cache)
        && RunLeaves(files, main, forced, cache, ok, cache')) ==> MarksOk(files, cache')
  }

  /** The marks stay right exactly if nothing but the main file itself is forced on it. This is
      about everything the contract of `Run` admits: that a scan keeps to it is proved there,
      and that one really leaves a wrong mark below. */
  lemma ForcedMarksExactly(main: FileId, forced: seq<Target>)
    ensures AlwaysRight(main, forced) <==> OnlyMain(main, forced)
  {
    if !OnlyMain(main, forced) {
      var files := LastIsComputed(main, forced);
      var cache := map f | f in {main} + FoundIn(forced) :: CacheEntry(true, []);
      LastIsExpected(main, forced);
      assert AllMarked(main, forced, cache);
      assert RunLeaves(files, main, forced, map[], false, cache);
      var f := ForcedMarksWrong(main, forced, false, cache);
    }
  }

  /** The scan itself, run on these files: it fails, as it should, and leaves a wrong mark. */
  method ForcedMarks(main: FileId, forced: seq<Target>) returns (cache: NaiveCache)
    requires !OnlyMain(main, forced)
    ensures !MarksOk(LastIsComputed(main, forced), cache)
  {
    LastIsExpected(main, forced);
    var scan := new NaivePreprocessor(LastIsComputed(main, forced), main, forced, map[]);
    var ok, _ := scan.Run();
    ghost var f := ForcedMarksWrong(main, forced, ok, scan.cache);
    cache := scan.cache;
  }

  lemma EmptyIsUntainted(files: Sources, f: FileId)
    requires f in files && files[f] == []
    ensures !Tainted(files, f)
  {
    assert Closed(files, {f}) && !Spoiled(files, {f});
  }
}
