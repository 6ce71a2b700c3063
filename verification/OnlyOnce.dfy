/** What #pragma once is for: a file that has run it is not read again. */
module OnlyOnce {
  import opened Macros
  import opened Directives
  import opened Recording
  import opened DeferredReads
  import opened SteadyConditions
  import opened ConsistentKeys
  import opened Replay
  import opened Deferral

  /** The file says it outside of any conditional. */
  predicate SaysOnce(items: Items) {
    match items
    case End => false
    case Then(head, tail) => head.PragmaOnce? || SaysOnce(tail)
  }

  predicate Marked(m: MacroMap, f: FileId) {
    Lookup(m, OnceMarker(f)) != Undefined
  }

  // --- Preprocessing -------------------------------------------------------------------

  /** No text ever takes a mark away. */
  ghost predicate KeepsMarks(o: Outcome) {
    forall f :: OnceMarker(f) in o.changes ==> o.changes[OnceMarker(f)] != Undefined
  }

  lemma {:induction false} ItemsKeepMarks(files: Files, self: FileId, items: Items, m: MacroMap, depth: nat)
    ensures KeepsMarks(ExecItems(files, self, items, m, depth))
    decreases depth, Size(items), 1
  {
    if items.Then? {
      ItemKeepsMarks(files, self, items.head, m, depth);
      ItemsKeepMarks(files, self, items.tail, m + ExecItem(files, self, items.head, m, depth).changes, depth);
    }
  }

  lemma {:induction false} ItemKeepsMarks(files: Files, self: FileId, item: Item, m: MacroMap, depth: nat)
    ensures KeepsMarks(ExecItem(files, self, item, m, depth))
    decreases depth, ItemSize(item), 2
  {
    match item
    case Include(Found(f)) =>
      if !Marked(m, f) && depth > 0 {
        ItemsKeepMarks(files, f, files(f), m, depth - 1);
      }
    case If(test, body, rest) => ItemsKeepMarks(files, self, Select(test, body, rest, m).body, m, depth);
    case _ =>
  }

  lemma {:induction false} OnceMarks(files: Files, f: FileId, items: Items, m: MacroMap, depth: nat)
    requires SaysOnce(items)
    ensures OnceMarker(f) in ExecItems(files, f, items, m, depth).changes
  {
    if !items.head.PragmaOnce? {
      OnceMarks(files, f, items.tail, m + ExecItem(files, f, items.head, m, depth).changes, depth);
    }
  }

  /** A file that is marked stays so, whatever is preprocessed. */
  lemma StaysMarked(files: Files, self: FileId, items: Items, m: MacroMap, depth: nat, f: FileId)
    requires Marked(m, f)
    ensures Marked(m + ExecItems(files, self, items, m, depth).changes, f)
  {
    ItemsKeepMarks(files, self, items, m, depth);
  }

  /** Including a marked file does nothing, at any depth. */
  lemma MarkedIsSkipped(files: Files, self: FileId, f: FileId, m: MacroMap, depth: nat)
    requires Marked(m, f)
    ensures ExecItem(files, self, Include(Found(f)), m, depth) == Outcome(map[], {f}, false)
  {
  }

  /** A file with a #pragma once that has been preprocessed is not read again, neither at once
      nor after whatever else has been preprocessed in between. */
  lemma ReadOnce(
    files: Files, self: FileId, f: FileId, m: MacroMap, depth: nat, between: Items, middle: nat, again: nat)
    requires SaysOnce(files(f))
    ensures var m1 := m + ExecFile(files, f, m, depth).changes;
      var m2 := m1 + ExecItems(files, self, between, m1, middle).changes;
      && ExecItem(files, self, Include(Found(f)), m1, again) == Outcome(map[], {f}, false)
      && ExecItem(files, self, Include(Found(f)), m2, again) == Outcome(map[], {f}, false)
  {
    var m1 := m + ExecFile(files, f, m, depth).changes;
    OnceMarks(files, f, files(f), m, depth);
    ItemsKeepMarks(files, f, files(f), m, depth);
    StaysMarked(files, self, between, m1, middle, f);
  }

  /** A file that is not marked is read: its own text decides what is changed. */
  lemma UnmarkedIsRead(files: Files, self: FileId, f: FileId, m: MacroMap, depth: nat)
    requires !Marked(m, f) && depth > 0
    ensures ExecItem(files, self, Include(Found(f)), m, depth).changes == ExecFile(files, f, m, depth - 1).changes
  {
  }

  // --- Scanning ------------------------------------------------------------------------

  lemma OneRead(r: Run, name: MacroName)
    ensures Record(r, [name]).used == Add(r.used, r.changed, (name, Lookup(r.state, name)))
  {
    var ps := Valued(r.state, [name]);
    var u := Add(r.used, r.changed, ps[0]);
    assert ps[1..] == [] && AddAll(u, r.changed, []) == u;
    assert AddAll(r.used, r.changed, ps) == AddAll(u, r.changed, ps[1..]);
  }

  /** The scanner skips a marked file: what was pending is committed, the marker has been
      read and the header noted, and nothing else happens, in the cache neither. */
  lemma ScanSkipsMarked(w: World, self: FileId, f: FileId, t: Tracker, depth: nat)
    requires Marked(t.memo.run.state, f)
    ensures var t' := TrackItem(w, self, Include(Found(f)), t, depth);
      var r, r' := Commit(t).memo.run, t'.memo.run;
      && r'.state == t.memo.run.state && r'.changed == t.memo.run.changed && r'.tooDeep == t.memo.run.tooDeep
      && r'.headers == t.memo.run.headers + {f}
      && r'.used == Add(r.used, r.changed, (OnceMarker(f), Lookup(t.memo.run.state, OnceMarker(f))))
      && t'.memo.cache == t.memo.cache && t'.memo.clock == t.memo.clock && t'.conditions == NO_CONDITIONS
  {
    OneRead(Commit(t).memo.run, OnceMarker(f));
  }

  /** Once a run has included a file that says it, the file is marked and its marker has been
      read or changed here. */
  lemma IncludeMarks(files: Files, self: FileId, f: FileId, m0: MacroMap, r: Run, depth: nat)
    requires SaysOnce(files(f)) && Faithful(m0, r) && !ObserveItem(files, self, Include(Found(f)), r, depth).tooDeep
    ensures var r' := ObserveItem(files, self, Include(Found(f)), r, depth);
      Marked(r'.state, f) && f in r'.headers && (OnceMarker(f) in r'.changed || Mentions(r'.used, OnceMarker(f)))
  {
    var item := Include(Found(f));
    ObserveItemIsExec(files, self, item, m0, r, depth);
    if Marked(r.state, f) {
      AddAllMentions(r.used, r.changed, Valued(r.state, [OnceMarker(f)]));
      assert Valued(r.state, [OnceMarker(f)])[0].0 == OnceMarker(f);
    } else {
      OnceMarks(files, f, files(f), r.state, depth - 1);
      ItemsKeepMarks(files, f, files(f), r.state, depth - 1);
    }
  }

  lemma SkipAgain(r: Run, f: FileId)
    requires f in r.headers && (OnceMarker(f) in r.changed || Mentions(r.used, OnceMarker(f)))
    ensures SkipOnce(r, f) == r
  {
    OneRead(r, OnceMarker(f));
    assert r.headers + {f} == r.headers;
  }

  /** The scanner, with its cache and with reads held back, reads such a file once: including
      it a second time leaves the whole of the scanner's state as it is. */
  lemma ScannedOnce(w: World, self: FileId, f: FileId, m0: MacroMap, s: Memo, depth: nat, again: nat)
    requires WellFormed(w.files) && SoundCache(w.files, s.cache) && Faithful(m0, s.run) && SaysOnce(w.files(f))
    requires !ObserveItem(w.files, self, Include(Found(f)), s.run, depth).tooDeep
    ensures var t := TrackItem(w, self, Include(Found(f)), Settled(s), depth);
      TrackItem(w, self, Include(Found(f)), t, again) == t
  {
    var item := Include(Found(f));
    CommitSettled(Settled(s));
    TrackIncludeDefers(w, self, f, s, depth);
    ReplayItemIsObserve(w, self, item, m0, s, depth);
    IncludeMarks(w.files, self, f, m0, s.run, depth);
    var t := TrackItem(w, self, item, Settled(s), depth);
    CommitSettled(t);
    SkipAgain(t.memo.run, f);
  }
}
