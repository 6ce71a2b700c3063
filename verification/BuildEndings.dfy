/** The steps that decide a race: a completion is registered, and a session ends. */
module BuildEndings {
  import opened SessionProtocol
  import opened BuildManager
  import opened BuildSafety

  // --- What the books depend on ----------------------------------------------------

  /** The race depends on the sessions and on who completed each task. */
  ghost predicate SameWinners(st: State, st': State) {
    && st'.sessions == st.sessions
    && (forall t :: t in st.tasks ==> t in st'.tasks && st'.tasks[t].completedBy == st.tasks[t].completedBy)
    && (forall t :: t in st'.tasks && t !in st.tasks ==> st'.tasks[t].completedBy == None)
  }

  lemma SameRace(st: State, st': State)
    requires Race(st) && SameWinners(st, st')
    ensures Race(st')
    ensures forall t :: t in st.tasks ==> Succeeded(st', t) == Succeeded(st, t)
  {
    forall s | s in st'.sessions
      ensures RaceOk(st', s)
    {
      assert RaceOk(st, s);
    }
    forall t | t in st'.tasks && st'.tasks[t].completedBy.Some?
      ensures WinnerOk(st', t)
    {
      assert WinnerOk(st, t);
    }
  }

  /** The node books depend on the sessions, the lists and the counters only. */
  lemma SameSessionsSameNodes(st: State, st': State)
    requires NodeBooks(st)
    requires st'.sessions == st.sessions && st'.live == st.live && st'.running == st.running && st'.nodes == st.nodes
    ensures NodeBooks(st')
  {
    forall n | n in st'.nodes && n in st'.running
      ensures NodeOk(st', n)
    {
      assert NodeOk(st, n);
      assert forall t :: LiveOn(st', n, t) == LiveOn(st, n, t);
    }
  }

  // --- New work --------------------------------------------------------------------

  lemma NewCommandHolds(st: State, k: CommandId, ts: set<TaskId>)
    requires Inv(st) && k !in st.commands && ts != {} && forall t :: t in ts ==> t !in st.tasks
    ensures Inv(WithCommand(st, k, ts))
  {
    var st' := WithCommand(st, k, ts);
    SameRace(st, st');
    SameSessionsSameNodes(st, st');
    NewCommandBooks(st, k, ts);
    NewCommandCommands(st, k, ts);
    NewCommandHeld(st, k, ts);
  }

  lemma NewCommandBooks(st: State, k: CommandId, ts: set<TaskId>)
    requires Books(st, None) && k !in st.commands && forall t :: t in ts ==> t !in st.tasks
    ensures Books(WithCommand(st, k, ts), None)
  {
    var st' := WithCommand(st, k, ts);
    assert forall t :: IsScheduled(st', t) == IsScheduled(st, t);
    forall s | s in st'.sessions
      ensures SessionKnown(st', s, None)
    {
      assert SessionKnown(st, s, None);
    }
    forall t | t in st'.tasks
      ensures TaskKnown(st', t)
    {
      assert t in st.tasks ==> TaskKnown(st, t);
      assert forall s :: s in st.sessions ==> SessionKnown(st, s, None);
    }
  }

  lemma NewCommandCommands(st: State, k: CommandId, ts: set<TaskId>)
    requires Books(st, None) && CommandBooks(st, None)
    requires k !in st.commands && ts != {} && forall t :: t in ts ==> t !in st.tasks
    ensures CommandBooks(WithCommand(st, k, ts), None)
  {
    var st' := WithCommand(st, k, ts);
    forall t | t in st'.tasks
      ensures t in st'.commands[st'.tasks[t].command].completed <==> Succeeded(st', t)
    {
      if t !in ts {
        NewCommandTask(st, k, ts, t);
      }
    }
    CommandKnowsTasks(st, st', k, ts);
  }

  lemma CommandKnowsTasks(st: State, st': State, k: CommandId, ts: set<TaskId>)
    requires CommandBooks(st, None) && st' == WithCommand(st, k, ts) && forall t :: t in ts ==> t !in st.tasks
    ensures forall k', t :: k' in st'.commands && t in st'.commands[k'].tasks ==> t in st'.tasks && st'.tasks[t].command == k'
  {
  }

  lemma NewCommandTask(st: State, k: CommandId, ts: set<TaskId>, t: TaskId)
    requires Books(st, None) && k !in st.commands && t in st.tasks && t !in ts
    ensures var st' := WithCommand(st, k, ts);
      && st.tasks[t].command in st.commands && st'.tasks[t] == st.tasks[t]
      && st'.commands[st'.tasks[t].command] == st.commands[st.tasks[t].command]
      && (Succeeded(st', t) <==> Succeeded(st, t))
  {
    assert TaskKnown(st, t);
  }

  lemma NewCommandHeld(st: State, k: CommandId, ts: set<TaskId>)
    requires NoTaskLost(st, {}) && forall t :: t in ts ==> t !in st.tasks
    ensures NoTaskLost(WithCommand(st, k, ts), {})
  {
    assert forall t :: t in st.tasks && Held(st, t) && t !in ts ==> Held(WithCommand(st, k, ts), t);
  }

  lemma ScheduleHolds(st: State, t: TaskId, pick: Option<NodeId>)
    requires Inv(st) && t in st.tasks && (pick.Some? ==> pick.value in st.nodes)
    ensures Inv(ScheduleTask(Marked(st, t), t, false, pick))
  {
    var st1 := Marked(st, t);
    MarkBooks(st, t);
    MarkRace(st, t);
    assert NoTaskLost(st1, {t}) by {
      assert forall u :: u in st.tasks && Held(st, u) ==> Held(st1, u);
    }
    QueueUpHolds(st1, t, false, pick);
  }

  /** A task that might have been lost is safe once it is scheduled. */
  lemma QueueUpHolds(st: State, t: TaskId, high: bool, pick: Option<NodeId>)
    requires InvBut(st, None, {t}) && IsScheduled(st, t) && (pick.Some? ==> pick.value in st.nodes)
    ensures Inv(ScheduleTask(st, t, high, pick))
  {
    var st' := ScheduleTask(st, t, high, pick);
    ScheduleRequeues(st, t, high, pick);
    RequeuedHolds(st, st', {t});
    assert Held(st', t);
  }

  lemma MarkBooks(st: State, t: TaskId)
    requires Books(st, None) && t in st.tasks
    ensures Books(Marked(st, t), None)
  {
    var st' := Marked(st, t);
    assert forall u :: IsScheduled(st, u) ==> IsScheduled(st', u);
    assert forall s :: s in st.sessions ==> SessionKnown(st, s, None);
    forall u | u in st'.tasks
      ensures TaskKnown(st', u)
    {
      assert TaskKnown(st, u);
    }
  }

  lemma MarkRace(st: State, t: TaskId)
    requires Race(st) && NodeBooks(st) && CommandBooks(st, None) && t in st.tasks
    ensures Race(Marked(st, t)) && NodeBooks(Marked(st, t)) && CommandBooks(Marked(st, t), None)
  {
    SameRace(st, Marked(st, t));
    SameSessionsSameNodes(st, Marked(st, t));
  }

  lemma JoinHolds(st: State, n: NodeId, slots: nat, viable: seq<TaskId>)
    requires Inv(st) && n !in st.nodes && forall i :: 0 <= i < |viable| ==> IsScheduled(st, viable[i])
    ensures Inv(FindWork(Joined(st, n, slots), n, viable))
  {
    var st1 := Joined(st, n, slots);
    assert forall t :: IsScheduled(st1, t) == IsScheduled(st, t);
    JoinedHolds(st, n, slots);
    FindWorkRequeues(st1, n, viable);
    RequeuedHolds(st1, FindWork(st1, n, viable), {});
  }

  lemma JoinedHolds(st: State, n: NodeId, slots: nat)
    requires Inv(st) && n !in st.nodes
    ensures Inv(Joined(st, n, slots))
  {
    var st1 := Joined(st, n, slots);
    JoinBooks(st, n, slots);
    JoinNodes(st, n, slots);
    SameRace(st, st1);
    JoinHeld(st, n, slots);
  }

  lemma JoinHeld(st: State, n: NodeId, slots: nat)
    requires NoTaskLost(st, {})
    ensures NoTaskLost(Joined(st, n, slots), {})
  {
    assert forall t :: t in st.tasks && Held(st, t) ==> Held(Joined(st, n, slots), t);
  }

  lemma JoinBooks(st: State, n: NodeId, slots: nat)
    requires Books(st, None)
    ensures Books(Joined(st, n, slots), None)
  {
    var st1 := Joined(st, n, slots);
    assert forall t :: IsScheduled(st1, t) == IsScheduled(st, t);
    assert forall s :: s in st.sessions ==> SessionKnown(st, s, None);
    assert forall t :: t in st.tasks ==> TaskKnown(st, t);
  }

  lemma JoinNodes(st: State, n: NodeId, slots: nat)
    requires Books(st, None) && NodeBooks(st) && n !in st.nodes
    ensures NodeBooks(Joined(st, n, slots))
  {
    var st1 := Joined(st, n, slots);
    forall m | m in st1.nodes && m in st1.running
      ensures NodeOk(st1, m)
    {
      assert m in st.nodes ==> NodeOk(st, m);
      forall t
        ensures multiset(st1.running[m])[t] == |LiveOn(st1, m, t)|
      {
        assert LiveOn(st1, m, t) == LiveOn(st, m, t);
        if m == n {
          assert forall s :: s in st.sessions ==> SessionKnown(st, s, None);
          assert LiveOn(st, n, t) == {};
        }
      }
    }
  }

  // --- A completion is registered --------------------------------------------------

  /** The session that asks is answered that it has won. */
  ghost predicate Wins(st: State, sid: SessionId) {
    && sid in st.live && sid in st.sessions && st.sessions[sid].link.m.phase == WaitResponse
    && st.sessions[sid].task in st.tasks && st.tasks[st.sessions[sid].task].completedBy == None
  }

  /** What the winning session looks like after it has handled the server's answer. */
  ghost predicate Won(l: Link, l': Link) {
    && LinkInv(l') && l'.m.cancelled == l.m.cancelled
    && (l'.m.phase == Receiving || l'.m.phase == Finished(Success))
  }

  function Ending(sid: SessionId, m: Manager): Option<SessionId> {
    if m.phase.Finished? then Some(sid) else None
  }

  ghost predicate CanRegister(st: State, sid: SessionId) {
    Books(st, None) && Race(st) && Wins(st, sid) && st.tasks[st.sessions[sid].task].running <= st.sessions.Keys
  }

  /** The other sessions of the task are undecided and have not been cancelled before. */
  lemma OthersUndecided(st: State, sid: SessionId, other: SessionId)
    requires CanRegister(st, sid) && other in st.tasks[st.sessions[sid].task].running
    ensures other in st.sessions && st.sessions[other].task == st.sessions[sid].task && other in st.live
    ensures Undecided(st.sessions[other].link.m) && !st.sessions[other].link.m.cancelled
  {
    var t := st.sessions[sid].task;
    assert TaskKnown(st, t);
    assert SessionKnown(st, other, None);
    assert RaceOk(st, other);
  }

  lemma RegisterLinks(st: State, sid: SessionId, l: Link)
    requires Links(st) && CanRegister(st, sid) && LinkInv(l)
    ensures Links(WithLink(RegisterCompletion(st, sid), sid, l, true))
  {
    var st' := WithLink(RegisterCompletion(st, sid), sid, l, true);
    forall s | s in st'.sessions
      ensures LinkInv(st'.sessions[s].link)
    {
      if s != sid && s in st.tasks[st.sessions[sid].task].running {
        OthersUndecided(st, sid, s);
        CancelHolds(st.sessions[s].link);
      }
    }
  }

  lemma RegisterBooks(st: State, sid: SessionId, l: Link)
    requires CanRegister(st, sid) && Won(st.sessions[sid].link, l)
    ensures Books(WithLink(RegisterCompletion(st, sid), sid, l, true), Ending(sid, l.m))
  {
    var st' := WithLink(RegisterCompletion(st, sid), sid, l, true);
    assert forall t :: IsScheduled(st', t) == IsScheduled(st, t);
    assert st'.commands == st.commands && st'.nodes == st.nodes && st'.live == st.live;
    RegisterSessions(st, sid, l);
    forall t | t in st'.tasks
      ensures TaskKnown(st', t)
    {
      assert TaskKnown(st, t);
    }
  }

  lemma RegisterSessions(st: State, sid: SessionId, l: Link)
    requires CanRegister(st, sid) && Won(st.sessions[sid].link, l)
    ensures var st' := WithLink(RegisterCompletion(st, sid), sid, l, true);
      forall s :: s in st'.sessions ==> SessionKnown(st', s, Ending(sid, l.m))
  {
    var st' := WithLink(RegisterCompletion(st, sid), sid, l, true);
    forall s | s in st'.sessions
      ensures SessionKnown(st', s, Ending(sid, l.m))
    {
      assert SessionKnown(st, s, None);
      assert IsScheduled(st, st.sessions[s].task);
    }
  }

  lemma RegisterRace(st: State, sid: SessionId, l: Link)
    requires CanRegister(st, sid) && Won(st.sessions[sid].link, l)
    ensures Race(WithLink(RegisterCompletion(st, sid), sid, l, true))
  {
    var st' := WithLink(RegisterCompletion(st, sid), sid, l, true);
    var t0 := st.sessions[sid].task;
    assert RaceOk(st, sid);
    forall s | s in st'.sessions
      ensures RaceOk(st', s)
    {
      assert RaceOk(st, s);
      if s in st.tasks[t0].running {
        OthersUndecided(st, sid, s);
      }
    }
    forall t | t in st'.tasks && st'.tasks[t].completedBy.Some?
      ensures WinnerOk(st', t)
    {
      if t != t0 {
        assert WinnerOk(st, t);
        OtherTasksUntouched(st, sid, st.tasks[t].completedBy.value);
      }
    }
  }

  lemma OtherTasksUntouched(st: State, sid: SessionId, s: SessionId)
    requires CanRegister(st, sid) && s in st.sessions && st.sessions[s].task != st.sessions[sid].task
    ensures RegisterCompletion(st, sid).sessions[s] == st.sessions[s]
  {
    if s in st.tasks[st.sessions[sid].task].running {
      OthersUndecided(st, sid, s);
    }
  }

  lemma RegisterNodes(st: State, sid: SessionId, l: Link)
    requires NodeBooks(st) && CanRegister(st, sid)
    ensures NodeBooks(WithLink(RegisterCompletion(st, sid), sid, l, true))
  {
    var st' := WithLink(RegisterCompletion(st, sid), sid, l, true);
    forall n | n in st'.nodes && n in st'.running
      ensures NodeOk(st', n)
    {
      assert NodeOk(st, n);
      assert forall t :: LiveOn(st', n, t) == LiveOn(st, n, t);
    }
  }

  lemma RegisterSucceeded(st: State, sid: SessionId, l: Link, t: TaskId)
    requires CanRegister(st, sid) && Won(st.sessions[sid].link, l) && t in st.tasks
    ensures var st' := WithLink(RegisterCompletion(st, sid), sid, l, true);
      Succeeded(st, t) <==> Succeeded(st', t) && st'.tasks[t].completedBy != Ending(sid, l.m)
  {
    if t != st.sessions[sid].task && st.tasks[t].completedBy.Some? {
      assert WinnerOk(st, t);
      OtherTasksUntouched(st, sid, st.tasks[t].completedBy.value);
    }
  }

  ghost predicate Counted(st: State, t: TaskId, ending: Option<SessionId>)
    requires t in st.tasks
  {
    Succeeded(st, t) && st.tasks[t].completedBy != ending
  }

  lemma SameCommands(st: State, st': State, ending: Option<SessionId>, ending': Option<SessionId>)
    requires CommandBooks(st, ending) && st'.commands == st.commands && st'.tasks.Keys == st.tasks.Keys
    requires forall t :: t in st.tasks ==> st'.tasks[t].command == st.tasks[t].command
    requires forall t :: t in st.tasks ==> Counted(st, t, ending) == Counted(st', t, ending')
    ensures CommandBooks(st', ending')
  {
  }

  lemma RegisterCommands(st: State, sid: SessionId, l: Link)
    requires CanRegister(st, sid) && CommandBooks(st, None) && Won(st.sessions[sid].link, l)
    ensures CommandBooks(WithLink(RegisterCompletion(st, sid), sid, l, true), Ending(sid, l.m))
  {
    var st' := WithLink(RegisterCompletion(st, sid), sid, l, true);
    RegisterCounts(st, sid, l, st');
    SameCommands(st, st', None, Ending(sid, l.m));
  }

  lemma RegisterCounts(st: State, sid: SessionId, l: Link, st': State)
    requires CanRegister(st, sid) && Won(st.sessions[sid].link, l)
    requires st' == WithLink(RegisterCompletion(st, sid), sid, l, true)
    ensures st'.commands == st.commands && st'.tasks.Keys == st.tasks.Keys
    ensures forall t :: t in st.tasks ==> st'.tasks[t].command == st.tasks[t].command
    ensures forall t :: t in st.tasks ==> Counted(st, t, None) == Counted(st', t, Ending(sid, l.m))
  {
    forall t | t in st.tasks
      ensures Counted(st, t, None) == Counted(st', t, Ending(sid, l.m))
    {
      RegisterSucceeded(st, sid, l, t);
    }
  }

  lemma RegisterHeld(st: State, sid: SessionId, l: Link)
    requires NoTaskLost(st, {}) && CanRegister(st, sid)
    ensures NoTaskLost(WithLink(RegisterCompletion(st, sid), sid, l, true), {})
  {
    var st' := WithLink(RegisterCompletion(st, sid), sid, l, true);
    assert forall t :: t in st.tasks && Held(st, t) ==> Held(st', t);
  }

  lemma RegisterHolds(st: State, sid: SessionId, l: Link)
    requires Inv(st) && CanRegister(st, sid) && Won(st.sessions[sid].link, l)
    ensures InvBut(WithLink(RegisterCompletion(st, sid), sid, l, true), Ending(sid, l.m), {})
  {
    RegisterLinks(st, sid, l);
    RegisterBooks(st, sid, l);
    RegisterRace(st, sid, l);
    RegisterNodes(st, sid, l);
    RegisterCommands(st, sid, l);
    RegisterHeld(st, sid, l);
  }

  // --- A session reaches its end ---------------------------------------------------

  /** The session finishes without having registered a completion in the same step. */
  ghost predicate Ends(st: State, sid: SessionId, l: Link) {
    && sid in st.live && sid in st.sessions && LinkInv(l) && l.m.phase.Finished?
    && l.m.cancelled == st.sessions[sid].link.m.cancelled
    && Winning(l.m.phase) == Winning(st.sessions[sid].link.m.phase)
    && st.sessions[sid].task in st.tasks
    && (l.m.phase.result == TooLate || l.m.phase.result == Cancelled ==> st.tasks[st.sessions[sid].task].completedBy.Some?)
  }

  lemma EndBooks(st: State, sid: SessionId, l: Link)
    requires Books(st, None) && Ends(st, sid, l)
    ensures Books(WithLink(st, sid, l, true), Some(sid))
  {
    var st' := WithLink(st, sid, l, true);
    assert forall t :: IsScheduled(st', t) == IsScheduled(st, t);
    assert forall s :: s in st.sessions ==> SessionKnown(st, s, None);
    forall t | t in st'.tasks
      ensures TaskKnown(st', t)
    {
      assert TaskKnown(st, t);
    }
  }

  lemma EndRace(st: State, sid: SessionId, l: Link)
    requires Race(st) && Ends(st, sid, l)
    ensures Race(WithLink(st, sid, l, true))
  {
    var st' := WithLink(st, sid, l, true);
    assert RaceOk(st, sid);
    forall t | t in st'.tasks && st'.tasks[t].completedBy.Some?
      ensures WinnerOk(st', t)
    {
      assert WinnerOk(st, t);
    }
  }

  lemma EndCommands(st: State, sid: SessionId, l: Link)
    requires Books(st, None) && Race(st) && CommandBooks(st, None) && Ends(st, sid, l)
    ensures CommandBooks(WithLink(st, sid, l, true), Some(sid))
  {
    var st' := WithLink(st, sid, l, true);
    assert SessionKnown(st, sid, None) && RaceOk(st, sid);
    forall t | t in st.tasks
      ensures Succeeded(st, t) <==> Succeeded(st', t) && st.tasks[t].completedBy != Some(sid)
    {
      assert st.tasks[t].completedBy.Some? ==> WinnerOk(st, t);
    }
  }

  lemma EndsHolds(st: State, sid: SessionId, l: Link)
    requires Inv(st) && Ends(st, sid, l)
    ensures InvBut(WithLink(st, sid, l, true), Some(sid), {})
  {
    EndBooks(st, sid, l);
    EndRace(st, sid, l);
    LinkStepNodes(st, sid, l);
    EndCommands(st, sid, l);
    LinkStepHeld(st, sid, l);
  }

  // --- The session is unregistered and reports --------------------------------------

  lemma {:induction false} RemoveFirstCounts(q: seq<TaskId>, t: TaskId)
    requires t in q
    ensures |RemoveFirst(q, t)| == |q| - 1
    ensures multiset(RemoveFirst(q, t)) == multiset(q) - multiset{t}
    decreases |q|
  {
    assert q == [q[0]] + q[1..];
    if q[0] != t {
      RemoveFirstCounts(q[1..], t);
    }
  }

  /** The session is registered and has just ended with `r`. */
  ghost predicate Over(st: State, sid: SessionId, r: Result) {
    && sid in st.sessions && sid in st.live && st.sessions[sid].link.m.phase == Finished(r)
    && Books(st, Some(sid)) && Race(st)
    && st.sessions[sid].task in st.tasks && st.tasks[st.sessions[sid].task].command in st.commands
    && st.sessions[sid].node in st.nodes && st.sessions[sid].node in st.running
  }

  /** Unregistering and reporting, without the search for other work in between. */
  ghost function Closed(st: State, sid: SessionId, r: Result): State
    requires Over(st, sid, r)
  {
    Report(Unregister(st, sid), sid, r)
  }

  lemma LiveRemoved(st: State, st': State, sid: SessionId, n: NodeId, t: TaskId)
    requires sid in st.live && sid in st.sessions && st'.live == st.live - {sid} && st'.sessions == st.sessions
    ensures |LiveOn(st', n, t)| ==
      |LiveOn(st, n, t)| - if st.sessions[sid].node == n && st.sessions[sid].task == t then 1 else 0
  {
    var gone := if st.sessions[sid].node == n && st.sessions[sid].task == t then {sid} else {};
    assert LiveOn(st', n, t) == LiveOn(st, n, t) - gone;
    assert gone <= LiveOn(st, n, t);
  }

  lemma ListedWhileLive(st: State, sid: SessionId)
    requires NodeBooks(st) && sid in st.live && sid in st.sessions
    requires st.sessions[sid].node in st.nodes && st.sessions[sid].node in st.running
    ensures st.sessions[sid].task in st.running[st.sessions[sid].node]
  {
    var n, t := st.sessions[sid].node, st.sessions[sid].task;
    assert NodeOk(st, n);
    assert sid in LiveOn(st, n, t);
    assert multiset(st.running[n])[t] > 0;
  }

  lemma ClosedNodes(st: State, sid: SessionId, r: Result)
    requires Over(st, sid, r) && NodeBooks(st)
    ensures NodeBooks(Closed(st, sid, r))
  {
    var st' := Closed(st, sid, r);
    var n0, t0 := st.sessions[sid].node, st.sessions[sid].task;
    ListedWhileLive(st, sid);
    RemoveFirstCounts(st.running[n0], t0);
    forall n | n in st'.nodes && n in st'.running
      ensures NodeOk(st', n)
    {
      assert NodeOk(st, n);
      forall t
        ensures multiset(st'.running[n])[t] == |LiveOn(st', n, t)|
      {
        LiveRemoved(st, st', sid, n, t);
      }
    }
  }

  lemma ClosedOk(st: State, sid: SessionId, r: Result)
    requires Over(st, sid, r) && st.ok && NodeBooks(st) && CommandBooks(st, Some(sid))
    ensures Closed(st, sid, r).ok
  {
    var t := st.sessions[sid].task;
    ListedWhileLive(st, sid);
    assert TaskKnown(st, t) && RaceOk(st, sid);
  }

  lemma ClosedBooks(st: State, sid: SessionId, r: Result)
    requires Over(st, sid, r)
    ensures Books(Closed(st, sid, r), None)
  {
    var st' := Closed(st, sid, r);
    assert forall t :: IsScheduled(st', t) == IsScheduled(st, t);
    forall s | s in st'.sessions
      ensures SessionKnown(st', s, None)
    {
      assert SessionKnown(st, s, Some(sid));
    }
    forall t | t in st'.tasks
      ensures TaskKnown(st', t)
    {
      assert TaskKnown(st, t);
    }
  }

  lemma ClosedRace(st: State, sid: SessionId, r: Result)
    requires Over(st, sid, r)
    ensures Race(Closed(st, sid, r)) && SameWinners(st, Closed(st, sid, r))
  {
    assert RaceOk(st, sid);
    SameRace(st, Closed(st, sid, r));
  }

  lemma HeardOk(c: Command, t: TaskId, task: Task, r: Result, retcode: int)
    requires CommandOk(c) && (r == Success ==> MayComplete(c, t))
    ensures var c' := Heard(c, t, task, r, retcode);
      CommandOk(c') && c'.tasks == c.tasks && c'.completed.Keys == c.completed.Keys + if r == Success then {t} else {}
  {
  }

  lemma ClosedIs(st: State, sid: SessionId, r: Result)
    requires Over(st, sid, r)
    ensures var t0 := st.sessions[sid].task;
      var k0, st' := st.tasks[t0].command, Closed(st, sid, r);
      && st'.commands == st.commands[k0 := Heard(st.commands[k0], t0, st'.tasks[t0], r, st.sessions[sid].link.m.retcode)]
      && st'.tasks.Keys == st.tasks.Keys
      && (forall t :: t in st.tasks ==> st'.tasks[t].command == st.tasks[t].command && (t != t0 ==> st'.tasks[t] == st.tasks[t]))
  {
  }

  lemma ClosedMay(st: State, sid: SessionId, r: Result)
    requires Over(st, sid, r) && CommandBooks(st, Some(sid)) && r == Success
    ensures var t0 := st.sessions[sid].task; MayComplete(st.commands[st.tasks[t0].command], t0)
  {
    assert RaceOk(st, sid) && TaskKnown(st, st.sessions[sid].task);
  }

  lemma ClosedCommand(st: State, sid: SessionId, r: Result)
    requires Over(st, sid, r) && CommandBooks(st, Some(sid))
    ensures var t0 := st.sessions[sid].task;
      var k0 := st.tasks[t0].command;
      var c, st' := st.commands[k0], Closed(st, sid, r);
      && st'.commands.Keys == st.commands.Keys && (forall k :: k in st.commands && k != k0 ==> st'.commands[k] == st.commands[k])
      && CommandOk(st'.commands[k0]) && st'.commands[k0].tasks == c.tasks
      && st'.commands[k0].completed.Keys == c.completed.Keys + if r == Success then {t0} else {}
  {
    var t0 := st.sessions[sid].task;
    var k0 := st.tasks[t0].command;
    if r == Success {
      ClosedMay(st, sid, r);
    }
    ClosedIs(st, sid, r);
    HeardOk(st.commands[k0], t0, Closed(st, sid, r).tasks[t0], r, st.sessions[sid].link.m.retcode);
  }

  lemma ClosedResults(st: State, sid: SessionId, r: Result, t: TaskId)
    requires Over(st, sid, r) && CommandBooks(st, Some(sid)) && t in st.tasks && st.tasks[t].command in st.commands
    ensures var st' := Closed(st, sid, r);
      t in st'.commands[st'.tasks[t].command].completed <==> Succeeded(st', t)
  {
    var t0 := st.sessions[sid].task;
    ClosedIs(st, sid, r);
    ClosedCommand(st, sid, r);
    assert RaceOk(st, sid);
    ClosedRace(st, sid, r);
    SameRace(st, Closed(st, sid, r));
    if t != t0 && st.tasks[t].completedBy.Some? {
      assert WinnerOk(st, t);
    }
  }

  lemma ClosedCommands(st: State, sid: SessionId, r: Result)
    requires Over(st, sid, r) && CommandBooks(st, Some(sid))
    ensures CommandBooks(Closed(st, sid, r), None)
  {
    var st' := Closed(st, sid, r);
    ClosedIs(st, sid, r);
    ClosedCommand(st, sid, r);
    forall t | t in st'.tasks && st'.tasks[t].command in st'.commands
      ensures t in st'.commands[st'.tasks[t].command].completed <==> Succeeded(st', t)
    {
      ClosedResults(st, sid, r, t);
    }
  }

  /** Only a task that has to be scheduled again is left without a holder. */
  lemma ClosedHeld(st: State, sid: SessionId, r: Result)
    requires Over(st, sid, r) && NoTaskLost(st, {})
    ensures var t := st.sessions[sid].task;
      NoTaskLost(Closed(st, sid, r), if MustReschedule(Closed(st, sid, r).tasks[t], r) then {t} else {})
  {
    var st' := Closed(st, sid, r);
    var t0 := st.sessions[sid].task;
    assert RaceOk(st, sid);
    assert forall t :: t in st.tasks && t != t0 && Held(st, t) ==> Held(st', t);
  }

  lemma ClosedHolds(st: State, sid: SessionId, r: Result)
    requires InvBut(st, Some(sid), {}) && Over(st, sid, r)
    ensures var t := st.sessions[sid].task;
      InvBut(Closed(st, sid, r), None, if MustReschedule(Closed(st, sid, r).tasks[t], r) then {t} else {})
  {
    ClosedOk(st, sid, r);
    ClosedBooks(st, sid, r);
    ClosedRace(st, sid, r);
    ClosedNodes(st, sid, r);
    ClosedCommands(st, sid, r);
    ClosedHeld(st, sid, r);
  }

  // --- The whole ending ------------------------------------------------------------

  /** Searching for work before the report only shifts the queues. */
  lemma FindWorkFirst(st: State, sid: SessionId, r: Result, viable: seq<TaskId>)
    requires Over(st, sid, r) && forall i :: 0 <= i < |viable| ==> IsScheduled(st, viable[i])
    ensures Requeued(Closed(st, sid, r), Report(FindWork(Unregister(st, sid), st.sessions[sid].node, viable), sid, r))
  {
    var un, n := Unregister(st, sid), st.sessions[sid].node;
    assert forall t :: IsScheduled(un, t) == IsScheduled(st, t);
    FindWorkRequeues(un, n, viable);
    var searched := FindWork(un, n, viable);
    var st1 := Report(searched, sid, r);
    assert forall t :: IsScheduled(st1, t) == IsScheduled(searched, t);
  }

  lemma CompleteHolds(st: State, sid: SessionId, r: Result, viable: seq<TaskId>, pick: Option<NodeId>)
    requires InvBut(st, Some(sid), {}) && Over(st, sid, r)
    requires (forall i :: 0 <= i < |viable| ==> IsScheduled(st, viable[i])) && (pick.Some? ==> pick.value in st.nodes)
    ensures Inv(CompleteSession(st, sid, r, viable, pick))
  {
    var t := st.sessions[sid].task;
    var closed := Closed(st, sid, r);
    var st1 := Report(FindWork(Unregister(st, sid), st.sessions[sid].node, viable), sid, r);
    var lost := if MustReschedule(closed.tasks[t], r) then {t} else {};
    ClosedHolds(st, sid, r);
    FindWorkFirst(st, sid, r, viable);
    RequeuedHolds(closed, st1, lost);
    if MustReschedule(st1.tasks[t], r) {
      Rescheduled(st1, sid, pick);
    }
  }

  lemma Rescheduled(st: State, sid: SessionId, pick: Option<NodeId>)
    requires sid in st.sessions && InvBut(st, None, {st.sessions[sid].task}) && (pick.Some? ==> pick.value in st.nodes)
    ensures Inv(ScheduleTask(st, st.sessions[sid].task, true, pick))
  {
    assert SessionKnown(st, sid, None);
    QueueUpHolds(st, st.sessions[sid].task, true, pick);
  }
}
