/** The case the runs leave out: a session that has won its task fails after all. */
module LateFailures {
  import opened SessionProtocol
  import opened BuildManager
  import opened BuildSafety
  import opened BuildRuns
  import opened BuildTraces

  ghost predicate Waits(st: State, t: TaskId) {
    t in st.unassigned || OnItsWay(st.connecting, t)
  }

  /** The task is in good hands even without the session `sid`. */
  ghost predicate AttendedWithout(st: State, t: TaskId, sid: SessionId) {
    Waits(st, t) || exists other :: other != sid && HeldBy(st, t, other)
  }

  ghost predicate FailsLate(st: State, sid: SessionId, r: Result) {
    && Inv(st) && sid in st.live && sid in st.sessions && Winning(st.sessions[sid].link.m.phase)
    && CanEnd(st, sid) && (r == Failure || r == Terminated)
  }

  lemma {:induction false} StealUncompleted(st: State, n: NodeId, viable: seq<TaskId>, slots: int, t: TaskId)
    requires n in st.running && t in st.tasks && st.tasks[t].completedBy.Some?
    ensures t !in Steal(st, n, viable, slots)
    decreases |viable|
  {
    if viable != [] && slots > 0 {
      StealUncompleted(st, n, viable[1..], slots - 1, t);
      StealUncompleted(st, n, viable[1..], slots, t);
    }
  }

  lemma SendToOnly(n: NodeId, ts: seq<TaskId>, t: TaskId)
    ensures OnItsWay(SendTo(n, ts), t) ==> t in ts
  {
  }

  /** The search for work sends no completed task to a node unless it already waited. */
  lemma FindWorkKeepsCompleted(st: State, n: NodeId, viable: seq<TaskId>, t: TaskId)
    requires n in st.nodes && n in st.running && t in st.tasks && st.tasks[t].completedBy.Some?
    ensures Waits(FindWork(st, n, viable), t) ==> Waits(st, t)
  {
    var slots := FreeSlots(st, n);
    if slots > 0 {
      var take := if slots <= |st.unassigned| then slots else |st.unassigned|;
      var st1 := st.(unassigned := st.unassigned[take..],
                     connecting := st.connecting + SendTo(n, st.unassigned[..take]));
      OnItsWayConcat(st.connecting, SendTo(n, st.unassigned[..take]));
      SendToOnly(n, st.unassigned[..take], t);
      if slots != take && CanSteal(st1, n) {
        var stolen := Steal(st1, n, viable, slots - take);
        StealUncompleted(st1, n, viable, slots - take, t);
        OnItsWayConcat(st1.connecting, SendTo(n, stolen));
        SendToOnly(n, stolen, t);
      }
    }
  }

  ghost function Finish(st: State, sid: SessionId, r: Result): State
    requires sid in st.sessions
  {
    var l := st.sessions[sid].link;
    WithLink(st, sid, l.(m := l.m.(phase := Finished(r))), true)
  }

  ghost function Searched(st: State, sid: SessionId, r: Result, c: Choice): State
    requires CanEnd(st, sid)
  {
    FindWork(Unregister(Finish(st, sid, r), sid), st.sessions[sid].node, c.viable)
  }

  lemma LateWaits(st: State, sid: SessionId, r: Result, c: Choice)
    requires FailsLate(st, sid, r) && ChoiceOk(st, c)
    ensures Waits(Searched(st, sid, r, c), st.sessions[sid].task) <==> Waits(st, st.sessions[sid].task)
  {
    var un, n, t := Unregister(Finish(st, sid, r), sid), st.sessions[sid].node, st.sessions[sid].task;
    assert forall u :: IsScheduled(un, u) == IsScheduled(st, u);
    assert RaceOk(st, sid);
    FindWorkRequeues(un, n, c.viable);
    FindWorkKeepsCompleted(un, n, c.viable, t);
  }

  lemma LateHolders(st: State, st': State, sid: SessionId, t: TaskId)
    requires sid in st.sessions && st'.live == st.live - {sid} && st'.sessions.Keys == st.sessions.Keys
    requires forall o :: o in st.sessions && o != sid ==> st'.sessions[o] == st.sessions[o]
    ensures forall o :: HeldBy(st', t, o) <==> o != sid && HeldBy(st, t, o)
  {
  }

  ghost function Reported(st: State, sid: SessionId, r: Result, c: Choice): State
    requires CanEnd(st, sid)
  {
    Report(Searched(st, sid, r, c), sid, r)
  }

  lemma LateShape(st: State, sid: SessionId, r: Result, c: Choice)
    requires CanEnd(st, sid) && (r == Failure || r == Terminated)
    requires st.tasks[st.sessions[sid].task].completedBy == Some(sid)
    ensures var t, st1 := st.sessions[sid].task, Reported(st, sid, r, c);
      && st1.tasks.Keys == st.tasks.Keys
      && st1.tasks[t] == st.tasks[t].(completedBy := None, running := st.tasks[t].running - {sid},
                                      finished := st.tasks[t].finished + {sid})
      && EndSession(st, sid, r, c) ==
        if st.tasks[t].running - {sid} == {} then ScheduleTask(st1, t, true, c.pick) else st1
  {
  }

  lemma LateEnding(st: State, sid: SessionId, r: Result, c: Choice)
    requires FailsLate(st, sid, r)
    ensures var t, st1 := st.sessions[sid].task, Reported(st, sid, r, c);
      && t in st1.tasks && st1.tasks[t].completedBy == None && st1.tasks[t].scheduled == st.tasks[t].scheduled
      && EndSession(st, sid, r, c) == if st.tasks[t].running == {sid} then ScheduleTask(st1, t, true, c.pick) else st1
  {
    LateWinner(st, sid, r);
    LateShape(st, sid, r, c);
  }

  lemma LateWinner(st: State, sid: SessionId, r: Result)
    requires FailsLate(st, sid, r)
    ensures var t := st.sessions[sid].task;
      && st.tasks[t].completedBy == Some(sid)
      && (st.tasks[t].running - {sid} == {} <==> st.tasks[t].running == {sid})
  {
    assert RaceOk(st, sid) && TaskKnown(st, st.sessions[sid].task);
  }

  lemma LateFrame(st: State, sid: SessionId, r: Result, c: Choice)
    requires CanEnd(st, sid)
    ensures var st1 := Reported(st, sid, r, c);
      && st1.live == st.live - {sid} && st1.sessions == Finish(st, sid, r).sessions
      && st1.unassigned == Searched(st, sid, r, c).unassigned && st1.connecting == Searched(st, sid, r, c).connecting
  {
  }

  lemma LateReport(st: State, sid: SessionId, r: Result, c: Choice)
    requires FailsLate(st, sid, r) && ChoiceOk(st, c)
    ensures var t, st1 := st.sessions[sid].task, Reported(st, sid, r, c);
      && (Waits(st1, t) <==> Waits(st, t))
      && (forall o :: HeldBy(st1, t, o) <==> o != sid && HeldBy(st, t, o))
  {
    var t, st1 := st.sessions[sid].task, Reported(st, sid, r, c);
    assert Waits(st1, t) <==> Waits(st, t) by {
      LateFrame(st, sid, r, c);
      LateWaits(st, sid, r, c);
    }
    assert forall o :: HeldBy(st1, t, o) <==> o != sid && HeldBy(st, t, o) by {
      LateFrame(st, sid, r, c);
      LateHolders(st, st1, sid, t);
    }
  }

  /** After a late failure somebody still attends to the task exactly if it waited anyway,
      another session holds it that has not been cancelled, or the failed session was the
      only one left, for only then it is scheduled again. */
  lemma LateFailureAttended(st: State, sid: SessionId, r: Result, c: Choice)
    requires FailsLate(st, sid, r) && ChoiceOk(st, c)
    ensures var t, st' := st.sessions[sid].task, EndSession(st, sid, r, c);
      && t in st'.tasks && st'.tasks[t].completedBy == None
      && (Attended(st', t) <==> AttendedWithout(st, t, sid) || st.tasks[t].running == {sid})
  {
    var t, st1, st' := st.sessions[sid].task, Reported(st, sid, r, c), EndSession(st, sid, r, c);
    LateEnding(st, sid, r, c);
    LateReport(st, sid, r, c);
    LateVerdict(st, st1, st', t, sid, c.pick);
  }

  lemma LateVerdict(st: State, st1: State, st': State, t: TaskId, sid: SessionId, pick: Option<NodeId>)
    requires t in st.tasks
    requires st' == if st.tasks[t].running == {sid} then ScheduleTask(st1, t, true, pick) else st1
    requires Waits(st1, t) <==> Waits(st, t)
    requires forall o :: HeldBy(st1, t, o) <==> o != sid && HeldBy(st, t, o)
    ensures Attended(st', t) <==> AttendedWithout(st, t, sid) || st.tasks[t].running == {sid}
  {
    LateRequeued(st1, t, pick);
  }

  lemma LateRequeued(st: State, t: TaskId, pick: Option<NodeId>)
    ensures Waits(ScheduleTask(st, t, true, pick), t)
  {
    if pick.Some? {
      OnItsWayConcat(st.connecting, [(t, pick.value)]);
      assert [(t, pick.value)][0].0 == t;
    }
  }

  // --- A task that is stranded -------------------------------------------------------

  /** A run gets to where session 1 has won and is writing the files, and session 2 has been
      cancelled and has yet to hear of it. If the files cannot be written now, nothing holds
      the task any more but the session that is being cancelled. */
  lemma LateFailureStrands(c: Choice)
    requires ChoiceOk(Racing(WINNER, LOSER, Some(1)), c)
    ensures var st := Racing(WINNER, LOSER, Some(1));
      && Reachable(st) && FailsLate(st, 1, Failure)
      && var st' := EndSession(st, 1, Failure, c);
         IsScheduled(st', 0) && st'.tasks[0].completedBy == None && !Attended(st', 0)
  {
    var st := Racing(WINNER, LOSER, Some(1));
    CloseRaceReached();
    ReachableHolds(st);
    CloseRaceAlone();
    LateFailureAttended(st, 1, Failure, c);
    LateEnding(st, 1, Failure, c);
  }

  lemma CloseRaceAlone()
    ensures var st := Racing(WINNER, LOSER, Some(1));
      IsScheduled(st, 0) && st.sessions[1].task == 0 && st.tasks[0].running != {1} && !AttendedWithout(st, 0, 1)
  {
    assert 2 in Racing(WINNER, LOSER, Some(1)).tasks[0].running;
  }
}
