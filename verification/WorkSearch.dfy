/** What the search for work finds for a node, and who is cancelled when a task is won. */
module WorkSearch {
  import opened SessionProtocol
  import opened BuildManager
  import opened BuildSafety
  import opened BuildRuns
  import opened LastSessions

  // --- Which tasks are sent --------------------------------------------------------------

  function Least(a: int, b: int): int {
    if a <= b then a else b
  }

  /** How many of the queued tasks a node has room for: it may have one more than it has
      slots. */
  function Room(st: State, n: NodeId): nat
    requires n in st.nodes && n in st.running
  {
    var room := st.nodes[n].slots + 1 - |st.running[n]|;
    if room < 0 then 0 else Least(room, |st.unassigned|)
  }

  /** A task may be stolen if it has no result yet and does not run on the node already. */
  predicate Stealable(st: State, n: NodeId, t: TaskId)
    requires n in st.running
  {
    t in st.tasks && st.tasks[t].completedBy == None && t !in st.running[n]
  }

  function Stealables(st: State, n: NodeId, viable: seq<TaskId>): seq<TaskId>
    requires n in st.running
  {
    if viable == [] then []
    else (if Stealable(st, n, viable[0]) then [viable[0]] else []) + Stealables(st, n, viable[1..])
  }

  /** As many of them are stolen as there is room for, in their order. */
  lemma {:induction false} StolenInOrder(st: State, n: NodeId, viable: seq<TaskId>, slots: nat)
    requires n in st.running
    ensures var all := Stealables(st, n, viable);
      Steal(st, n, viable, slots) == all[..Least(slots, |all|)]
    decreases |viable|
  {
    if viable != [] {
      var rest := Stealables(st, n, viable[1..]);
      if Stealable(st, n, viable[0]) {
        if slots > 0 {
          StolenInOrder(st, n, viable[1..], slots - 1);
          assert ([viable[0]] + rest)[..Least(slots, 1 + |rest|)] == [viable[0]] + rest[..Least(slots - 1, |rest|)];
        }
      } else {
        StolenInOrder(st, n, viable[1..], slots);
        assert [] + rest == rest;
      }
    }
  }

  /** Queued tasks are sent first, in their order, as many as the node has room for. Tasks of
      other nodes are stolen only if the queue is empty and the node has a free slot, again as
      many as it then has room for. */
  lemma SearchSends(st: State, n: NodeId, viable: seq<TaskId>) returns (stolen: seq<TaskId>)
    requires n in st.nodes && n in st.running
    ensures var k, st', all := Room(st, n), FindWork(st, n, viable), Stealables(st, n, viable);
      && st'.unassigned == st.unassigned[k..]
      && st'.connecting == st.connecting + SendTo(n, st.unassigned[..k]) + SendTo(n, stolen)
      && (if |st.running[n]| < st.nodes[n].slots && k == |st.unassigned| then
            stolen == all[..Least(st.nodes[n].slots + 1 - |st.running[n]| - k, |all|)]
          else stolen == [])
  {
    var k := Room(st, n);
    stolen := [];
    SearchInParts(st, n, viable);
    NoneSent(n);
    if |st.running[n]| < st.nodes[n].slots && k == |st.unassigned| {
      var st1, slots := AfterQueue(st, n), st.nodes[n].slots + 1 - |st.running[n]| - k;
      stolen := Steal(st1, n, viable, slots);
      SameStealables(st, st1, n, viable);
      StolenInOrder(st1, n, viable, slots);
    }
  }

  function AfterQueue(st: State, n: NodeId): State
    requires n in st.nodes && n in st.running
  {
    var k := Room(st, n);
    st.(unassigned := st.unassigned[k..], connecting := st.connecting + SendTo(n, st.unassigned[..k]))
  }

  lemma SearchInParts(st: State, n: NodeId, viable: seq<TaskId>)
    requires n in st.nodes && n in st.running
    ensures var k, st1 := Room(st, n), AfterQueue(st, n);
      var slots := st.nodes[n].slots + 1 - |st.running[n]|;
      FindWork(st, n, viable) ==
      if |st.running[n]| < st.nodes[n].slots && k == |st.unassigned| then
        st1.(connecting := st1.connecting + SendTo(n, if slots > k then Steal(st1, n, viable, slots - k) else []))
      else st1
  {
    NoneSent(n);
    var st1 := AfterQueue(st, n);
    assert Room(st, n) == 0 ==> st.unassigned[..0] == [] && st1.unassigned == st.unassigned && st1.connecting == st.connecting;
    assert st1.connecting + [] == st1.connecting;
  }

  lemma NoneSent(n: NodeId)
    ensures SendTo(n, []) == []
  {
  }

  lemma {:induction false} SameStealables(st: State, st': State, n: NodeId, viable: seq<TaskId>)
    requires n in st.running && st'.tasks == st.tasks && st'.running == st.running
    ensures Stealables(st', n, viable) == Stealables(st, n, viable)
  {
    if viable != [] {
      SameStealables(st, st', n, viable[1..]);
    }
  }

  /** After a search no task is left in the queue for which the node has room. */
  lemma NobodyWaitsForAnIdleNode(st: State, n: NodeId, viable: seq<TaskId>)
    requires n in st.nodes && n in st.running
    ensures var st' := FindWork(st, n, viable);
      st'.unassigned == [] || |st.running[n]| + |st'.connecting| - |st.connecting| >= st.nodes[n].slots + 1
  {
    var stolen := SearchSends(st, n, viable);
  }

  /** And no more are sent than it has room for. */
  lemma NoNodeIsFlooded(st: State, n: NodeId, viable: seq<TaskId>)
    requires n in st.nodes && n in st.running
    ensures var sent := |FindWork(st, n, viable).connecting| - |st.connecting|;
      sent >= 0 && (sent > 0 ==> |st.running[n]| + sent <= st.nodes[n].slots + 1)
  {
    var stolen := SearchSends(st, n, viable);
  }

  // --- Where a task waits ------------------------------------------------------------------

  /** A task that has to be repeated is the next to be sent, before all that wait; one that is
      new is the last. */
  lemma RepeatedFirst(st: State, t: TaskId, n: NodeId, viable: seq<TaskId>)
    requires n in st.nodes && n in st.running && |st.running[n]| <= st.nodes[n].slots
    ensures var st' := FindWork(ScheduleTask(st, t, true, None), n, viable);
      |st'.connecting| > |st.connecting| && st'.connecting[|st.connecting|] == (t, n)
    ensures st.unassigned != [] ==>
        var st' := FindWork(ScheduleTask(st, t, false, None), n, viable);
        |st'.connecting| > |st.connecting| && st'.connecting[|st.connecting|] == (st.unassigned[0], n)
  {
    var high, low := ScheduleTask(st, t, true, None), ScheduleTask(st, t, false, None);
    var _ := SearchSends(high, n, viable);
    var _ := SearchSends(low, n, viable);
    assert high.unassigned[..Room(high, n)][0] == t;
    if st.unassigned != [] {
      assert low.unassigned[..Room(low, n)][0] == st.unassigned[0];
    }
  }

  /** While tasks wait, a further one waits behind or before them, however free the nodes are;
      otherwise it goes to the best node at once. */
  lemma QueueIsKept(st: State, t: TaskId, high: bool, best: NodeId)
    ensures var st' := ScheduleTask(st, t, high, Some(best));
      if st.unassigned == [] then st'.unassigned == [] && st'.connecting == st.connecting + [(t, best)]
      else st'.connecting == st.connecting && multiset(st'.unassigned) == multiset(st.unassigned) + multiset{t}
  {
  }

  /** At the end of a session its task is scheduled again exactly if the session has failed,
      the task has no result and no other session runs for it. */
  lemma RepeatedExactly(st: State, sid: SessionId, r: Result, c: Choice)
    requires CanEnd(st, sid)
    ensures var t, found := st.sessions[sid].task, FindWork(Unregister(st, sid), st.sessions[sid].node, c.viable);
      var st' := CompleteSession(st, sid, r, c.viable, c.pick);
      var again := (r == Failure || r == Terminated) && (st.tasks[t].completedBy == None || st.tasks[t].completedBy == Some(sid))
        && st.tasks[t].running <= {sid};
      if again then
        && |st'.unassigned| + |st'.connecting| == |found.unassigned| + |found.connecting| + 1
        && ((st'.unassigned != [] && st'.unassigned[0] == t) || OnItsWay(st'.connecting, t))
      else st'.unassigned == found.unassigned && st'.connecting == found.connecting
  {
    var t := st.sessions[sid].task;
    assert st.tasks[t].running - {sid} == {} <==> st.tasks[t].running <= {sid};
    var st1 := Report(FindWork(Unregister(st, sid), st.sessions[sid].node, c.viable), sid, r);
    if MustReschedule(st1.tasks[t], r) {
      WaitsAfterwards(st1, t, c.pick);
    }
  }

  lemma WaitsAfterwards(st: State, t: TaskId, pick: Option<NodeId>)
    ensures var st' := ScheduleTask(st, t, true, pick);
      && |st'.unassigned| + |st'.connecting| == |st.unassigned| + |st.connecting| + 1
      && ((st'.unassigned != [] && st'.unassigned[0] == t) || OnItsWay(st'.connecting, t))
  {
    if st.unassigned == [] && pick.Some? {
      var st' := ScheduleTask(st, t, true, pick);
      assert st'.connecting[|st.connecting|].0 == t;
    }
  }

  /** A node's tasks stand in the order in which they have come: a new one is behind all that
      are running there, and other nodes' lists stay as they are. */
  lemma NewestLast(st: State, i: nat, n: NodeId)
    requires i < |st.connecting| && n in st.running
    requires st.connecting[i].0 in st.tasks && st.connecting[i].1 in st.nodes && st.connecting[i].1 in st.running
    ensures var st', (t, to) := CreateSession(st, i), st.connecting[i];
      && st'.running.Keys == st.running.Keys && st.running[n] <= st'.running[n]
      && (if n == to then |st'.running[n]| == |st.running[n]| + 1 && st'.running[n][|st.running[n]|] == t
          else st'.running[n] == st.running[n])
  {
  }

  // --- Who is cancelled ----------------------------------------------------------------------

  /** In the step in which a task is won every other session running for it is cancelled, and
      told so if its server is known; no other session is. */
  lemma WinnerCancelsOthers(st: State, e: Event, c: Choice, t: TaskId, s: SessionId)
    requires Inv(st) && Enabled(st, e, c) && t in st.tasks && st.tasks[t].completedBy == None
    requires t in Apply(st, e, c).tasks && Apply(st, e, c).tasks[t].completedBy.Some?
    requires s in st.sessions && s in Apply(st, e, c).sessions && Apply(st, e, c).tasks[t].completedBy != Some(s)
    ensures var l, l' := st.sessions[s].link, Apply(st, e, c).sessions[s].link;
      if s in st.tasks[t].running then
        l'.m == l.m.(cancelled := true) && l'.down == l.down + (if l.m.sender then [Cancel] else []) && l'.up == l.up && l'.s == l.s
      else l' == l
  {
    match e
    case ToManager(sid) =>
      ReadyToReceive(st, sid);
      if sid in st.live {
        GetsCancels(st, sid, c, t, s);
      }
    case Written(sid) =>
      EndReady(st, sid);
      EndWinsNothing(st, sid, Success, c, t);
    case Lose(sid) =>
      EndReady(st, sid);
      EndWinsNothing(st, sid, Terminated, c, t);
    case _ => OthersWinNothing(st, e, c, t);
  }

  lemma OthersWinNothing(st: State, e: Event, c: Choice, t: TaskId)
    requires Inv(st) && Enabled(st, e, c) && t in st.tasks && !e.ToManager? && !e.Written? && !e.Lose?
    ensures t in Apply(st, e, c).tasks && Apply(st, e, c).tasks[t].completedBy == st.tasks[t].completedBy
  {
    if e.ToServer? || e.Callback? || e.Upload? {
      ServersWinNothing(st, e, c);
    }
  }

  lemma ServersWinNothing(st: State, e: Event, c: Choice)
    requires Books(st, None) && Enabled(st, e, c) && (e.ToServer? || e.Callback? || e.Upload?)
    ensures Apply(st, e, c).tasks == st.tasks
  {
  }

  lemma EndWinsNothing(st: State, sid: SessionId, r: Result, c: Choice, t: TaskId)
    requires CanEnd(st, sid) && t in st.tasks && st.tasks[t].completedBy == None
    ensures t in EndSession(st, sid, r, c).tasks && EndSession(st, sid, r, c).tasks[t].completedBy == None
  {
    var l := st.sessions[sid].link;
    CompleteIs(WithLink(st, sid, l.(m := l.m.(phase := Finished(r))), true), sid, r, c.viable, c.pick);
  }

  lemma GetsCancels(st: State, sid: SessionId, c: Choice, t: TaskId, s: SessionId)
    requires Inv(st) && sid in st.live && CanReceive(st, sid) && t in st.tasks && st.tasks[t].completedBy == None
    requires t in ManagerGets(st, sid, c).tasks && ManagerGets(st, sid, c).tasks[t].completedBy.Some?
    requires s in st.sessions && s in ManagerGets(st, sid, c).sessions && ManagerGets(st, sid, c).tasks[t].completedBy != Some(s)
    ensures var l, l' := st.sessions[s].link, ManagerGets(st, sid, c).sessions[s].link;
      if s in st.tasks[t].running then
        l'.m == l.m.(cancelled := true) && l'.down == l.down + (if l.m.sender then [Cancel] else []) && l'.up == l.up && l'.s == l.s
      else l' == l
  {
    GetsSessions(st, sid, c);
    GetsWins(st, sid, c, t);
    AnsweredCancels(st, sid, c, s);
  }

  lemma GetsSessions(st: State, sid: SessionId, c: Choice)
    requires Inv(st) && sid in st.live && CanReceive(st, sid)
    ensures ManagerGets(st, sid, c).sessions == Answered(st, sid, c).sessions
  {
    var m := AfterAnswer(st, sid, c).m;
    AnswerHolds(st, sid, c);
    GetsInParts(st, sid, c);
    if m.phase.Finished? {
      AnsweredQuiet(st, sid, c);
      CompleteIs(Answered(st, sid, c), sid, m.phase.result, c.viable, c.pick);
    }
  }

  /** A task is won by a session that registers its completion, and by no other step. */
  lemma GetsWins(st: State, sid: SessionId, c: Choice, t: TaskId)
    requires Inv(st) && sid in st.live && CanReceive(st, sid) && t in st.tasks && st.tasks[t].completedBy == None
    requires t in ManagerGets(st, sid, c).tasks && ManagerGets(st, sid, c).tasks[t].completedBy.Some?
    ensures Taken(st, sid) && t == st.sessions[sid].task && ManagerGets(st, sid, c).tasks[t].completedBy == Some(sid)
  {
    var m := AfterAnswer(st, sid, c).m;
    AnswerHolds(st, sid, c);
    GetsInParts(st, sid, c);
    if m.phase.Finished? {
      AnsweredQuiet(st, sid, c);
      CompleteIs(Answered(st, sid, c), sid, m.phase.result, c.viable, c.pick);
    }
    AnsweredTasks(st, sid, c, t);
  }

  lemma AnsweredTasks(st: State, sid: SessionId, c: Choice, t: TaskId)
    requires CanReceive(st, sid) && t in st.tasks && st.tasks[t].completedBy == None
    ensures t in Answered(st, sid, c).tasks
    ensures Answered(st, sid, c).tasks[t].completedBy == if Taken(st, sid) && t == st.sessions[sid].task then Some(sid) else None
  {
  }

  lemma AnsweredCancels(st: State, sid: SessionId, c: Choice, s: SessionId)
    requires CanReceive(st, sid) && Taken(st, sid) && s in st.sessions && s != sid
    ensures var l, l' := st.sessions[s].link, Answered(st, sid, c).sessions[s].link;
      if s in st.tasks[st.sessions[sid].task].running then
        l'.m == l.m.(cancelled := true) && l'.down == l.down + (if l.m.sender then [Cancel] else []) && l'.up == l.up && l'.s == l.s
      else l' == l
  {
    assert forall d: seq<Down> :: d + [] == d;
  }
}
