/** A concrete run of the manager: two nodes race for one task, and one of them wins. */
module BuildTraces {
  import opened SessionProtocol
  import opened BuildManager
  import opened BuildSafety
  import opened BuildRuns

  ghost predicate RunTo(trace: seq<State>, steps: seq<(Event, Choice)>, st: State) {
    Run(trace, steps) && trace[|steps|] == st
  }

  ghost predicate Reachable(st: State) {
    exists trace, steps :: RunTo(trace, steps, st)
  }

  lemma StartReachable(st: State)
    requires Init(st)
    ensures Reachable(st)
  {
    assert RunTo([st], [], st);
  }

  lemma ReachableHolds(st: State)
    requires Reachable(st)
    ensures Inv(st)
  {
    var trace: seq<State>, steps: seq<(Event, Choice)> :| RunTo(trace, steps, st);
    RunHolds(trace, steps, |steps|);
  }

  lemma RunGrows(trace: seq<State>, steps: seq<(Event, Choice)>, e: Event, c: Choice, st': State)
    requires Run(trace, steps) && Step(trace[|steps|], e, c, st')
    ensures Run(trace + [st'], steps + [(e, c)])
  {
    var trace', steps' := trace + [st'], steps + [(e, c)];
    forall i | 0 <= i < |steps'|
      ensures Step(trace'[i], steps'[i].0, steps'[i].1, trace'[i + 1])
    {
      if i < |steps| {
        assert Step(trace[i], steps[i].0, steps[i].1, trace[i + 1]);
      }
    }
  }

  lemma ReachableGrows(st: State, e: Event, c: Choice, st': State)
    requires Reachable(st) && Step(st, e, c, st')
    ensures Reachable(st')
  {
    var trace: seq<State>, steps: seq<(Event, Choice)> :| RunTo(trace, steps, st);
    RunGrows(trace, steps, e, c, st');
    assert RunTo(trace + [st'], steps + [(e, c)], st');
  }

  /** A run may go on with any step that is enabled. */
  lemma Extend(st: State, e: Event, c: Choice, st': State)
    requires Reachable(st) && Enabled(st, e, c) && (Inv(st) ==> st' == Apply(st, e, c))
    ensures Reachable(st')
  {
    ReachableHolds(st);
    assert Step(st, e, c, st');
    ReachableGrows(st, e, c, st');
  }

  // --- Two nodes, one task -----------------------------------------------------------

  const PLAIN := Choice((false, false), Exited(0), 0, 0, 0, [], None)

  function NodeWith(sent: nat): Node {
    Node(1, sent, 0, 0, 0, 0, 0)
  }

  const START := State(map[], {}, map[], map[], [], [], map[], map[], 0, true)
  const ONE_NODE := START.(running := map[0 := []], nodes := map[0 := NodeWith(0)])

  function OneTask(scheduled: bool, running: set<SessionId>): map<TaskId, Task> {
    map[0 := Task(0, scheduled, None, running, {})]
  }

  const NO_RESULT: map<CommandId, Command> := map[0 := Command({0}, map[], 0, {})]

  const ONE_COMMAND := ONE_NODE.(tasks := OneTask(false, {}), commands := NO_RESULT)
  const ON_ITS_WAY := ONE_COMMAND.(tasks := OneTask(true, {}), connecting := [(0, 0)])

  const ONE_SESSION := State(
    map[1 := Session(0, 0, LINK_START)], {1}, OneTask(true, {1}), NO_RESULT, [], [], map[0 := [0]], map[0 := NodeWith(1)], 1, true)

  const STOLEN := ONE_SESSION.(
    connecting := [(0, 1)], running := map[0 := [0], 1 := []], nodes := map[0 := NodeWith(1), 1 := NodeWith(0)])

  /** Session 1 on node 0 and session 2 on node 1 hold the task. */
  function Racing(l1: Link, l2: Link, winner: Option<SessionId>): State {
    State(map[1 := Session(0, 0, l1), 2 := Session(0, 1, l2)], {1, 2}, map[0 := Task(0, true, winner, {1, 2}, {})], NO_RESULT,
      [], [], map[0 := [0], 1 := [0]], map[0 := NodeWith(1), 1 := NodeWith(1)], 2, true)
  }

  lemma NothingToSend(n: NodeId)
    ensures SendTo(n, []) == []
  {
  }

  lemma FirstNode()
    ensures Reachable(ONE_NODE)
  {
    StartReachable(START);
    NothingToSend(0);
    Extend(START, Join(0, 1), PLAIN, ONE_NODE);
  }

  lemma FirstCommand()
    ensures Reachable(ON_ITS_WAY)
  {
    FirstNode();
    assert WithCommand(ONE_NODE, 0, {0}).tasks == OneTask(false, {});
    assert WithCommand(ONE_NODE, 0, {0}).commands == NO_RESULT;
    Extend(ONE_NODE, NewCommand(0, {0}), PLAIN, ONE_COMMAND);
    assert Marked(ONE_COMMAND, 0).tasks == OneTask(true, {});
    assert [] + [(0, 0)] == [(0, 0)];
    Extend(ONE_COMMAND, Schedule(0), PLAIN.(pick := Some(0)), ON_ITS_WAY);
  }

  lemma FirstSession()
    ensures Reachable(ONE_SESSION)
  {
    FirstCommand();
    var st := CreateSession(ON_ITS_WAY, 0);
    assert st.tasks[0].running == {1} && st.running[0] == [0];
    assert st.sessions == ONE_SESSION.sessions && st.tasks == ONE_SESSION.tasks && st.nodes == ONE_SESSION.nodes;
    assert st.running == ONE_SESSION.running && st.connecting == [] && st.live == {1};
    Extend(ON_ITS_WAY, Connected(0), PLAIN, ONE_SESSION);
  }

  /** A second node joins and steals the task. */
  lemma SecondNode()
    ensures Reachable(STOLEN)
  {
    FirstSession();
    var joined := Joined(ONE_SESSION, 1, 1);
    assert joined.running == STOLEN.running && joined.nodes == STOLEN.nodes;
    NothingToSend(1);
    assert Steal(joined, 1, [0][1..], 1) == [];
    assert Steal(joined, 1, [0], 2) == [0];
    assert SendTo(1, [0]) == [(0, 1)];
    assert FindWork(joined, 1, [0]) == STOLEN;
    Extend(ONE_SESSION, Join(1, 1), PLAIN.(viable := [0]), STOLEN);
  }

  lemma SecondSession()
    ensures Reachable(Racing(LINK_START, LINK_START, None))
  {
    SecondNode();
    var st, goal := CreateSession(STOLEN, 0), Racing(LINK_START, LINK_START, None);
    assert st.tasks[0].running == {1, 2} && st.running[1] == [0];
    assert st.sessions == goal.sessions && st.tasks == goal.tasks && st.nodes == goal.nodes;
    assert st.running == goal.running && st.connecting == [] && st.live == {1, 2};
    Extend(STOLEN, Connected(0), PLAIN, goal);
  }

  // --- Steps of one of the links -------------------------------------------------------

  function Relinked(l1: Link, l2: Link, winner: Option<SessionId>, sid: SessionId, l: Link): State {
    if sid == 1 then Racing(l, l2, winner) else Racing(l1, l, winner)
  }

  function LinkOf(l1: Link, l2: Link, sid: SessionId): Link {
    if sid == 1 then l1 else l2
  }

  lemma MoveLink(l1: Link, l2: Link, winner: Option<SessionId>, sid: SessionId, l: Link)
    requires sid == 1 || sid == 2
    ensures WithLink(Racing(l1, l2, winner), sid, l, true) == Relinked(l1, l2, winner, sid, l)
  {
    assert WithLink(Racing(l1, l2, winner), sid, l, true).sessions == Relinked(l1, l2, winner, sid, l).sessions;
  }

  lemma ServerMoves(l1: Link, l2: Link, winner: Option<SessionId>, sid: SessionId, l': Link)
    requires Reachable(Racing(l1, l2, winner)) && (sid == 1 || sid == 2)
    requires var l := LinkOf(l1, l2, sid);
      l.down != [] && DeliverDown(l, (false, false)).ok && l' == AfterServer(l, l.down[1..], DeliverDown(l, (false, false)))
    ensures Reachable(Relinked(l1, l2, winner, sid, l'))
  {
    MoveLink(l1, l2, winner, sid, l');
    Extend(Racing(l1, l2, winner), ToServer(sid), PLAIN, Relinked(l1, l2, winner, sid, l'));
  }

  lemma CallbackMoves(l1: Link, l2: Link, winner: Option<SessionId>, sid: SessionId, l': Link)
    requires Reachable(Racing(l1, l2, winner)) && (sid == 1 || sid == 2)
    requires var l := LinkOf(l1, l2, sid); var r := ServerCallback(l.s, Exited(0), 0); r.ok && l' == AfterServer(l, l.down, r)
    ensures Reachable(Relinked(l1, l2, winner, sid, l'))
  {
    MoveLink(l1, l2, winner, sid, l');
    Extend(Racing(l1, l2, winner), Callback(sid), PLAIN, Relinked(l1, l2, winner, sid, l'));
  }

  lemma ManagerMoves(l1: Link, l2: Link, winner: Option<SessionId>, sid: SessionId, l': Link)
    requires Reachable(Racing(l1, l2, winner)) && (sid == 1 || sid == 2)
    requires var l := LinkOf(l1, l2, sid);
      && l.up != [] && l.m.phase != WaitResponse
      && var r := ManagerReceive(l.m, l.up[0], false, 0, 0);
         r.ok && !r.next.phase.Finished? && l' == AfterManager(l, l.up[1..], r)
    ensures Reachable(Relinked(l1, l2, winner, sid, l'))
  {
    MoveLink(l1, l2, winner, sid, l');
    Extend(Racing(l1, l2, winner), ToManager(sid), PLAIN, Relinked(l1, l2, winner, sid, l'));
  }

  // --- The race ----------------------------------------------------------------------------

  const NEEDS_NOTHING := Missing(false, false)

  const ASKED := Link(MANAGER_START, [], [NEEDS_NOTHING], Server(Headers(false, false), false, false, Idle, [NEEDS_NOTHING], false))
  const SENT :=
    Link(Manager(WaitResponse, true, false, 0, 0), [TaskFiles], [], Server(Headers(false, false), false, false, Idle, [NEEDS_NOTHING], false))
  const STARTED :=
    Link(Manager(WaitResponse, true, false, 0, 0), [], [], Server(Running, false, false, StartCompiler, [NEEDS_NOTHING], false))
  const COMPILING := STARTED.(s := STARTED.s.(callback := FinishCompiler))
  const COMPILED :=
    Link(Manager(WaitResponse, true, false, 0, 0), [], [Done(0)],
      Server(Confirming, false, false, Idle, [NEEDS_NOTHING, Done(0)], false))
  const CONFIRMED := Link(Manager(Receiving, true, false, 0, 0), [Confirm(true)], [], COMPILED.s)
  const UPLOADING := Link(CONFIRMED.m, [], [], CONFIRMED.s.(phase := Uploading, callback := SendResult))
  const UPLOADED :=
    Link(CONFIRMED.m, [], [Data(true)], Server(Uploading, false, true, Idle, [NEEDS_NOTHING, Done(0), Data(true)], false))
  /** The result is there and its files are being written. */
  const WINNER := Link(Manager(Writing, true, false, 0, 0), [], [], UPLOADED.s)
  /** Cancelled, but its server has yet to hear of it. */
  const LOSER := Link(Manager(WaitResponse, true, true, 0, 0), [Cancel], [], STARTED.s)

  lemma Greeting(l: Link)
    requires l == LINK_START || l == ASKED || l == SENT
    ensures l == LINK_START ==> DeliverDown(l, (false, false)).ok && AfterServer(l, l.down[1..], DeliverDown(l, (false, false))) == ASKED
    ensures l == ASKED ==>
        var r := ManagerReceive(l.m, l.up[0], false, 0, 0);
        r.ok && !r.next.phase.Finished? && AfterManager(l, l.up[1..], r) == SENT
    ensures l == SENT ==> DeliverDown(l, (false, false)).ok && AfterServer(l, l.down[1..], DeliverDown(l, (false, false))) == STARTED
  {
    assert [] + [NEEDS_NOTHING] == [NEEDS_NOTHING];
  }

  lemma Finishing()
    ensures ServerCallback(STARTED.s, Exited(0), 0).ok && AfterServer(STARTED, [], ServerCallback(STARTED.s, Exited(0), 0)) == COMPILING
    ensures ServerCallback(COMPILING.s, Exited(0), 0).ok
    ensures AfterServer(COMPILING, [], ServerCallback(COMPILING.s, Exited(0), 0)) == COMPILED
    ensures DeliverDown(CONFIRMED, (false, false)).ok
    ensures AfterServer(CONFIRMED, [], DeliverDown(CONFIRMED, (false, false))) == UPLOADING
    ensures ServerCallback(UPLOADING.s, Exited(0), 0).ok
    ensures AfterServer(UPLOADING, [], ServerCallback(UPLOADING.s, Exited(0), 0)) == UPLOADED
    ensures var r := ManagerReceive(UPLOADED.m, Data(true), false, 0, 0); r.ok && AfterManager(UPLOADED, [], r) == WINNER
  {
    assert [NEEDS_NOTHING] + [Done(0)] == [NEEDS_NOTHING, Done(0)];
    assert [NEEDS_NOTHING, Done(0)] + [Data(true)] == [NEEDS_NOTHING, Done(0), Data(true)];
    assert Pieces(0) == [Data(true)];
  }

  lemma BothStart()
    ensures Reachable(Racing(STARTED, STARTED, None))
  {
    SecondSession();
    Greeting(LINK_START);
    Greeting(ASKED);
    Greeting(SENT);
    ServerMoves(LINK_START, LINK_START, None, 1, ASKED);
    ManagerMoves(ASKED, LINK_START, None, 1, SENT);
    ServerMoves(SENT, LINK_START, None, 1, STARTED);
    ServerMoves(STARTED, LINK_START, None, 2, ASKED);
    ManagerMoves(STARTED, ASKED, None, 2, SENT);
    ServerMoves(STARTED, SENT, None, 2, STARTED);
  }

  lemma FirstCompiles()
    ensures Reachable(Racing(COMPILED, STARTED, None))
  {
    BothStart();
    Finishing();
    CallbackMoves(STARTED, STARTED, None, 1, COMPILING);
    CallbackMoves(COMPILING, STARTED, None, 1, COMPILED);
  }

  /** The manager hears of it, and cancels the other session. */
  lemma FirstWins()
    ensures Reachable(Racing(CONFIRMED, LOSER, Some(1)))
  {
    FirstCompiles();
    var st, goal := Racing(COMPILED, STARTED, None), Racing(CONFIRMED, LOSER, Some(1));
    ReachableHolds(st);
    ReadyToReceive(st, 1);
    WinnerAnswered(st);
    Extend(st, ToManager(1), PLAIN, goal);
  }

  lemma WinnerAnswered(st: State)
    requires st == Racing(COMPILED, STARTED, None) && CanReceive(st, 1)
    ensures ManagerGets(st, 1, PLAIN) == Racing(CONFIRMED, LOSER, Some(1))
  {
    WinnerConfirmed();
    WinnerTakes(st);
    GetsInParts(st, 1, PLAIN);
    Registered();
    MoveLink(COMPILED, LOSER, Some(1), 1, CONFIRMED);
  }

  lemma WinnerTakes(st: State)
    requires st == Racing(COMPILED, STARTED, None) && CanReceive(st, 1)
    ensures Taken(st, 1) && 1 in st.live && st.ok
    ensures Answer(st, 1, PLAIN) == ManagerReceive(COMPILED.m, Done(0), true, 0, 0)
    ensures AfterAnswer(st, 1, PLAIN) == AfterManager(COMPILED, [], ManagerReceive(COMPILED.m, Done(0), true, 0, 0))
  {
    assert st.sessions[1].link == COMPILED && COMPILED.up[1..] == [];
  }

  lemma Registered()
    ensures RegisterCompletion(Racing(COMPILED, STARTED, None), 1) == Racing(COMPILED, LOSER, Some(1))
  {
    var st := Racing(COMPILED, STARTED, None);
    assert [] + [Cancel] == [Cancel];
    assert WithManager(st.sessions[2], ManagerCancel(STARTED.m)) == Session(0, 1, LOSER);
    assert {1, 2} - {1} == {2};
    var won := RegisterCompletion(st, 1);
    assert won.sessions == Racing(COMPILED, LOSER, Some(1)).sessions;
    assert won.tasks == Racing(COMPILED, LOSER, Some(1)).tasks;
  }

  lemma WinnerConfirmed()
    ensures var r := ManagerReceive(COMPILED.m, Done(0), true, 0, 0);
      r.ok && !r.next.phase.Finished? && AfterManager(COMPILED, [], r) == CONFIRMED
  {
    assert [] + [Confirm(true)] == [Confirm(true)];
  }

  /** Session 1 has won and is writing the files, session 2 has been cancelled. */
  lemma CloseRaceReached()
    ensures Reachable(Racing(WINNER, LOSER, Some(1)))
  {
    FirstWins();
    Finishing();
    ServerMoves(CONFIRMED, LOSER, Some(1), 1, UPLOADING);
    CallbackMoves(UPLOADING, LOSER, Some(1), 1, UPLOADED);
    ManagerMoves(UPLOADED, LOSER, Some(1), 1, WINNER);
  }
}
