/** When a command hears that all sessions of a task are over. */
module LastSessions {
  import opened SessionProtocol
  import opened BuildManager
  import opened BuildSafety
  import opened BuildRuns
  import opened BuildTraces

  /** The command of the task has been told. */
  ghost predicate Said(st: State, t: TaskId) {
    t in st.tasks && st.tasks[t].command in st.commands && t in st.commands[st.tasks[t].command].sessionsDone
  }

  /** In this step the last running session of a task ends, and the task is completed. */
  ghost predicate LastEnds(st: State, st': State, t: TaskId) {
    && t in st.tasks && st.tasks[t].running != {}
    && t in st'.tasks && st'.tasks[t].running == {} && st'.tasks[t].completedBy.Some?
  }

  predicate Failing(r: Result) {
    r == Failure || r == Terminated
  }

  /** And that session has not failed. */
  ghost predicate EndsWell(st: State, st': State, t: TaskId) {
    LastEnds(st, st', t) && exists sid, r :: EndsIn(st, st', t, sid, r) && !Failing(r)
  }

  ghost predicate EndsIn(st: State, st': State, t: TaskId, sid: SessionId, r: Result) {
    t in st.tasks && st.tasks[t].running == {sid} && sid in st'.sessions && st'.sessions[sid].link.m.phase == Finished(r)
  }

  // --- One step ------------------------------------------------------------------------

  /** A step that ends no session says nothing and empties no task. */
  ghost predicate Quiet(st: State, st': State) {
    && st.tasks.Keys <= st'.tasks.Keys && st.commands.Keys <= st'.commands.Keys
    && (forall t :: t in st.tasks ==>
          st'.tasks[t].command == st.tasks[t].command && st.tasks[t].running <= st'.tasks[t].running)
    && (forall k :: k in st.commands ==> st'.commands[k] == st.commands[k])
    && (forall t :: t in st'.tasks && t !in st.tasks ==> !Said(st', t))
  }

  lemma QuietSays(st: State, st': State, t: TaskId)
    requires Quiet(st, st') && t in st.tasks && st.tasks[t].command in st.commands
    ensures Said(st', t) <==> Said(st, t)
    ensures !LastEnds(st, st', t)
  {
  }

  /** The session `sid` ends with `r`, and nothing else happens to tasks and commands. */
  ghost predicate Closes(st: State, st': State, sid: SessionId, r: Result) {
    && CanEnd(st, sid)
    && var t := st.sessions[sid].task;
       var task, k := SessionCompleted(st.tasks[t], sid, r), st.tasks[t].command;
       && st'.tasks == st.tasks[t := task] && st'.sessions == st.sessions
       && (exists retcode :: st'.commands == st.commands[k := Heard(st.commands[k], t, task, r, retcode)])
  }

  /** The end of a session in full: its task, its command and its node hear of it. */
  lemma CompleteIs(st: State, sid: SessionId, r: Result, viable: seq<TaskId>, pick: Option<NodeId>)
    requires CanEnd(st, sid)
    ensures var st' := CompleteSession(st, sid, r, viable, pick);
      var t, n := st.sessions[sid].task, st.sessions[sid].node;
      var task, k := SessionCompleted(st.tasks[t], sid, r), st.tasks[t].command;
      && st'.sessions == st.sessions && st'.tasks == st.tasks[t := task] && st'.live == st.live - {sid}
      && st'.nodes == st.nodes[n := ProcessResult(st.nodes[n], r)]
      && st'.commands == st.commands[k := Heard(st.commands[k], t, task, r, st.sessions[sid].link.m.retcode)]
  {
  }

  lemma CompleteCloses(st: State, sid: SessionId, r: Result, viable: seq<TaskId>, pick: Option<NodeId>)
    requires CanEnd(st, sid)
    ensures Closes(st, CompleteSession(st, sid, r, viable, pick), sid, r)
  {
    CompleteIs(st, sid, r, viable, pick);
  }

  /** The command is told exactly if the task is completed, no session is left, and the one
      that has ended has not failed. */
  lemma ClosingSays(st: State, st': State, sid: SessionId, r: Result, t: TaskId)
    requires Closes(st, st', sid, r) && st.sessions[sid].link.m.phase == Finished(r)
    requires sid in st.tasks[st.sessions[sid].task].running
    requires t in st.tasks && st.tasks[t].command in st.commands
    ensures Said(st', t) <==> Said(st, t) || EndsWell(st, st', t)
    ensures LastEnds(st, st', t) ==> EndsIn(st, st', t, sid, r)
  {
    var t0 := st.sessions[sid].task;
    if LastEnds(st, st', t) {
      assert t == t0 && st.tasks[t].running - {sid} == {};
      assert st.tasks[t].running == {sid};
    }
    if t == t0 && st'.tasks[t].running == {} {
      assert st.tasks[t].running == {sid};
    }
    if LastEnds(st, st', t) && !Failing(r) {
      assert EndsIn(st, st', t, sid, r);
    }
  }

  /** The session `sid` gets its result `r` first, and is then closed. */
  ghost predicate Finishes(st: State, mid: State, st': State, sid: SessionId, r: Result) {
    && Quiet(st, mid) && mid.tasks.Keys == st.tasks.Keys
    && (forall t :: t in st.tasks ==> mid.tasks[t].running == st.tasks[t].running)
    && Closes(mid, st', sid, r) && mid.sessions[sid].link.m.phase == Finished(r)
    && sid in mid.tasks[mid.sessions[sid].task].running
  }

  /** A step is of one of these two kinds. */
  ghost predicate Shape(st: State, st': State) {
    Quiet(st, st') || exists mid, sid, r :: Finishes(st, mid, st', sid, r)
  }

  lemma FinishSays(st: State, mid: State, st': State, sid: SessionId, r: Result, t: TaskId)
    requires Finishes(st, mid, st', sid, r) && t in st.tasks && st.tasks[t].command in st.commands
    ensures Said(st', t) <==> Said(st, t) || EndsWell(st, st', t)
    ensures LastEnds(st, st', t) ==> EndsIn(st, st', t, sid, r)
  {
    ClosingSays(mid, st', sid, r, t);
    QuietSays(st, mid, t);
    assert LastEnds(mid, st', t) == LastEnds(st, st', t);
    assert forall s, q :: EndsIn(mid, st', t, s, q) == EndsIn(st, st', t, s, q);
  }

  /** A task is told about in a step exactly if the step ends its last session, which has
      not failed, with the task completed; one session ends at a time. */
  lemma ShapeSays(st: State, st': State, t: TaskId)
    requires Shape(st, st') && (t in st.tasks ==> st.tasks[t].command in st.commands)
    ensures Said(st', t) <==> Said(st, t) || EndsWell(st, st', t)
    ensures LastEnds(st, st', t) ==> exists sid, r :: EndsIn(st, st', t, sid, r)
  {
    if t in st.tasks {
      if Quiet(st, st') {
        QuietSays(st, st', t);
      } else {
        var mid, sid, r :| Finishes(st, mid, st', sid, r);
        FinishSays(st, mid, st', sid, r, t);
      }
    }
  }

  // --- Every step has one of the shapes ----------------------------------------------------

  lemma LinkQuiet(st: State, sid: SessionId, l: Link, ok: bool)
    requires sid in st.sessions
    ensures Quiet(st, WithLink(st, sid, l, ok))
  {
  }

  lemma NewCommandQuiet(st: State, k: CommandId, ts: set<TaskId>)
    requires k !in st.commands && forall t :: t in ts ==> t !in st.tasks
    requires forall t :: t in st.tasks ==> st.tasks[t].command in st.commands
    ensures Quiet(st, WithCommand(st, k, ts))
  {
    var st' := WithCommand(st, k, ts);
    assert st'.commands[k].sessionsDone == {};
    assert forall t :: t in st'.tasks && t !in st.tasks ==> st'.tasks[t].command == k;
  }

  lemma ScheduleQuiet(st: State, t: TaskId, pick: Option<NodeId>)
    requires t in st.tasks
    ensures Quiet(st, ScheduleTask(Marked(st, t), t, false, pick))
  {
  }

  lemma CreateQuiet(st: State, i: nat)
    requires i < |st.connecting| && st.connecting[i].0 in st.tasks && st.connecting[i].1 in st.nodes && st.connecting[i].1 in st.running
    ensures Quiet(st, CreateSession(st, i))
  {
  }

  lemma JoinQuiet(st: State, n: NodeId, slots: nat, viable: seq<TaskId>)
    ensures Quiet(st, FindWork(Joined(st, n, slots), n, viable))
  {
    var st' := FindWork(Joined(st, n, slots), n, viable);
    assert st'.tasks == st.tasks && st'.commands == st.commands;
  }

  lemma Running(st: State, sid: SessionId)
    requires Inv(st) && sid in st.live
    ensures sid in st.sessions && st.sessions[sid].task in st.tasks && sid in st.tasks[st.sessions[sid].task].running
  {
    assert SessionKnown(st, sid, None);
  }

  lemma EndShape(st: State, sid: SessionId, r: Result, c: Choice)
    requires Inv(st) && sid in st.live && CanEnd(st, sid)
    ensures Shape(st, EndSession(st, sid, r, c))
  {
    var l := st.sessions[sid].link;
    var mid := WithLink(st, sid, l.(m := l.m.(phase := Finished(r))), true);
    Running(st, sid);
    LinkQuiet(st, sid, l.(m := l.m.(phase := Finished(r))), true);
    CompleteCloses(mid, sid, r, c.viable, c.pick);
    assert Finishes(st, mid, EndSession(st, sid, r, c), sid, r);
  }

  lemma GetsShape(st: State, sid: SessionId, c: Choice)
    requires Inv(st) && sid in st.live && CanReceive(st, sid)
    ensures Shape(st, ManagerGets(st, sid, c))
  {
    var mid, m := Answered(st, sid, c), AfterAnswer(st, sid, c).m;
    Running(st, sid);
    AnswerHolds(st, sid, c);
    GetsInParts(st, sid, c);
    AnsweredQuiet(st, sid, c);
    if m.phase.Finished? {
      CompleteCloses(mid, sid, m.phase.result, c.viable, c.pick);
      assert Finishes(st, mid, ManagerGets(st, sid, c), sid, m.phase.result);
    }
  }

  lemma AnsweredQuiet(st: State, sid: SessionId, c: Choice)
    requires CanReceive(st, sid)
    ensures var mid := Answered(st, sid, c);
      && Quiet(st, mid) && mid.tasks.Keys == st.tasks.Keys
      && (forall t :: t in st.tasks ==> mid.tasks[t].running == st.tasks[t].running)
      && sid in mid.sessions && mid.sessions[sid].task == st.sessions[sid].task && mid.sessions[sid].node == st.sessions[sid].node
      && mid.sessions[sid].link == AfterAnswer(st, sid, c)
      && mid.nodes == st.nodes && mid.running == st.running && mid.commands == st.commands
  {
  }

  lemma EndReady(st: State, sid: SessionId)
    requires Inv(st) && sid in st.live
    ensures CanEnd(st, sid)
  {
    assert SessionKnown(st, sid, None);
    assert TaskKnown(st, st.sessions[sid].task);
  }

  lemma ConnectedReady(st: State, i: nat)
    requires Inv(st) && i < |st.connecting|
    ensures st.connecting[i].0 in st.tasks && st.connecting[i].1 in st.nodes && st.connecting[i].1 in st.running
  {
  }

  lemma ServerStepShape(st: State, e: Event, c: Choice)
    requires Inv(st) && Enabled(st, e, c) && (e.ToServer? || e.Callback? || e.Upload?)
    ensures Shape(st, Apply(st, e, c))
  {
    match e
    case ToServer(sid) =>
      var l := st.sessions[sid].link;
      var r := DeliverDown(l, c.needs);
      LinkQuiet(st, sid, AfterServer(l, l.down[1..], r), r.ok);
    case Callback(sid) =>
      var l := st.sessions[sid].link;
      var r := ServerCallback(l.s, c.outcome, c.parts);
      LinkQuiet(st, sid, AfterServer(l, l.down, r), r.ok);
    case Upload(sid) => LinkQuiet(st, sid, UploadPiece(st.sessions[sid].link), true);
  }

  lemma KnownCommands(st: State)
    requires Inv(st)
    ensures forall t :: t in st.tasks ==> st.tasks[t].command in st.commands
  {
    forall t | t in st.tasks
      ensures st.tasks[t].command in st.commands
    {
      assert TaskKnown(st, t);
    }
  }

  lemma StepShape(st: State, e: Event, c: Choice)
    requires Inv(st) && Enabled(st, e, c)
    ensures Shape(st, Apply(st, e, c))
  {
    match e
    case NewCommand(k, ts) =>
      KnownCommands(st);
      NewCommandQuiet(st, k, ts);
    case Schedule(t) => ScheduleQuiet(st, t, c.pick);
    case Connected(i) =>
      ConnectedReady(st, i);
      CreateQuiet(st, i);
    case ToManager(sid) =>
      ReadyToReceive(st, sid);
      if sid in st.live {
        GetsShape(st, sid, c);
      } else {
        var l := st.sessions[sid].link;
        LinkQuiet(st, sid, l.(up := l.up[1..]), true);
      }
    case Written(sid) =>
      EndReady(st, sid);
      EndShape(st, sid, Success, c);
    case Lose(sid) =>
      EndReady(st, sid);
      EndShape(st, sid, Terminated, c);
    case Join(n, slots) => JoinQuiet(st, n, slots, c.viable);
    case _ => ServerStepShape(st, e, c);
  }

  // --- Runs --------------------------------------------------------------------------------

  ghost predicate Told(trace: seq<State>, i: nat, t: TaskId) {
    exists j :: 0 <= j < i < |trace| && EndsWell(trace[j], trace[j + 1], t)
  }

  /** A command has been told that all sessions of a task are over exactly if at some point
      the last session of the completed task has ended otherwise than by failing. */
  lemma {:induction false} SessionsDoneExactly(trace: seq<State>, steps: seq<(Event, Choice)>, i: nat, t: TaskId)
    requires Run(trace, steps) && i <= |steps|
    ensures Said(trace[i], t) <==> Told(trace, i, t)
  {
    if i > 0 {
      var st, st' := trace[i - 1], trace[i];
      SessionsDoneExactly(trace, steps, i - 1, t);
      RunHolds(trace, steps, i - 1);
      assert Step(st, steps[i - 1].0, steps[i - 1].1, st');
      StepShape(st, steps[i - 1].0, steps[i - 1].1);
      KnownCommands(st);
      ShapeSays(st, st', t);
      ToldMore(trace, i - 1, t);
    }
  }

  lemma ToldMore(trace: seq<State>, i: nat, t: TaskId)
    requires i + 1 < |trace|
    ensures Told(trace, i + 1, t) <==> Told(trace, i, t) || EndsWell(trace[i], trace[i + 1], t)
  {
  }

  /** In every run, if the last session of a completed task ends, the command is told in the
      same step exactly if that session has not failed. */
  lemma LastSessionTold(trace: seq<State>, steps: seq<(Event, Choice)>, i: nat, t: TaskId) returns (sid: SessionId, r: Result)
    requires Run(trace, steps) && i < |steps| && LastEnds(trace[i], trace[i + 1], t)
    ensures EndsIn(trace[i], trace[i + 1], t, sid, r)
    ensures EndsWell(trace[i], trace[i + 1], t) <==> r != Failure && r != Terminated
    ensures Said(trace[i + 1], t) <==> Said(trace[i], t) || (r != Failure && r != Terminated)
  {
    var st, st' := trace[i], trace[i + 1];
    RunHolds(trace, steps, i);
    assert Step(st, steps[i].0, steps[i].1, st');
    StepShape(st, steps[i].0, steps[i].1);
    KnownCommands(st);
    ShapeSays(st, st', t);
    sid, r :| EndsIn(st, st', t, sid, r);
    forall s, q | EndsIn(st, st', t, s, q)
      ensures s == sid && q == r
    {
      assert s in {sid};
    }
  }

  // --- A command that is never told --------------------------------------------------------

  /** Nothing is under way, and a session that ends leaves it so. */
  lemma EndLeavesQueues(st: State, sid: SessionId, r: Result)
    requires CanEnd(st, sid) && st.unassigned == [] && st.connecting == []
    requires var winner := st.tasks[st.sessions[sid].task].completedBy; r == Success || (winner.Some? && winner != Some(sid))
    ensures var st' := EndSession(st, sid, r, PLAIN);
      st'.unassigned == [] && st'.connecting == [] && st'.live == st.live - {sid}
  {
    var l := st.sessions[sid].link;
    var un, n := Unregister(WithLink(st, sid, l.(m := l.m.(phase := Finished(r))), true), sid), st.sessions[sid].node;
    SearchLeavesQueues(un, n);
  }

  lemma SearchLeavesQueues(st: State, n: NodeId)
    requires n in st.nodes && n in st.running && st.unassigned == [] && st.connecting == []
    ensures FindWork(st, n, []) == st
  {
    NothingToSend(n);
    var slots := FreeSlots(st, n);
    if slots > 0 {
      var st1 := st.(unassigned := st.unassigned[0..], connecting := st.connecting + SendTo(n, st.unassigned[..0]));
      assert st1 == st;
      assert Steal(st1, n, [], slots) == [];
    }
  }

  function Ended(st: State, sid: SessionId, r: Result): State
    requires sid in st.sessions
  {
    var l := st.sessions[sid].link;
    WithLink(st, sid, l.(m := l.m.(phase := Finished(r))), true)
  }

  ghost predicate OneTaskLeft(st: State, task: Task, command: Command) {
    0 in st.tasks && st.tasks[0] == task && 0 in st.commands && st.commands[0] == command
  }

  lemma WinnerEnds(st: State)
    requires CanEnd(st, 1) && st.sessions[1].task == 0 && st.sessions[1].link.m.retcode == 0
    requires OneTaskLeft(st, Task(0, true, Some(1), {1, 2}, {}), Command({0}, map[], 0, {}))
    ensures OneTaskLeft(CompleteSession(st, 1, Success, [], None), Task(0, true, Some(1), {2}, {1}), Command({0}, map[0 := 0], 1, {}))
  {
    CompleteIs(st, 1, Success, [], None);
    assert {1, 2} - {1} == {2} && {} + {1} == {1};
    assert map[][0 := 0].Keys == {0};
  }

  lemma LoserEnds(st: State)
    requires CanEnd(st, 2) && st.sessions[2].task == 0
    requires OneTaskLeft(st, Task(0, true, Some(1), {2}, {1}), Command({0}, map[0 := 0], 1, {}))
    ensures OneTaskLeft(CompleteSession(st, 2, Terminated, [], None), Task(0, true, Some(1), {}, {1, 2}), Command({0}, map[0 := 0], 1, {}))
  {
    CompleteIs(st, 2, Terminated, [], None);
    assert {2} - {2} == {} && {1} + {2} == {1, 2};
  }

  lemma RaceToEnd()
    ensures var race := Racing(WINNER, LOSER, Some(1));
      && Reachable(race) && Enabled(race, Written(1), PLAIN) && CanEnd(race, 1)
      && race.unassigned == [] && race.connecting == [] && race.live == {1, 2}
      && race.sessions[1].task == 0 && race.sessions[1].link.m.retcode == 0 && race.sessions[2] == Session(0, 1, LOSER)
      && OneTaskLeft(race, Task(0, true, Some(1), {1, 2}, {}), Command({0}, map[], 0, {}))
  {
    CloseRaceReached();
    ReachableHolds(Racing(WINNER, LOSER, Some(1)));
    EndReady(Racing(WINNER, LOSER, Some(1)), 1);
  }

  /** The winner's files have been written, the other session is still being cancelled. */
  lemma WinnerWritten() returns (st: State)
    ensures Reachable(st) && st.unassigned == [] && st.connecting == [] && st.live == {2}
    ensures 2 in st.sessions && st.sessions[2] == Session(0, 1, LOSER)
    ensures OneTaskLeft(st, Task(0, true, Some(1), {2}, {1}), Command({0}, map[0 := 0], 1, {}))
  {
    var race := Racing(WINNER, LOSER, Some(1));
    RaceToEnd();
    st := WrittenFrom(race);
  }

  lemma WrittenFrom(race: State) returns (st: State)
    requires Reachable(race) && Enabled(race, Written(1), PLAIN) && CanEnd(race, 1)
    requires race.unassigned == [] && race.connecting == [] && race.live == {1, 2}
    requires 2 in race.sessions && race.sessions[1].task == 0 && race.sessions[1].link.m.retcode == 0
    requires OneTaskLeft(race, Task(0, true, Some(1), {1, 2}, {}), Command({0}, map[], 0, {}))
    ensures Reachable(st) && st.unassigned == [] && st.connecting == [] && st.live == {2}
    ensures 2 in st.sessions && st.sessions[2] == race.sessions[2]
    ensures OneTaskLeft(st, Task(0, true, Some(1), {2}, {1}), Command({0}, map[0 := 0], 1, {}))
  {
    st := EndSession(race, 1, Success, PLAIN);
    Extend(race, Written(1), PLAIN, st);
    EndLeavesQueues(race, 1, Success);
    WinnerEnds(Ended(race, 1, Success));
    CompleteIs(Ended(race, 1, Success), 1, Success, [], None);
  }

  /** The node of the cancelled session is lost before it confirms. Now the task has its
      result, no session and nothing on its way, but its command has never been told. */
  lemma NeverTold() returns (st: State)
    ensures Reachable(st) && st.unassigned == [] && st.connecting == [] && st.live == {}
    ensures OneTaskLeft(st, Task(0, true, Some(1), {}, {1, 2}), Command({0}, map[0 := 0], 1, {})) && !Said(st, 0)
  {
    var before := WinnerWritten();
    ReachableHolds(before);
    EndReady(before, 2);
    st := EndSession(before, 2, Terminated, PLAIN);
    Extend(before, Lose(2), PLAIN, st);
    EndLeavesQueues(before, 2, Terminated);
    LoserEnds(Ended(before, 2, Terminated));
  }
}
