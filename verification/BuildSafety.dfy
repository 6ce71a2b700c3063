/** Safety of the task race and of the manager's books, over every run. */
module BuildSafety {
  import opened SessionProtocol
  import opened BuildManager

  // --- Steps -----------------------------------------------------------------------

  /** A session that has registered the task's completion. */
  predicate Winning(p: ManagerPhase) {
    p == Receiving || p == Writing || p == Finished(Success)
  }

  datatype Event =
    | NewCommand(command: CommandId, tasks: set<TaskId>)
    | Schedule(task: TaskId)
    | Connected(index: nat)
    | ToServer(sid: SessionId)
    | Callback(sid: SessionId)
    | ToManager(sid: SessionId)
    | Upload(sid: SessionId)
    | Written(sid: SessionId)
    | Lose(sid: SessionId)
    | Join(node: NodeId, slots: nat)

  ghost predicate Enabled(st: State, e: Event, c: Choice) {
    && (c.pick.Some? ==> c.pick.value in st.nodes)
    && (forall i :: 0 <= i < |c.viable| ==> IsScheduled(st, c.viable[i]))
    && match e
       case NewCommand(k, ts) => k !in st.commands && ts != {} && forall t :: t in ts ==> t !in st.tasks
       case Schedule(t) => t in st.tasks && !st.tasks[t].scheduled
       case Connected(i) => i < |st.connecting|
       case ToServer(sid) => sid in st.sessions && st.sessions[sid].link.down != []
       case Callback(sid) => sid in st.sessions
       case ToManager(sid) => sid in st.sessions && st.sessions[sid].link.up != []
       case Upload(sid) => sid in st.sessions && st.sessions[sid].link.m.uploading > 0
       case Written(sid) => sid in st.live && sid in st.sessions && st.sessions[sid].link.m.phase == Writing
       // A node may be lost under a session only before that session has won its task.
       case Lose(sid) => sid in st.live && sid in st.sessions && Undecided(st.sessions[sid].link.m)
       case Join(n, _) => n !in st.nodes
  }

  ghost function Apply(st: State, e: Event, c: Choice): State
    requires Books(st, None) && Enabled(st, e, c)
  {
    match e
    case NewCommand(k, ts) => WithCommand(st, k, ts)
    case Schedule(t) => ScheduleTask(Marked(st, t), t, false, c.pick)
    case Connected(i) => CreateSession(st, i)
    case ToServer(sid) =>
      var l := st.sessions[sid].link;
      var r := DeliverDown(l, c.needs);
      WithLink(st, sid, AfterServer(l, l.down[1..], r), r.ok)
    case Callback(sid) =>
      var l := st.sessions[sid].link;
      var r := ServerCallback(l.s, c.outcome, c.parts);
      WithLink(st, sid, AfterServer(l, l.down, r), r.ok)
    case ToManager(sid) => ManagerGets(st, sid, c)
    case Upload(sid) => WithLink(st, sid, UploadPiece(st.sessions[sid].link), true)
    case Written(sid) => EndSession(st, sid, Success, c)
    case Lose(sid) => EndSession(st, sid, Terminated, c)
    case Join(n, slots) => FindWork(Joined(st, n, slots), n, c.viable)
  }

  // --- The invariant ---------------------------------------------------------------

  /** Names refer to things that exist. `ending` is a session that has just reached its end
      and is about to be unregistered. */
  ghost predicate Books(st: State, ending: Option<SessionId>) {
    && st.live <= st.sessions.Keys
    && st.running.Keys == st.nodes.Keys
    && (forall sid :: sid in st.sessions ==> SessionKnown(st, sid, ending))
    && (forall t :: t in st.tasks ==> TaskKnown(st, t))
    && Queues(st)
  }

  ghost predicate Queues(st: State) {
    && (forall i :: 0 <= i < |st.unassigned| ==> IsScheduled(st, st.unassigned[i]))
    && (forall i :: 0 <= i < |st.connecting| ==>
          IsScheduled(st, st.connecting[i].0) && st.connecting[i].1 in st.nodes)
  }

  ghost predicate IsScheduled(st: State, t: TaskId) {
    t in st.tasks && st.tasks[t].scheduled
  }

  ghost predicate SessionKnown(st: State, sid: SessionId, ending: Option<SessionId>)
    requires sid in st.sessions
  {
    var s := st.sessions[sid];
    && sid <= st.counter && IsScheduled(st, s.task) && s.node in st.nodes
    && (sid in st.live <==> Active(s.link.m) || ending == Some(sid))
  }

  ghost predicate Links(st: State) {
    forall sid :: sid in st.sessions ==> LinkInv(st.sessions[sid].link)
  }

  /** The sessions running for a task are its live sessions. */
  ghost predicate TaskKnown(st: State, t: TaskId)
    requires t in st.tasks
  {
    && st.tasks[t].command in st.commands && t in st.commands[st.tasks[t].command].tasks
    && (forall sid :: sid in st.tasks[t].running <==> sid in st.live && sid in st.sessions && st.sessions[sid].task == t)
  }

  /** Only the session the task has registered goes on to receive its result, and only
      other sessions are cancelled. */
  ghost predicate Race(st: State) {
    && (forall sid :: sid in st.sessions ==> RaceOk(st, sid))
    && (forall t :: t in st.tasks && st.tasks[t].completedBy.Some? ==> WinnerOk(st, t))
  }

  ghost predicate RaceOk(st: State, sid: SessionId)
    requires sid in st.sessions
  {
    var s := st.sessions[sid];
    && s.task in st.tasks
    && (Winning(s.link.m.phase) <==> st.tasks[s.task].completedBy == Some(sid))
    && (s.link.m.cancelled ==> st.tasks[s.task].completedBy.Some? && st.tasks[s.task].completedBy != Some(sid))
    && (s.link.m.phase == Finished(TooLate) || s.link.m.phase == Finished(Cancelled) ==> st.tasks[s.task].completedBy.Some?)
  }

  ghost predicate WinnerOk(st: State, t: TaskId)
    requires t in st.tasks && st.tasks[t].completedBy.Some?
  {
    var w := st.tasks[t].completedBy.value;
    w in st.sessions && st.sessions[w].task == t && Winning(st.sessions[w].link.m.phase)
  }

  /** Every scheduled task without a registered completion is queued, on its way to a node
      or held by a live session. `lost` are tasks excepted between the parts of a step. */
  ghost predicate NoTaskLost(st: State, lost: set<TaskId>) {
    forall t :: t in st.tasks && st.tasks[t].scheduled && st.tasks[t].completedBy == None && t !in lost ==> Held(st, t)
  }

  ghost predicate Held(st: State, t: TaskId)
    requires t in st.tasks
  {
    t in st.unassigned || OnItsWay(st.connecting, t) || st.tasks[t].running != {}
  }

  ghost predicate OnItsWay(q: seq<(TaskId, NodeId)>, t: TaskId) {
    exists i :: 0 <= i < |q| && q[i].0 == t
  }

  /** The live sessions of a task on a node. */
  ghost function LiveOn(st: State, n: NodeId, t: TaskId): set<SessionId> {
    set sid | sid in st.live && sid in st.sessions && st.sessions[sid].node == n && st.sessions[sid].task == t
  }

  /** A node's list of running tasks is the multiset of the tasks of its live sessions, and
      its counters say how many there are. */
  ghost predicate NodeBooks(st: State) {
    forall n :: n in st.nodes && n in st.running ==> NodeOk(st, n)
  }

  ghost predicate NodeOk(st: State, n: NodeId)
    requires n in st.nodes && n in st.running
  {
    && TasksPending(st.nodes[n]) == |st.running[n]|
    && (forall t :: multiset(st.running[n])[t] == |LiveOn(st, n, t)|)
  }

  /** A command holds exactly the results of its tasks whose session has succeeded, and is
      postprocessed once, when the last of them is in. */
  ghost predicate CommandBooks(st: State, ending: Option<SessionId>) {
    && (forall k :: k in st.commands ==> CommandOk(st.commands[k]))
    && (forall k, t :: k in st.commands && t in st.commands[k].tasks ==> t in st.tasks && st.tasks[t].command == k)
    && (forall t :: t in st.tasks && st.tasks[t].command in st.commands ==>
          (t in st.commands[st.tasks[t].command].completed <==>
            (Succeeded(st, t) && st.tasks[t].completedBy != ending)))
  }

  ghost predicate CommandOk(c: Command) {
    c.completed.Keys <= c.tasks && c.tasks != {} && c.postprocessed == if c.completed.Keys == c.tasks then 1 else 0
  }

  ghost predicate Succeeded(st: State, t: TaskId)
    requires t in st.tasks
  {
    && st.tasks[t].completedBy.Some? && st.tasks[t].completedBy.value in st.sessions
    && st.sessions[st.tasks[t].completedBy.value].link.m.phase == Finished(Success)
  }

  /** The invariant, up to a session that is about to be unregistered and to tasks that
      are about to be queued. */
  ghost predicate InvBut(st: State, ending: Option<SessionId>, lost: set<TaskId>) {
    && st.ok && Links(st) && Books(st, ending) && Race(st) && NoTaskLost(st, lost) && NodeBooks(st)
    && CommandBooks(st, ending)
  }

  ghost predicate Inv(st: State) {
    InvBut(st, None, {})
  }

  ghost predicate Init(st: State) {
    st == State(map[], {}, map[], map[], [], [], map[], map[], 0, true)
  }

  lemma InitHolds(st: State)
    requires Init(st)
    ensures Inv(st)
  {
  }

  // --- Queues ----------------------------------------------------------------------

  /** `st'` differs from `st` only in its queues, and nothing that waited is forgotten. */
  ghost predicate Requeued(st: State, st': State) {
    && st' == st.(unassigned := st'.unassigned, connecting := st'.connecting)
    && Queues(st')
    && forall t :: t in st.unassigned || OnItsWay(st.connecting, t) ==> t in st'.unassigned || OnItsWay(st'.connecting, t)
  }

  lemma OnItsWayConcat(a: seq<(TaskId, NodeId)>, b: seq<(TaskId, NodeId)>)
    ensures forall t :: OnItsWay(a + b, t) <==> OnItsWay(a, t) || OnItsWay(b, t)
  {
    forall t
      ensures OnItsWay(a + b, t) <==> OnItsWay(a, t) || OnItsWay(b, t)
    {
      if OnItsWay(a, t) {
        var i :| 0 <= i < |a| && a[i].0 == t;
        assert (a + b)[i].0 == t;
      }
      if OnItsWay(b, t) {
        var i :| 0 <= i < |b| && b[i].0 == t;
        assert (a + b)[|a| + i].0 == t;
      }
    }
  }

  lemma SendToWay(n: NodeId, ts: seq<TaskId>)
    ensures forall t :: t in ts ==> OnItsWay(SendTo(n, ts), t)
  {
    forall t | t in ts
      ensures OnItsWay(SendTo(n, ts), t)
    {
      var i :| 0 <= i < |ts| && ts[i] == t;
      assert SendTo(n, ts)[i].0 == t;
    }
  }

  lemma {:induction false} StealKnown(st: State, n: NodeId, viable: seq<TaskId>, slots: int)
    requires n in st.running && forall i :: 0 <= i < |viable| ==> IsScheduled(st, viable[i])
    ensures forall i :: 0 <= i < |Steal(st, n, viable, slots)| ==> IsScheduled(st, Steal(st, n, viable, slots)[i])
    decreases |viable|
  {
    if viable != [] && slots > 0 {
      assert IsScheduled(st, viable[0]);
      StealKnown(st, n, viable[1..], slots - 1);
      StealKnown(st, n, viable[1..], slots);
    }
  }

  lemma DispatchRequeues(st: State, n: NodeId, take: nat)
    requires n in st.nodes && Queues(st) && take <= |st.unassigned|
    ensures Requeued(st, st.(unassigned := st.unassigned[take..], connecting := st.connecting + SendTo(n, st.unassigned[..take])))
  {
    var sent := SendTo(n, st.unassigned[..take]);
    OnItsWayConcat(st.connecting, sent);
    SendToWay(n, st.unassigned[..take]);
    assert st.unassigned == st.unassigned[..take] + st.unassigned[take..];
  }

  lemma StealRequeues(st: State, n: NodeId, ts: seq<TaskId>)
    requires n in st.nodes && Queues(st) && forall i :: 0 <= i < |ts| ==> IsScheduled(st, ts[i])
    ensures Requeued(st, st.(connecting := st.connecting + SendTo(n, ts)))
  {
    OnItsWayConcat(st.connecting, SendTo(n, ts));
  }

  lemma FindWorkRequeues(st: State, n: NodeId, viable: seq<TaskId>)
    requires n in st.nodes && n in st.running && Queues(st)
    requires forall i :: 0 <= i < |viable| ==> IsScheduled(st, viable[i])
    ensures Requeued(st, FindWork(st, n, viable))
  {
    var slots := FreeSlots(st, n);
    if slots > 0 {
      var take := if slots <= |st.unassigned| then slots else |st.unassigned|;
      var st1 := st.(unassigned := st.unassigned[take..],
                     connecting := st.connecting + SendTo(n, st.unassigned[..take]));
      DispatchRequeues(st, n, take);
      if slots != take && CanSteal(st1, n) {
        StealKnown(st1, n, viable, slots - take);
        StealRequeues(st1, n, Steal(st1, n, viable, slots - take));
      }
    }
  }

  lemma ScheduleRequeues(st: State, t: TaskId, high: bool, pick: Option<NodeId>)
    requires Queues(st) && IsScheduled(st, t) && (pick.Some? ==> pick.value in st.nodes)
    ensures var st' := ScheduleTask(st, t, high, pick);
      Requeued(st, st') && (t in st'.unassigned || OnItsWay(st'.connecting, t))
  {
    if pick.Some? {
      OnItsWayConcat(st.connecting, [(t, pick.value)]);
      assert [(t, pick.value)][0].0 == t;
    }
  }

  // --- A step of one link ----------------------------------------------------------

  /** The manager's end of a session has changed in no way the books depend on. */
  ghost predicate SameStanding(m: Manager, m': Manager) {
    && m'.cancelled == m.cancelled && Winning(m'.phase) == Winning(m.phase) && Active(m') == Active(m)
    && (m.phase.Finished? ==> m'.phase == m.phase)
  }

  ghost predicate LinkStep(st: State, sid: SessionId, l: Link) {
    sid in st.sessions && LinkInv(l) && SameStanding(st.sessions[sid].link.m, l.m)
  }

  lemma LinkStepHolds(st: State, sid: SessionId, l: Link)
    requires Inv(st) && LinkStep(st, sid, l)
    ensures Inv(WithLink(st, sid, l, true))
  {
    LinkStepBooks(st, sid, l);
    LinkStepRace(st, sid, l);
    LinkStepNodes(st, sid, l);
    LinkStepCommands(st, sid, l);
    LinkStepHeld(st, sid, l);
  }

  lemma LinkStepBooks(st: State, sid: SessionId, l: Link)
    requires Books(st, None) && LinkStep(st, sid, l)
    ensures Books(WithLink(st, sid, l, true), None)
  {
    var st' := WithLink(st, sid, l, true);
    assert forall s :: s in st.sessions ==> SessionKnown(st, s, None);
    assert forall t :: t in st.tasks ==> TaskKnown(st, t);
    assert forall t :: IsScheduled(st', t) == IsScheduled(st, t);
  }

  lemma LinkStepRace(st: State, sid: SessionId, l: Link)
    requires Race(st) && LinkStep(st, sid, l)
    ensures Race(WithLink(st, sid, l, true))
  {
    var st' := WithLink(st, sid, l, true);
    assert RaceOk(st, sid);
    forall t | t in st'.tasks && st'.tasks[t].completedBy.Some?
      ensures WinnerOk(st', t)
    {
      assert WinnerOk(st, t);
    }
  }

  lemma LinkStepNodes(st: State, sid: SessionId, l: Link)
    requires NodeBooks(st) && sid in st.sessions
    ensures NodeBooks(WithLink(st, sid, l, true))
  {
    var st' := WithLink(st, sid, l, true);
    forall n | n in st'.nodes && n in st'.running
      ensures NodeOk(st', n)
    {
      assert NodeOk(st, n);
      assert forall t :: LiveOn(st', n, t) == LiveOn(st, n, t);
    }
  }

  lemma LinkStepCommands(st: State, sid: SessionId, l: Link)
    requires CommandBooks(st, None) && Race(st) && LinkStep(st, sid, l)
    ensures CommandBooks(WithLink(st, sid, l, true), None)
  {
    var st' := WithLink(st, sid, l, true);
    assert forall t :: t in st.tasks ==> Succeeded(st', t) == Succeeded(st, t);
  }

  lemma LinkStepHeld(st: State, sid: SessionId, l: Link)
    requires NoTaskLost(st, {}) && sid in st.sessions
    ensures NoTaskLost(WithLink(st, sid, l, true), {})
  {
    var st' := WithLink(st, sid, l, true);
    assert forall t :: t in st.tasks ==> Held(st', t) == Held(st, t);
  }

  // --- A session is opened ---------------------------------------------------------

  ghost predicate CanCreate(st: State, i: nat) {
    Books(st, None) && i < |st.connecting|
  }

  lemma CreateHolds(st: State, i: nat)
    requires Inv(st) && i < |st.connecting|
    ensures Inv(CreateSession(st, i))
  {
    StartHolds();
    CreateBooks(st, i);
    CreateRace(st, i);
    CreateNodes(st, i);
    CreateCommands(st, i);
    CreateHeld(st, i);
  }

  lemma CreateFresh(st: State)
    requires Books(st, None)
    ensures st.counter + 1 !in st.sessions && st.counter + 1 !in st.live
  {
    forall s | s in st.sessions
      ensures s <= st.counter
    {
      assert SessionKnown(st, s, None);
    }
  }

  lemma CreateBooks(st: State, i: nat)
    requires CanCreate(st, i)
    ensures Books(CreateSession(st, i), None)
  {
    var st' := CreateSession(st, i);
    CreateFresh(st);
    forall s | s in st'.sessions
      ensures SessionKnown(st', s, None)
    {
      assert s in st.sessions ==> SessionKnown(st, s, None);
    }
    forall t | t in st'.tasks
      ensures TaskKnown(st', t)
    {
      assert TaskKnown(st, t);
    }
    forall k | 0 <= k < |st'.connecting|
      ensures IsScheduled(st', st'.connecting[k].0) && st'.connecting[k].1 in st'.nodes
    {
      assert st'.connecting[k] == st.connecting[if k < i then k else k + 1];
    }
  }

  lemma CreateRace(st: State, i: nat)
    requires CanCreate(st, i) && Race(st)
    ensures Race(CreateSession(st, i))
  {
    var st' := CreateSession(st, i);
    CreateFresh(st);
    forall t | t in st'.tasks && st'.tasks[t].completedBy.Some?
      ensures WinnerOk(st', t)
    {
      assert WinnerOk(st, t);
    }
    forall s | s in st'.sessions
      ensures RaceOk(st', s)
    {
      assert s in st.sessions ==> RaceOk(st, s);
      var t := st'.sessions[s].task;
      assert st.tasks[t].completedBy.Some? ==> WinnerOk(st, t);
    }
  }

  lemma CreateNodes(st: State, i: nat)
    requires CanCreate(st, i) && NodeBooks(st)
    ensures NodeBooks(CreateSession(st, i))
  {
    var st' := CreateSession(st, i);
    var (t0, n0) := st.connecting[i];
    CreateFresh(st);
    forall n | n in st'.nodes && n in st'.running
      ensures NodeOk(st', n)
    {
      assert NodeOk(st, n);
      forall t
        ensures multiset(st'.running[n])[t] == |LiveOn(st', n, t)|
      {
        LiveAdded(st, st', st.counter + 1, Session(t0, n0, LINK_START), n, t);
      }
    }
  }

  lemma LiveAdded(st: State, st': State, sid: SessionId, s: Session, n: NodeId, t: TaskId)
    requires sid !in st.live && st'.live == st.live + {sid} && st'.sessions == st.sessions[sid := s]
    ensures |LiveOn(st', n, t)| == |LiveOn(st, n, t)| + if s.node == n && s.task == t then 1 else 0
  {
    var more := if s.node == n && s.task == t then {sid} else {};
    assert LiveOn(st', n, t) == LiveOn(st, n, t) + more;
  }

  lemma CreateCommands(st: State, i: nat)
    requires CanCreate(st, i) && CommandBooks(st, None) && Race(st)
    ensures CommandBooks(CreateSession(st, i), None)
  {
    var st' := CreateSession(st, i);
    CreateFresh(st);
    forall t | t in st.tasks
      ensures Succeeded(st', t) == Succeeded(st, t)
    {
      assert st.tasks[t].completedBy.Some? ==> WinnerOk(st, t);
    }
  }

  lemma CreateHeld(st: State, i: nat)
    requires CanCreate(st, i) && NoTaskLost(st, {})
    ensures NoTaskLost(CreateSession(st, i), {})
  {
    var st' := CreateSession(st, i);
    var t0 := st.connecting[i].0;
    assert st.counter + 1 in st'.tasks[t0].running;
    forall t | t in st'.tasks && t != t0 && Held(st, t)
      ensures Held(st', t)
    {
      if OnItsWay(st.connecting, t) {
        var k :| 0 <= k < |st.connecting| && st.connecting[k].0 == t;
        assert st'.connecting[if k < i then k else k - 1].0 == t;
      }
    }
  }

  // --- Changes to the queues only --------------------------------------------------

  lemma RequeuedHolds(st: State, st': State, lost: set<TaskId>)
    requires InvBut(st, None, lost) && Requeued(st, st')
    ensures InvBut(st', None, lost)
  {
    RequeuedBooks(st, st');
    RequeuedRest(st, st');
    RequeuedHeld(st, st', lost);
  }

  lemma RequeuedBooks(st: State, st': State)
    requires Books(st, None) && Requeued(st, st')
    ensures Books(st', None)
  {
    assert forall s :: s in st.sessions ==> SessionKnown(st, s, None);
    assert forall t :: t in st.tasks ==> TaskKnown(st, t);
  }

  lemma RequeuedHeld(st: State, st': State, lost: set<TaskId>)
    requires NoTaskLost(st, lost) && Requeued(st, st')
    ensures NoTaskLost(st', lost)
  {
    assert forall t :: t in st.tasks && Held(st, t) ==> Held(st', t);
  }

  lemma RequeuedRest(st: State, st': State)
    requires Race(st) && NodeBooks(st) && CommandBooks(st, None) && Requeued(st, st')
    ensures Race(st') && NodeBooks(st') && CommandBooks(st', None)
  {
    assert forall t :: t in st.tasks && st.tasks[t].completedBy.Some? ==> WinnerOk(st, t) == WinnerOk(st', t);
    assert forall s :: s in st.sessions ==> RaceOk(st, s) == RaceOk(st', s);
    forall n | n in st'.nodes && n in st'.running
      ensures NodeOk(st', n)
    {
      assert NodeOk(st, n);
      assert forall t :: LiveOn(st', n, t) == LiveOn(st, n, t);
    }
    assert forall t :: t in st.tasks ==> Succeeded(st', t) == Succeeded(st, t);
  }
}
