/** The manager: tasks race over sessions on several nodes, queues are drained and work is
    stolen, and a command is finished when all of its tasks have a result. */
module BuildManager {
  import opened SessionProtocol

  type TaskId = nat
  type NodeId = nat
  type SessionId = nat
  type CommandId = nat

  datatype Option<T> = None | Some(value: T)

  datatype Session = Session(task: TaskId, node: NodeId, link: Link)

  datatype Task = Task(
    command: CommandId, scheduled: bool, completedBy: Option<SessionId>, running: set<SessionId>,
    finished: set<SessionId>)

  /** A node's slots and its counters of sessions. */
  datatype Node = Node(
    slots: nat, sent: nat, completed: nat, failed: nat, cancelled: nat, tooLate: nat, terminated: nat)

  /** `sessionsDone` are the tasks of which all sessions are said to be over. */
  datatype Command = Command(tasks: set<TaskId>, completed: map<TaskId, int>, postprocessed: nat, sessionsDone: set<TaskId>)

  /** `live` are the registered sessions; `sessions` also keeps those that are over. `ok`
      turns false when an assertion of the code fails. */
  datatype State = State(
    sessions: map<SessionId, Session>,
    live: set<SessionId>,
    tasks: map<TaskId, Task>,
    commands: map<CommandId, Command>,
    unassigned: seq<TaskId>,
    connecting: seq<(TaskId, NodeId)>,
    running: map<NodeId, seq<TaskId>>,
    nodes: map<NodeId, Node>,
    counter: SessionId,
    ok: bool)

  // --- Nodes -----------------------------------------------------------------------

  function TasksPending(n: Node): int {
    n.sent - n.completed - n.failed - n.tooLate - n.cancelled - n.terminated
  }

  function ProcessResult(n: Node, r: Result): Node {
    match r
    case Success => n.(completed := n.completed + 1)
    case Failure => n.(failed := n.failed + 1)
    case Cancelled => n.(cancelled := n.cancelled + 1)
    case TooLate => n.(tooLate := n.tooLate + 1)
    case Terminated => n.(terminated := n.terminated + 1)
  }

  /** One more task than there are job slots is sent to a node. */
  function FreeSlots(st: State, n: NodeId): int
    requires n in st.nodes && n in st.running
  {
    st.nodes[n].slots + 1 - |st.running[n]|
  }

  predicate CanSteal(st: State, n: NodeId)
    requires n in st.nodes && n in st.running
  {
    |st.running[n]| < st.nodes[n].slots
  }

  // --- Queues ----------------------------------------------------------------------

  function RemoveFirst(q: seq<TaskId>, t: TaskId): seq<TaskId> {
    if q == [] then [] else if q[0] == t then q[1..] else [q[0]] + RemoveFirst(q[1..], t)
  }

  function SendTo(n: NodeId, ts: seq<TaskId>): (r: seq<(TaskId, NodeId)>)
    ensures |r| == |ts| && forall i :: 0 <= i < |ts| ==> r[i] == (ts[i], n)
  {
    seq(|ts|, i requires 0 <= i < |ts| => (ts[i], n))
  }

  /** `pick` is the node chosen as the best free one, if there is any. */
  function ScheduleTask(st: State, t: TaskId, highPriority: bool, pick: Option<NodeId>): State {
    if st.unassigned != [] || pick == None then
      st.(unassigned := if highPriority then [t] + st.unassigned else st.unassigned + [t])
    else
      st.(connecting := st.connecting + [(t, pick.value)])
  }

  /** The tasks among `viable` that are stolen while slots remain. */
  function Steal(st: State, n: NodeId, viable: seq<TaskId>, slots: int): seq<TaskId>
    requires n in st.running
    decreases |viable|
  {
    if viable == [] || slots <= 0 then
      []
    else if viable[0] in st.tasks && st.tasks[viable[0]].completedBy == None && viable[0] !in st.running[n] then
      [viable[0]] + Steal(st, n, viable[1..], slots - 1)
    else
      Steal(st, n, viable[1..], slots)
  }

  /** Queued tasks first; if none are left and the node is short of work, tasks that run
      elsewhere. `viable` are the candidates in the order they are tried. */
  function FindWork(st: State, n: NodeId, viable: seq<TaskId>): (st': State)
    requires n in st.nodes && n in st.running
    ensures st' == st.(unassigned := st'.unassigned, connecting := st'.connecting)
  {
    var slots := FreeSlots(st, n);
    if slots <= 0 then
      st
    else
      var take := if slots <= |st.unassigned| then slots else |st.unassigned|;
      var st1 := st.(unassigned := st.unassigned[take..],
                     connecting := st.connecting + SendTo(n, st.unassigned[..take]));
      if slots == take || !CanSteal(st1, n) then
        st1
      else
        st1.(connecting := st1.connecting + SendTo(n, Steal(st1, n, viable, slots - take)))
  }

  // --- Tasks and commands ----------------------------------------------------------

  /** A result for the task reaches its command; the last one triggers postprocessing. */
  function TaskCompleted(c: Command, t: TaskId, retcode: int): Command {
    var completed := c.completed[t := retcode];
    c.(completed := completed, postprocessed := if completed.Keys == c.tasks then c.postprocessed + 1 else c.postprocessed)
  }

  predicate MayComplete(c: Command, t: TaskId) {
    t in c.tasks && t !in c.completed
  }

  function WithManager(s: Session, r: Reaction<Manager, Down>): Session {
    s.(link := s.link.(m := r.next, down := s.link.down + r.sent))
  }

  /** The first session to register wins the task and every other one is cancelled. */
  function RegisterCompletion(st: State, sid: SessionId): State
    requires sid in st.sessions && st.sessions[sid].task in st.tasks
    requires st.tasks[st.sessions[sid].task].running <= st.sessions.Keys
  {
    var t := st.sessions[sid].task;
    var others := st.tasks[t].running - {sid};
    st.(
      sessions := map s | s in st.sessions ::
        if s in others then WithManager(st.sessions[s], ManagerCancel(st.sessions[s].link.m)) else st.sessions[s],
      tasks := st.tasks[t := st.tasks[t].(completedBy := Some(sid))])
  }

  predicate MustReschedule(t: Task, r: Result) {
    (r == Failure || r == Terminated) && t.completedBy == None && t.running == {}
  }

  /** The task hears that a session of it is over. */
  function SessionCompleted(t: Task, sid: SessionId, r: Result): Task {
    var t' := t.(running := t.running - {sid}, finished := t.finished + {sid});
    if (r == Failure || r == Terminated) && t.completedBy == Some(sid) then t'.(completedBy := None) else t'
  }

  /** A failed session returns early, whether or not it was the last one. */
  predicate SaysSessionsDone(t: Task, r: Result) {
    r != Failure && r != Terminated && t.running == {} && t.completedBy.Some?
  }

  function AllSessionsDone(c: Command, t: TaskId): Command {
    c.(sessionsDone := c.sessionsDone + {t})
  }

  /** The command hears that the last session of a task is over, and what the result is;
      `task` is what the end of the session has made of the task. */
  function Heard(c: Command, t: TaskId, task: Task, r: Result, retcode: int): Command {
    var c' := if SaysSessionsDone(task, r) then AllSessionsDone(c, t) else c;
    if r == Success then TaskCompleted(c', t, retcode) else c'
  }

  /** The session leaves the manager's dictionaries. */
  function Unregister(st: State, sid: SessionId): State
    requires sid in st.sessions && st.sessions[sid].node in st.running
  {
    var t, n := st.sessions[sid].task, st.sessions[sid].node;
    st.(live := st.live - {sid}, running := st.running[n := RemoveFirst(st.running[n], t)],
        ok := st.ok && sid in st.live && t in st.running[n])
  }

  /** The session reports its result to its task, its node and the task's command. */
  function Report(st: State, sid: SessionId, r: Result): State
    requires sid in st.sessions && st.sessions[sid].task in st.tasks && st.sessions[sid].node in st.nodes
    requires st.tasks[st.sessions[sid].task].command in st.commands
  {
    var t, n := st.sessions[sid].task, st.sessions[sid].node;
    var task, k := SessionCompleted(st.tasks[t], sid, r), st.tasks[t].command;
    st.(
      tasks := st.tasks[t := task],
      nodes := st.nodes[n := ProcessResult(st.nodes[n], r)],
      commands := st.commands[k := Heard(st.commands[k], t, task, r, st.sessions[sid].link.m.retcode)],
      ok := st.ok && sid in st.tasks[t].running
        && (r == Success ==> MayComplete(st.commands[k], t) && task.completedBy == Some(sid)))
  }

  /** A session has reached its end with `r`: it is unregistered, its node looks for other
      work, and it reports; a failed task without another session is scheduled again. */
  function CompleteSession(st: State, sid: SessionId, r: Result, viable: seq<TaskId>, pick: Option<NodeId>): State
    requires sid in st.sessions && st.sessions[sid].task in st.tasks
    requires st.sessions[sid].node in st.nodes && st.sessions[sid].node in st.running
    requires st.tasks[st.sessions[sid].task].command in st.commands
  {
    var t := st.sessions[sid].task;
    var st' := Report(FindWork(Unregister(st, sid), st.sessions[sid].node, viable), sid, r);
    if MustReschedule(st'.tasks[t], r) then ScheduleTask(st', t, true, pick) else st'
  }

  // --- Events ----------------------------------------------------------------------

  function WithLink(st: State, sid: SessionId, l: Link, ok: bool): State
    requires sid in st.sessions
  {
    st.(sessions := st.sessions[sid := st.sessions[sid].(link := l)], ok := st.ok && ok)
  }

  /** A command arrives with its tasks, none of them preprocessed yet. */
  function WithCommand(st: State, k: CommandId, ts: set<TaskId>): State {
    st.(commands := st.commands[k := Command(ts, map[], 0, {})],
        tasks := map t | t in st.tasks.Keys + ts :: if t in ts then Task(k, false, None, {}, {}) else st.tasks[t])
  }

  /** A task comes back from the preprocessor. */
  function Marked(st: State, t: TaskId): State
    requires t in st.tasks
  {
    st.(tasks := st.tasks[t := st.tasks[t].(scheduled := true)])
  }

  /** A node announces itself. */
  function Joined(st: State, n: NodeId, slots: nat): State {
    st.(nodes := st.nodes[n := Node(slots, 0, 0, 0, 0, 0, 0)], running := st.running[n := []])
  }

  /** A session is opened for the i-th connection that has come up. */
  function CreateSession(st: State, i: nat): State
    requires i < |st.connecting|
    requires st.connecting[i].0 in st.tasks && st.connecting[i].1 in st.nodes && st.connecting[i].1 in st.running
  {
    var (t, n) := st.connecting[i];
    var sid := st.counter + 1;
    st.(
      sessions := st.sessions[sid := Session(t, n, LINK_START)],
      live := st.live + {sid},
      tasks := st.tasks[t := st.tasks[t].(running := st.tasks[t].running + {sid})],
      nodes := st.nodes[n := st.nodes[n].(sent := st.nodes[n].sent + 1)],
      running := st.running[n := st.running[n] + [t]],
      connecting := st.connecting[..i] + st.connecting[i + 1..],
      counter := sid)
  }

  /** The inputs the code takes from outside: repositories, compilers, piece counts, the
      candidates for stealing and the best node. */
  datatype Choice = Choice(
    needs: (bool, bool), outcome: Outcome, parts: nat, compilerParts: nat, pchParts: nat, viable: seq<TaskId>,
    pick: Option<NodeId>)

  predicate CanReceive(st: State, sid: SessionId) {
    && sid in st.sessions && st.sessions[sid].link.up != []
    && st.sessions[sid].task in st.tasks && st.tasks[st.sessions[sid].task].running <= st.sessions.Keys
    && st.sessions[sid].node in st.nodes && st.sessions[sid].node in st.running
    && st.tasks[st.sessions[sid].task].command in st.commands
  }

  /** The next message from the server reaches the manager. Messages for a session that
      is no longer registered are dropped. */
  function ManagerGets(st: State, sid: SessionId, c: Choice): State
    requires CanReceive(st, sid)
  {
    var s := st.sessions[sid];
    var msg := s.link.up[0];
    if sid !in st.live then
      WithLink(st, sid, s.link.(up := s.link.up[1..]), true)
    else
      var wins := s.link.m.phase == WaitResponse && msg.Done? && st.tasks[s.task].completedBy == None;
      var st1 := if wins then RegisterCompletion(st, sid) else st;
      var r := ManagerReceive(s.link.m, msg, wins, c.compilerParts, c.pchParts);
      var st2 := WithLink(st1, sid, AfterManager(s.link, s.link.up[1..], r), r.ok);
      if r.next.phase.Finished? then CompleteSession(st2, sid, r.next.phase.result, c.viable, c.pick) else st2
  }

  predicate CanEnd(st: State, sid: SessionId) {
    && sid in st.sessions && st.sessions[sid].task in st.tasks
    && st.sessions[sid].node in st.nodes && st.sessions[sid].node in st.running
    && st.tasks[st.sessions[sid].task].command in st.commands
  }

  /** A session ends without a message: its files are written, or its node is gone. */
  function EndSession(st: State, sid: SessionId, r: Result, c: Choice): State
    requires CanEnd(st, sid)
  {
    var l := st.sessions[sid].link;
    CompleteSession(WithLink(st, sid, l.(m := l.m.(phase := Finished(r))), true), sid, r, c.viable, c.pick)
  }
}
