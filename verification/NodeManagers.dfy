/** The node manager as an object: queues and dictionaries updated in place, loops as the
    manager runs them, every method equal to a step of the model of the manager. */
module NodeManagers {
  import opened SessionProtocol
  import opened BuildManager

  class NodeManager {
    var sessions: map<SessionId, Session>
    var live: set<SessionId>
    var tasks: map<TaskId, Task>
    var commands: map<CommandId, Command>
    var unassigned: seq<TaskId>
    var connecting: seq<(TaskId, NodeId)>
    var running: map<NodeId, seq<TaskId>>
    var nodes: map<NodeId, Node>
    var counter: SessionId
    ghost var ok: bool

    ghost function View(): State
      reads this
    {
      State(sessions, live, tasks, commands, unassigned, connecting, running, nodes, counter, ok)
    }

    constructor ()
      ensures View() == State(map[], {}, map[], map[], [], [], map[], map[], 0, true)
    {
      sessions, live, tasks, commands := map[], {}, map[], map[];
      unassigned, connecting, running, nodes, counter := [], [], map[], map[], 0;
      ok := true;
    }

    method ScheduleTaskToSpecificNode(task: TaskId, node: NodeId)
      modifies this`connecting
      ensures connecting == old(connecting) + [(task, node)]
    {
      connecting := connecting + [(task, node)];
    }

    /** `best` is the best node with a free slot, if there is one. */
    method ScheduleTask(task: TaskId, highPriority: bool, best: Option<NodeId>)
      modifies this
      ensures View() == BuildManager.ScheduleTask(old(View()), task, highPriority, best)
    {
      var addToQueue := unassigned != [] || best == None;
      if addToQueue {
        if highPriority {
          unassigned := [task] + unassigned;
        } else {
          unassigned := unassigned + [task];
        }
      } else {
        ScheduleTaskToSpecificNode(task, best.value);
      }
    }

    /** Queued tasks go to the node until its slots or the queue run out. */
    method TakeUnassigned(node: NodeId, slots: nat) returns (left: nat)
      modifies this`unassigned, this`connecting
      ensures var take := if slots <= |old(unassigned)| then slots else |old(unassigned)|;
        && left == slots - take && unassigned == old(unassigned)[take..]
        && connecting == old(connecting) + SendTo(node, old(unassigned)[..take])
    {
      left := slots;
      while left > 0 && unassigned != []
        invariant left <= slots && slots - left <= |old(unassigned)|
        invariant unassigned == old(unassigned)[slots - left..]
        invariant connecting == old(connecting) + SendTo(node, old(unassigned)[..slots - left])
      {
        var task := unassigned[0];
        ghost var k := slots - left;
        assert SendTo(node, old(unassigned)[..k + 1]) == SendTo(node, old(unassigned)[..k]) + [(task, node)];
        unassigned := unassigned[1..];
        ScheduleTaskToSpecificNode(task, node);
        left := left - 1;
      }
    }

    /** `viable` are the tasks of the other nodes in the order they are considered. */
    method StealTasks(node: NodeId, viable: seq<TaskId>, slots: nat)
      requires node in running && slots > 0
      modifies this`connecting
      ensures connecting == old(connecting) + SendTo(node, Steal(old(View()), node, viable, slots))
    {
      ghost var st := View();
      ghost var stolen: seq<TaskId> := [];
      var left := slots;
      var i := 0;
      while i < |viable| && left > 0
        invariant i <= |viable|
        invariant Steal(st, node, viable, slots) == stolen + Steal(st, node, viable[i..], left)
        invariant connecting == old(connecting) + SendTo(node, stolen)
      {
        var task := viable[i];
        assert viable[i..][0] == task && viable[i..][1..] == viable[i + 1..];
        if task in tasks && tasks[task].completedBy == None && task !in running[node] {
          StealOne(st, node, viable[i..], left, stolen);
          assert SendTo(node, stolen + [task]) == SendTo(node, stolen) + [(task, node)];
          stolen := stolen + [task];
          ScheduleTaskToSpecificNode(task, node);
          left := left - 1;
        }
        i := i + 1;
      }
      assert Steal(st, node, viable[i..], left) == [];
    }

    lemma StealOne(st: State, node: NodeId, rest: seq<TaskId>, left: nat, stolen: seq<TaskId>)
      requires node in st.running && rest != [] && left > 0 && rest[0] in st.tasks
      requires st.tasks[rest[0]].completedBy == None && rest[0] !in st.running[node]
      ensures stolen + Steal(st, node, rest, left) == stolen + [rest[0]] + Steal(st, node, rest[1..], left - 1)
    {
    }

    method FindWork(node: NodeId, viable: seq<TaskId>)
      requires node in nodes && node in running
      modifies this`unassigned, this`connecting
      ensures View() == BuildManager.FindWork(old(View()), node, viable)
    {
      var available := nodes[node].slots + 1 - |running[node]|;
      if available > 0 {
        var left := TakeUnassigned(node, available);
        if left == 0 || !(|running[node]| < nodes[node].slots) {
          return;
        }
        ghost var st1 := View();
        assert st1 == old(View()).(unassigned := unassigned, connecting := connecting);
        StealTasks(node, viable, left);
        assert View() == st1.(connecting := connecting);
      }
    }

    /** The first occurrence leaves a node's list of running tasks. */
    method RemoveRunning(node: NodeId, task: TaskId)
      requires node in running
      modifies this`running
      ensures running == old(running)[node := RemoveFirst(old(running)[node], task)]
    {
      var q := running[node];
      var i := 0;
      while i < |q| && q[i] != task
        invariant 0 <= i <= |q|
        invariant RemoveFirst(q, task) == q[..i] + RemoveFirst(q[i..], task)
      {
        assert q[i..][0] == q[i] && q[i..][1..] == q[i + 1..];
        assert RemoveFirst(q[i..], task) == [q[i]] + RemoveFirst(q[i + 1..], task);
        i := i + 1;
      }
      assert q == q[..i] + q[i..];
      assert i < |q| ==> q[i..][0] == task && q[i..][1..] == q[i + 1..];
      running := running[node := if i < |q| then q[..i] + q[i + 1..] else q];
    }

    method TaskSessionCompleted(sid: SessionId, result: Result) returns (done: bool)
      requires sid in sessions && sessions[sid].task in tasks && sessions[sid].node in nodes
      requires tasks[sessions[sid].task].command in commands
      modifies this`tasks, this`nodes, this`commands, this`ok
      ensures View() == Report(old(View()), sid, result)
      ensures sessions[sid].task in tasks && done == !MustReschedule(tasks[sessions[sid].task], result)
    {
      var session := sessions[sid];
      var t, n := session.task, session.node;
      var task := tasks[t];
      var k := task.command;
      ok := ok && sid in task.running;
      nodes := nodes[n := ProcessResult(nodes[n], result)];
      task, done := Closed(task, sid, result);
      ok := ok && (result == Success ==> MayComplete(commands[k], t) && task.completedBy == Some(sid));
      TellCommand(k, t, task, result, session.link.m.retcode);
      tasks := tasks[t := task];
    }

    /** The task without the session; a winner that has failed owes its result again. */
    method Closed(task: Task, sid: SessionId, result: Result) returns (closed: Task, done: bool)
      ensures closed == BuildManager.SessionCompleted(task, sid, result) && done == !MustReschedule(closed, result)
    {
      var running', finished' := task.running - {sid}, task.finished + {sid};
      var completedBy' := task.completedBy;
      done := true;
      if result == Failure || result == Terminated {
        if completedBy' == Some(sid) {
          completedBy' := None;
        }
        done := completedBy' != None || running' != {};
      }
      closed := Task(task.command, task.scheduled, completedBy', running', finished');
    }

    /** What the command hears of the end of a session; of a failed one, nothing. */
    method TellCommand(k: CommandId, t: TaskId, task: Task, result: Result, retcode: int)
      requires k in commands
      modifies this`commands
      ensures commands == old(commands)[k := Heard(old(commands)[k], t, task, result, retcode)]
    {
      if result == Failure || result == Terminated {
        assert commands == commands[k := commands[k]];
        return;
      }
      if task.running == {} && task.completedBy != None {
        commands := commands[k := AllSessionsDone(commands[k], t)];
      }
      if result == Success {
        commands := commands[k := TaskCompleted(commands[k], t, retcode)];
      }
    }

    /** The manager forgets a session, first of all. */
    method Unregister(sid: SessionId)
      requires sid in sessions && sessions[sid].node in running
      modifies this`ok, this`live, this`running
      ensures View() == BuildManager.Unregister(old(View()), sid)
    {
      var t, n := sessions[sid].task, sessions[sid].node;
      ok := ok && sid in live && t in running[n];
      live := live - {sid};
      RemoveRunning(n, t);
    }

    /** A session has reached its end with `result`. */
    method SessionCompleted(sid: SessionId, result: Result, viable: seq<TaskId>, best: Option<NodeId>)
      requires CanEnd(View(), sid)
      modifies this
      ensures View() == CompleteSession(old(View()), sid, result, viable, best)
    {
      var t, n := sessions[sid].task, sessions[sid].node;
      Unregister(sid);
      FindWork(n, viable);
      var done := TaskSessionCompleted(sid, result);
      if !done {
        ScheduleTask(t, true, best);
      }
    }

    /** A session is opened on the i-th connection to come up. */
    method CreateSession(i: nat)
      requires i < |connecting|
      requires connecting[i].0 in tasks && connecting[i].1 in nodes && connecting[i].1 in running
      modifies this
      ensures View() == BuildManager.CreateSession(old(View()), i)
    {
      var (t, n) := connecting[i];
      connecting := connecting[..i] + connecting[i + 1..];
      counter := counter + 1;
      nodes := nodes[n := nodes[n].(sent := nodes[n].sent + 1)];
      tasks := tasks[t := tasks[t].(running := tasks[t].running + {counter})];
      running := running[n := running[n] + [t]];
      sessions := sessions[counter := Session(t, n, LINK_START)];
      live := live + {counter};
    }
  }

  class CommandProcessor {
    const tasks: set<TaskId>
    var completed: map<TaskId, int>
    var postprocessed: nat
    var sessionsDone: set<TaskId>

    ghost function View(): Command
      reads this
    {
      Command(tasks, completed, postprocessed, sessionsDone)
    }

    constructor (ts: set<TaskId>)
      ensures View() == Command(ts, map[], 0, {})
    {
      tasks, completed, postprocessed, sessionsDone := ts, map[], 0, {};
    }

    /** Once this has been said of every task the database gets the command. */
    method AllSessionsDone(task: TaskId)
      modifies this`sessionsDone
      ensures View() == BuildManager.AllSessionsDone(old(View()), task)
    {
      sessionsDone := sessionsDone + {task};
    }

    method Postprocess()
      modifies this`postprocessed
      ensures postprocessed == old(postprocessed) + 1
    {
      postprocessed := postprocessed + 1;
    }

    method TaskCompleted(task: TaskId, retcode: int)
      requires MayComplete(View(), task)
      modifies this
      ensures View() == BuildManager.TaskCompleted(old(View()), task, retcode)
    {
      completed := completed[task := retcode];
      if tasks == completed.Keys {
        Postprocess();
      }
    }
  }
}
