/** The session objects as the manager and the server keep them: their fields are updated in
    place, and each method is the step of the protocol of the same name. */
module SessionObjects {
  import opened SessionProtocol
  import opened BuildManager

  // --- The manager's objects ---------------------------------------------------------

  class ServerSession {
    var phase: ManagerPhase
    var sender: bool
    var cancelled: bool
    var uploading: nat
    var retcode: int
    /** What has been sent to the server so far. */
    var outbox: seq<Down>

    ghost function View(): Manager
      reads this
    {
      Manager(phase, sender, cancelled, uploading, retcode)
    }

    constructor ()
      ensures View() == MANAGER_START && outbox == [New]
    {
      phase, sender, cancelled, uploading, retcode := WaitMissing, false, false, 0, 0;
      outbox := [New];
    }

    method Cancel()
      modifies this
      ensures View() == ManagerCancel(old(View())).next
      ensures outbox == old(outbox) + ManagerCancel(old(View())).sent
    {
      if sender {
        outbox := outbox + [Down.Cancel];
      }
      cancelled := true;
    }

    /** All pieces but the last announce another one. */
    method SendFile(parts: nat)
      modifies this`outbox
      ensures outbox == old(outbox) + Chunks(parts)
    {
      var left: nat := parts;
      while left > 0
        invariant left <= parts
        invariant outbox + Chunks(left) == old(outbox) + Chunks(parts)
      {
        assert outbox + Chunks(left) == (outbox + [Chunk(false)]) + Chunks(left - 1);
        outbox := outbox + [Chunk(false)];
        left := left - 1;
      }
      assert Chunks(0) == [Chunk(true)];
      outbox := outbox + [Chunk(true)];
    }

    method SendMissing(msg: Up, compilerParts: nat, pchParts: nat)
      requires phase == WaitMissing && msg.Missing? && !sender
      modifies this
      ensures var r := ManagerReceive(old(View()), msg, false, compilerParts, pchParts);
        View() == r.next && outbox == old(outbox) + r.sent
    {
      sender := true;
      if cancelled {
        outbox := outbox + [Down.Cancel];
      }
      outbox := outbox + [TaskFiles];
      if msg.compiler {
        SendFile(compilerParts);
      }
      uploading := if msg.pch then pchParts + 1 else 0;
      phase := WaitResponse;
    }

    /** `ok` tells whether the assertions on the way hold. */
    method GotDataFromServer(msg: Up, task: TaskObject, compilerParts: nat, pchParts: nat) returns (ok: bool)
      modifies this, task, task.sessionsRunning
      ensures var wins := old(phase) == WaitResponse && msg.Done? && old(task.completedBy) == null;
        var r := ManagerReceive(old(View()), msg, wins, compilerParts, pchParts);
        && View() == r.next && outbox == old(outbox) + r.sent && ok == r.ok
        && task.completedBy == (if wins then this else old(task.completedBy))
        && task.sessionsRunning == old(task.sessionsRunning) && task.sessionsFinished == old(task.sessionsFinished)
        && (wins ==> forall s :: s in task.sessionsRunning && s != this ==> s.HasBeenCancelled())
        && (!wins ==> forall s :: s in task.sessionsRunning && s != this ==> s.View() == old(s.View()) && s.outbox == old(s.outbox))
    {
      ok := true;
      if msg.CancelConfirmed? {
        ok := cancelled;
        phase := Finished(SessionProtocol.Cancelled);
      } else if phase == WaitMissing {
        if msg.Missing? && !sender {
          SendMissing(msg, compilerParts, pchParts);
        } else {
          ok := false;
        }
      } else if phase == WaitResponse {
        if msg.Failed? {
          retcode := -1;
          phase := Finished(Failure);
        } else if msg.Done? {
          retcode := msg.retcode;
          var first := task.RegisterCompletion(this);
          if first {
            ok := !cancelled;
            if retcode == 0 {
              outbox := outbox + [Confirm(true)];
              phase := Receiving;
            } else {
              phase := Finished(Success);
            }
          } else {
            if retcode == 0 {
              outbox := outbox + [Confirm(false)];
            }
            phase := Finished(TooLate);
          }
        } else {
          ok := false;
        }
      } else if phase == Receiving {
        if cancelled || !msg.Data? {
          ok := false;
        } else if msg.last {
          phase := Writing;
        }
      } else {
        ok := false;
      }
    }

    /** The last call made on this session was a cancellation. */
    twostate predicate HasBeenCancelled()
      reads this
    {
      && View() == ManagerCancel(old(View())).next
      && outbox == old(outbox) + ManagerCancel(old(View())).sent
    }
  }

  class TaskObject {
    var sessionsRunning: set<ServerSession>
    var sessionsFinished: set<ServerSession>
    var completedBy: ServerSession?

    constructor ()
      ensures sessionsRunning == {} && sessionsFinished == {} && completedBy == null
    {
      sessionsRunning, sessionsFinished, completedBy := {}, {}, null;
    }

    /** The first session to call this wins, and every other running session is cancelled
        exactly once; later callers change nothing. */
    method RegisterCompletion(session: ServerSession) returns (first: bool)
      modifies this`completedBy, sessionsRunning
      ensures first == (old(completedBy) == null)
      ensures completedBy == if first then session else old(completedBy)
      ensures forall s :: s in sessionsRunning && (!first || s == session) ==> s.View() == old(s.View()) && s.outbox == old(s.outbox)
      ensures forall s :: s in sessionsRunning && first && s != session ==> s.HasBeenCancelled()
    {
      if completedBy != null {
        return false;
      }
      completedBy := session;
      var left := sessionsRunning - {session};
      while left != {}
        invariant completedBy == session && left <= sessionsRunning - {session}
        invariant unchanged(left) && unchanged(session)
        invariant forall s :: s in sessionsRunning && s != session && s !in left ==> s.HasBeenCancelled()
        decreases |left|
      {
        var other :| other in left;
        other.Cancel();
        left := left - {other};
      }
      return true;
    }

    /** The answer is false exactly when the task has to be scheduled again. `allDone` says
        whether the command hears that no session is left: never from one that failed. */
    method SessionCompleted(session: ServerSession, result: Result) returns (done: bool, allDone: bool)
      requires session in sessionsRunning
      modifies this
      ensures sessionsRunning == old(sessionsRunning) - {session}
      ensures sessionsFinished == old(sessionsFinished) + {session}
      ensures var failed := result == Failure || result == Terminated;
        && completedBy == (if failed && old(completedBy) == session then null else old(completedBy))
        && done == !(failed && completedBy == null && sessionsRunning == {})
        && allDone == (!failed && completedBy != null && sessionsRunning == {})
    {
      sessionsRunning := sessionsRunning - {session};
      sessionsFinished := sessionsFinished + {session};
      if result == Failure || result == Terminated {
        if completedBy == session {
          completedBy := null;
        }
        return completedBy != null || sessionsRunning != {}, false;
      }
      allDone := sessionsRunning == {} && completedBy != null;
      return true, allDone;
    }
  }

  // --- The server's object -----------------------------------------------------------

  class CompileSession {
    var phase: ServerPhase
    var cancelPending: bool
    var completed: bool
    var callback: Callback
    var sent: seq<Up>
    ghost var asked: bool

    ghost function View(): Server
      reads this
    {
      Server(phase, cancelPending, completed, callback, sent, asked)
    }

    constructor ()
      ensures View() == SERVER_START
    {
      phase, cancelPending, completed, callback, sent := Absent, false, false, Idle, [];
      asked := false;
    }

    method SessionDone() returns (ok: bool)
      modifies this`completed
      ensures completed && ok == !old(completed)
    {
      ok := !completed;
      completed := true;
    }

    method CancelSession() returns (ok: bool)
      modifies this
      ensures var r := SessionProtocol.CancelSession(old(View()));
        View() == r.next && ok == r.ok && sent == old(sent) + r.sent
    {
      ok := phase != Dropped;
      sent := sent + [CancelConfirmed];
      phase := Dropped;
      var done := SessionDone();
      ok := ok && done;
    }

    method Compile()
      modifies this
      ensures View() == SessionProtocol.Compile(old(View()))
    {
      phase := Running;
      callback := StartCompiler;
    }

    /** The repositories' answers are `needs`. */
    method ProcessMsg(msg: Down, needs: (bool, bool)) returns (ok: bool)
      requires !completed
      modifies this
      ensures var r := ServerReceive(old(View()), msg, needs);
        View() == r.next && ok == r.ok && sent == old(sent) + r.sent
    {
      ok := true;
      if msg == New {
        ok := phase == Absent;
        sent := sent + [Missing(needs.0, needs.1)];
        phase := Headers(needs.0, needs.1);
      } else if msg == Cancel {
        asked := true;
        if CanBeCancelled(phase) && !ExpectsMessage(phase) {
          ok := CancelSession();
        } else {
          ok := phase != Absent;
          cancelPending := true;
        }
      } else if cancelPending && CanBeCancelled(phase) {
        ok := CancelSession();
      } else {
        ok := Dispatch(msg);
      }
    }

    /** What each state does with a message that is no cancellation. */
    method Dispatch(msg: Down) returns (ok: bool)
      requires !completed && msg != New && msg != Cancel && !(cancelPending && CanBeCancelled(phase))
      modifies this
      ensures forall needs: (bool, bool) ::
        var r := ServerReceive(old(View()), msg, needs);
        View() == r.next && ok == r.ok && sent == old(sent) + r.sent
    {
      ok := true;
      if phase.Headers? {
        ok := msg == TaskFiles;
        if phase.compiler {
          phase := Compiler(phase.pch);
        } else if phase.pch {
          phase := Pch;
        } else {
          Compile();
        }
      } else if phase.Compiler? {
        ok := msg.Chunk?;
        if ok && msg.last {
          if phase.pch {
            phase := Pch;
          } else {
            Compile();
          }
        }
      } else if phase == Pch {
        ok := msg.Chunk? && callback == Idle;
        if msg.Chunk? && msg.last {
          callback := WritePch;
        }
      } else if phase == Confirming && msg.Confirm? {
        if msg.yes {
          phase := Uploading;
          callback := SendResult;
        } else {
          ok := SessionDone();
        }
      } else {
        ok := false;
      }
    }

    method CompileCompleted(outcome: Outcome) returns (ok: bool)
      requires callback == FinishCompiler
      modifies this
      ensures forall parts: nat ::
        var r := ServerCallback(old(View()), outcome, parts);
        View() == r.next && ok == r.ok && sent == old(sent) + r.sent
    {
      callback := Idle;
      if phase != Running {
        return phase == Dropped;
      }
      match outcome {
        case Crashed =>
          phase := Broken;
          sent := sent + [Failed];
          ok := SessionDone();
        case Exited(retcode) =>
          if retcode == 0 {
            phase := Confirming;
          }
          sent := sent + [Done(retcode)];
          ok := !completed;
          if retcode != 0 {
            ok := SessionDone();
          }
      }
    }

    /** The compressed result goes out in pieces, the last of them marked. */
    method SendCompressed(parts: nat) returns (ok: bool)
      requires callback == SendResult
      modifies this
      ensures forall outcome ::
        var r := ServerCallback(old(View()), outcome, parts);
        View() == r.next && ok == r.ok && sent == old(sent) + r.sent
    {
      var left: nat := parts;
      while left > 0
        invariant left <= parts
        invariant sent + Pieces(left) == old(sent) + Pieces(parts)
        invariant View() == old(View()).(log := sent)
      {
        assert sent + Pieces(left) == (sent + [Data(false)]) + Pieces(left - 1);
        sent := sent + [Data(false)];
        left := left - 1;
      }
      assert Pieces(0) == [Data(true)];
      sent := sent + [Data(true)];
      callback := Idle;
      ok := SessionDone();
    }

    /** Work handed to another thread reports back. */
    method CallBack(outcome: Outcome, parts: nat) returns (ok: bool)
      modifies this
      ensures var r := ServerCallback(old(View()), outcome, parts);
        View() == r.next && ok == r.ok && sent == old(sent) + r.sent
    {
      match callback {
        case Idle => ok := true;
        case WritePch =>
          ok := !completed;
          Compile();
        case StartCompiler =>
          if cancelPending {
            callback := Idle;
            ok := CancelSession();
          } else {
            callback := FinishCompiler;
            ok := true;
          }
        case FinishCompiler => ok := CompileCompleted(outcome);
        case SendResult => ok := SendCompressed(parts);
      }
    }
  }
}
