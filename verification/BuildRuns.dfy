/** Whole runs of the manager and its servers: what holds however their steps interleave. */
module BuildRuns {
  import opened SessionProtocol
  import opened BuildManager
  import opened BuildSafety
  import opened BuildEndings

  // --- Every step keeps the invariant ------------------------------------------------

  ghost predicate ChoiceOk(st: State, c: Choice) {
    (c.pick.Some? ==> c.pick.value in st.nodes) && (forall i :: 0 <= i < |c.viable| ==> IsScheduled(st, c.viable[i]))
  }

  lemma ServerStepHolds(st: State, sid: SessionId, needs: (bool, bool))
    requires Inv(st) && sid in st.sessions && st.sessions[sid].link.down != []
    ensures var l := st.sessions[sid].link;
      DeliverDown(l, needs).ok && Inv(WithLink(st, sid, AfterServer(l, l.down[1..], DeliverDown(l, needs)), true))
  {
    var l := st.sessions[sid].link;
    DeliverDownHolds(l, needs);
    LinkStepHolds(st, sid, AfterServer(l, l.down[1..], DeliverDown(l, needs)));
  }

  lemma CallbackStepHolds(st: State, sid: SessionId, outcome: Outcome, parts: nat)
    requires Inv(st) && sid in st.sessions
    ensures var l := st.sessions[sid].link;
      var r := ServerCallback(l.s, outcome, parts);
      r.ok && Inv(WithLink(st, sid, AfterServer(l, l.down, r), true))
  {
    var l := st.sessions[sid].link;
    CallbackHolds(l, outcome, parts);
    LinkStepHolds(st, sid, AfterServer(l, l.down, ServerCallback(l.s, outcome, parts)));
  }

  lemma UploadStepHolds(st: State, sid: SessionId)
    requires Inv(st) && sid in st.sessions && st.sessions[sid].link.m.uploading > 0
    ensures Inv(WithLink(st, sid, UploadPiece(st.sessions[sid].link), true))
  {
    UploadHolds(st.sessions[sid].link);
    LinkStepHolds(st, sid, UploadPiece(st.sessions[sid].link));
  }

  /** A message for a session that has been unregistered changes nothing else. */
  lemma DroppedMessageHolds(st: State, sid: SessionId)
    requires Inv(st) && sid in st.sessions && sid !in st.live && st.sessions[sid].link.up != []
    ensures var l := st.sessions[sid].link;
      Inv(WithLink(st, sid, l.(up := l.up[1..]), true))
  {
    var l := st.sessions[sid].link;
    assert SessionKnown(st, sid, None);
    LinkStepHolds(st, sid, l.(up := l.up[1..]));
  }

  /** The manager's answer to a message, and whether it takes the task by it. */
  ghost function Taken(st: State, sid: SessionId): bool
    requires sid in st.sessions && st.sessions[sid].link.up != [] && st.sessions[sid].task in st.tasks
  {
    var s := st.sessions[sid];
    s.link.m.phase == WaitResponse && s.link.up[0].Done? && st.tasks[s.task].completedBy == None
  }

  ghost function Answer(st: State, sid: SessionId, c: Choice): Reaction<Manager, Down>
    requires sid in st.sessions && st.sessions[sid].link.up != [] && st.sessions[sid].task in st.tasks
  {
    var l := st.sessions[sid].link;
    ManagerReceive(l.m, l.up[0], Taken(st, sid), c.compilerParts, c.pchParts)
  }

  ghost function AfterAnswer(st: State, sid: SessionId, c: Choice): Link
    requires sid in st.sessions && st.sessions[sid].link.up != [] && st.sessions[sid].task in st.tasks
  {
    var l := st.sessions[sid].link;
    AfterManager(l, l.up[1..], Answer(st, sid, c))
  }

  lemma ReadyToReceive(st: State, sid: SessionId)
    requires Books(st, None) && sid in st.sessions && st.sessions[sid].link.up != []
    ensures CanReceive(st, sid)
  {
    assert SessionKnown(st, sid, None);
    assert TaskKnown(st, st.sessions[sid].task);
  }

  lemma AnswerHolds(st: State, sid: SessionId, c: Choice)
    requires Inv(st) && sid in st.live && sid in st.sessions && st.sessions[sid].link.up != []
    requires st.sessions[sid].task in st.tasks
    ensures Answer(st, sid, c).ok && LinkInv(AfterAnswer(st, sid, c))
  {
    assert SessionKnown(st, sid, None);
    assert RaceOk(st, sid);
    DeliverUpHolds(st.sessions[sid].link, Taken(st, sid), c.compilerParts, c.pchParts);
  }

  lemma FinishedStepHolds(st: State, sid: SessionId, r: Result, c: Choice)
    requires InvBut(st, Some(sid), {}) && sid in st.live && sid in st.sessions
    requires st.sessions[sid].link.m.phase == Finished(r) && ChoiceOk(st, c)
    ensures Over(st, sid, r) && Inv(CompleteSession(st, sid, r, c.viable, c.pick))
  {
    assert SessionKnown(st, sid, Some(sid));
    assert TaskKnown(st, st.sessions[sid].task);
    CompleteHolds(st, sid, r, c.viable, c.pick);
  }

  lemma TakenHolds(st: State, sid: SessionId, c: Choice)
    requires Inv(st) && sid in st.live && CanReceive(st, sid) && Taken(st, sid)
    ensures var l' := AfterAnswer(st, sid, c);
      InvBut(WithLink(RegisterCompletion(st, sid), sid, l', true), Ending(sid, l'.m), {})
  {
    AnswerHolds(st, sid, c);
    RegisterHolds(st, sid, AfterAnswer(st, sid, c));
  }

  lemma NotTakenHolds(st: State, sid: SessionId, c: Choice)
    requires Inv(st) && sid in st.live && CanReceive(st, sid) && !Taken(st, sid)
    ensures var l' := AfterAnswer(st, sid, c);
      InvBut(WithLink(st, sid, l', true), Ending(sid, l'.m), {})
  {
    var l' := AfterAnswer(st, sid, c);
    AnswerHolds(st, sid, c);
    NotTakenStanding(st, sid, c);
    if l'.m.phase.Finished? {
      EndsHolds(st, sid, l');
    } else {
      LinkStepHolds(st, sid, l');
    }
  }

  lemma NotTakenStanding(st: State, sid: SessionId, c: Choice)
    requires Books(st, None) && Race(st) && sid in st.live && CanReceive(st, sid) && !Taken(st, sid)
    requires LinkInv(AfterAnswer(st, sid, c)) && Answer(st, sid, c).ok
    ensures var l' := AfterAnswer(st, sid, c);
      if l'.m.phase.Finished? then Ends(st, sid, l') else LinkStep(st, sid, l')
  {
    assert SessionKnown(st, sid, None) && RaceOk(st, sid);
  }

  /** The state between the manager's answer and the end of the session, if it ends. */
  ghost function Answered(st: State, sid: SessionId, c: Choice): State
    requires CanReceive(st, sid)
  {
    WithLink(if Taken(st, sid) then RegisterCompletion(st, sid) else st, sid, AfterAnswer(st, sid, c), true)
  }

  lemma GetsInParts(st: State, sid: SessionId, c: Choice)
    requires sid in st.live && CanReceive(st, sid) && Answer(st, sid, c).ok && st.ok
    ensures var m := AfterAnswer(st, sid, c).m;
      ManagerGets(st, sid, c) ==
      if m.phase.Finished? then CompleteSession(Answered(st, sid, c), sid, m.phase.result, c.viable, c.pick)
      else Answered(st, sid, c)
  {
  }

  lemma AnsweredHolds(st: State, sid: SessionId, c: Choice)
    requires Inv(st) && sid in st.live && CanReceive(st, sid)
    ensures InvBut(Answered(st, sid, c), Ending(sid, AfterAnswer(st, sid, c).m), {})
  {
    if Taken(st, sid) {
      TakenHolds(st, sid, c);
    } else {
      NotTakenHolds(st, sid, c);
    }
  }

  lemma AnsweredChoice(st: State, sid: SessionId, c: Choice)
    requires CanReceive(st, sid) && ChoiceOk(st, c)
    ensures ChoiceOk(Answered(st, sid, c), c)
  {
    assert forall t :: IsScheduled(st, t) ==> IsScheduled(Answered(st, sid, c), t);
  }

  lemma GetsHolds(st: State, sid: SessionId, c: Choice)
    requires Inv(st) && ChoiceOk(st, c) && sid in st.live && CanReceive(st, sid)
    ensures Inv(ManagerGets(st, sid, c))
  {
    var m := AfterAnswer(st, sid, c).m;
    AnswerHolds(st, sid, c);
    GetsInParts(st, sid, c);
    AnsweredHolds(st, sid, c);
    AnsweredChoice(st, sid, c);
    if m.phase.Finished? {
      FinishedStepHolds(Answered(st, sid, c), sid, m.phase.result, c);
    }
  }

  lemma EndSessionHolds(st: State, sid: SessionId, r: Result, c: Choice)
    requires Inv(st) && ChoiceOk(st, c) && sid in st.live && sid in st.sessions
    requires (st.sessions[sid].link.m.phase == Writing && r == Success)
      || (Undecided(st.sessions[sid].link.m) && (r == Terminated || r == Failure))
    ensures CanEnd(st, sid) && Inv(EndSession(st, sid, r, c))
  {
    var l := st.sessions[sid].link;
    var l' := l.(m := l.m.(phase := Finished(r)));
    var st2 := WithLink(st, sid, l', true);
    assert SessionKnown(st, sid, None);
    assert TaskKnown(st, st.sessions[sid].task);
    FinishHolds(l, r);
    EndsHolds(st, sid, l');
    assert forall t :: IsScheduled(st2, t) == IsScheduled(st, t);
    FinishedStepHolds(st2, sid, r, c);
  }

  lemma StepHolds(st: State, e: Event, c: Choice)
    requires Inv(st) && Enabled(st, e, c)
    ensures Inv(Apply(st, e, c))
  {
    match e
    case NewCommand(k, ts) => NewCommandHolds(st, k, ts);
    case Schedule(t) => ScheduleHolds(st, t, c.pick);
    case Connected(i) => CreateHolds(st, i);
    case ToServer(sid) => ServerStepHolds(st, sid, c.needs);
    case Callback(sid) => CallbackStepHolds(st, sid, c.outcome, c.parts);
    case ToManager(sid) =>
      ReadyToReceive(st, sid);
      if sid !in st.live {
        DroppedMessageHolds(st, sid);
      } else {
        GetsHolds(st, sid, c);
      }
    case Upload(sid) => UploadStepHolds(st, sid);
    case Written(sid) => EndSessionHolds(st, sid, Success, c);
    case Lose(sid) => EndSessionHolds(st, sid, Terminated, c);
    case Join(n, slots) => JoinHolds(st, n, slots, c.viable);
  }

  // --- Runs --------------------------------------------------------------------------

  /** One step. Nothing is said about a step from a state whose books are broken, so that
      the theorem below has to show that there is none. */
  ghost predicate Step(st: State, e: Event, c: Choice, st': State) {
    Enabled(st, e, c) && (Books(st, None) ==> st' == Apply(st, e, c))
  }

  ghost predicate Run(trace: seq<State>, steps: seq<(Event, Choice)>) {
    && |trace| == |steps| + 1 && Init(trace[0])
    && forall i :: 0 <= i < |steps| ==> Step(trace[i], steps[i].0, steps[i].1, trace[i + 1])
  }

  lemma {:induction false} RunHolds(trace: seq<State>, steps: seq<(Event, Choice)>, i: nat)
    requires Run(trace, steps) && i <= |steps|
    ensures Inv(trace[i])
  {
    if i == 0 {
      InitHolds(trace[0]);
    } else {
      RunHolds(trace, steps, i - 1);
      assert Step(trace[i - 1], steps[i - 1].0, steps[i - 1].1, trace[i]);
      StepHolds(trace[i - 1], steps[i - 1].0, steps[i - 1].1);
    }
  }

  // --- What that means ---------------------------------------------------------------

  ghost predicate EndedIn(st: State, sid: SessionId, t: TaskId, r: Result) {
    sid in st.sessions && st.sessions[sid].task == t && st.sessions[sid].link.m.phase == Finished(r)
  }

  ghost predicate HasWon(st: State, sid: SessionId, t: TaskId) {
    sid in st.sessions && st.sessions[sid].task == t && Winning(st.sessions[sid].link.m.phase)
  }

  /** Whatever the interleaving, at most one session of a task ends in success, and no
      assertion of the manager or of a server fails. */
  lemma OneWinner(trace: seq<State>, steps: seq<(Event, Choice)>, i: nat, t: TaskId, a: SessionId, b: SessionId)
    requires Run(trace, steps) && i <= |steps|
    ensures trace[i].ok
    ensures EndedIn(trace[i], a, t, Success) && EndedIn(trace[i], b, t, Success) ==> a == b
  {
    RunHolds(trace, steps, i);
    if EndedIn(trace[i], a, t, Success) && EndedIn(trace[i], b, t, Success) {
      assert RaceOk(trace[i], a) && RaceOk(trace[i], b);
    }
  }

  /** A server confirms a cancellation only if it has been asked to, at most once, and
      sends nothing after that; a session is cancelled only if another one has won. */
  lemma ConfirmationIsFinal(trace: seq<State>, steps: seq<(Event, Choice)>, i: nat, sid: SessionId, k: nat)
    requires Run(trace, steps) && i <= |steps| && sid in trace[i].sessions
    requires k < |trace[i].sessions[sid].link.s.log| && trace[i].sessions[sid].link.s.log[k] == CancelConfirmed
    ensures k == |trace[i].sessions[sid].link.s.log| - 1 && trace[i].sessions[sid].link.s.asked
    ensures exists w :: w != sid && HasWon(trace[i], w, trace[i].sessions[sid].task)
  {
    RunHolds(trace, steps, i);
    var st := trace[i];
    assert LinkInv(st.sessions[sid].link);
    assert RaceOk(st, sid);
    var t := st.sessions[sid].task;
    assert WinnerOk(st, t);
    assert HasWon(st, st.tasks[t].completedBy.value, t);
  }

  /** A command is postprocessed at most once, and has been exactly when a session of each
      of its tasks has succeeded. */
  lemma PostprocessedOnce(trace: seq<State>, steps: seq<(Event, Choice)>, i: nat, k: CommandId)
    requires Run(trace, steps) && i <= |steps| && k in trace[i].commands
    ensures trace[i].commands[k].postprocessed <= 1
    ensures trace[i].commands[k].postprocessed == 1 <==>
        forall t :: t in trace[i].commands[k].tasks ==> exists sid :: EndedIn(trace[i], sid, t, Success)
  {
    RunHolds(trace, steps, i);
    var st := trace[i];
    var c := st.commands[k];
    forall t | t in c.tasks
      ensures t in c.completed <==> exists sid :: EndedIn(st, sid, t, Success)
    {
      ResultIffSuccess(st, t);
    }
    assert CommandOk(c);
    assert c.completed.Keys == c.tasks <==> forall t :: t in c.tasks ==> t in c.completed;
  }

  lemma ResultIffSuccess(st: State, t: TaskId)
    requires Inv(st) && t in st.tasks && st.tasks[t].command in st.commands
    ensures t in st.commands[st.tasks[t].command].completed <==> exists sid :: EndedIn(st, sid, t, Success)
  {
    if Succeeded(st, t) {
      assert WinnerOk(st, t);
      assert EndedIn(st, st.tasks[t].completedBy.value, t, Success);
    }
    forall sid | EndedIn(st, sid, t, Success)
      ensures Succeeded(st, t)
    {
      assert RaceOk(st, sid);
    }
  }

  /** A scheduled task is completed or completing under a session that has won, waits in a
      queue, is on its way to a node, or is held by a session that has not been cancelled. */
  lemma NoTaskIsLost(trace: seq<State>, steps: seq<(Event, Choice)>, i: nat, t: TaskId)
    requires Run(trace, steps) && i <= |steps| && IsScheduled(trace[i], t)
    ensures Attended(trace[i], t) || exists w :: HasWon(trace[i], w, t)
  {
    RunHolds(trace, steps, i);
    var st := trace[i];
    if st.tasks[t].completedBy.Some? {
      assert WinnerOk(st, t);
      assert HasWon(st, st.tasks[t].completedBy.value, t);
    } else {
      assert Held(st, t);
      if st.tasks[t].running != {} {
        var sid :| sid in st.tasks[t].running;
        assert TaskKnown(st, t);
        assert RaceOk(st, sid) && SessionKnown(st, sid, None);
        assert HeldBy(st, t, sid);
      }
    }
  }

  ghost predicate HeldBy(st: State, t: TaskId, sid: SessionId) {
    && sid in st.live && sid in st.sessions && st.sessions[sid].task == t
    && Active(st.sessions[sid].link.m) && !st.sessions[sid].link.m.cancelled
  }

  ghost predicate Attended(st: State, t: TaskId) {
    t in st.unassigned || OnItsWay(st.connecting, t) || exists sid :: HeldBy(st, t, sid)
  }

  /** On every node the running list holds each task as often as the node has live sessions
      for it, and the counters agree. */
  lemma NodeBooksBalance(trace: seq<State>, steps: seq<(Event, Choice)>, i: nat, n: NodeId, t: TaskId)
    requires Run(trace, steps) && i <= |steps| && n in trace[i].nodes
    ensures n in trace[i].running
    ensures multiset(trace[i].running[n])[t] == |LiveOn(trace[i], n, t)|
    ensures TasksPending(trace[i].nodes[n]) == |trace[i].running[n]|
  {
    RunHolds(trace, steps, i);
    assert NodeOk(trace[i], n);
  }
}
