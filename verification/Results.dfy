/** What a session's result says, and whom it reaches: the compiler's return code the command,
    and every kind of end the node's counters. */
module Results {
  import opened SessionProtocol
  import opened BuildManager
  import opened BuildSafety
  import opened BuildRuns
  import opened LastSessions

  // --- One session -----------------------------------------------------------------------

  /** The session has accepted a return code. */
  predicate HasReturned(p: ManagerPhase) {
    p == Receiving || p == Writing || p == Finished(Success) || p == Finished(TooLate)
  }

  /** Whatever the manager believes of a session its server has said. */
  ghost predicate Honest(l: Link) {
    var m, log := l.m, l.s.log;
    && (forall i :: 0 <= i < |l.up| ==> l.up[i] in log)
    && (HasReturned(m.phase) ==> Done(m.retcode) in log)
    && (m.phase == Receiving || m.phase == Writing ==> m.retcode == 0)
    && (m.phase == Writing || (m.phase == Finished(Success) && m.retcode == 0) ==> Data(true) in log)
    && (m.phase == Finished(Failure) ==> Failed in log)
    && (m.phase == Finished(Cancelled) ==> CancelConfirmed in log)
  }

  lemma ServerLogs(s: Server, msg: Down, needs: (bool, bool))
    ensures var r := ServerReceive(s, msg, needs); r.next.log == s.log + r.sent
  {
    assert s.log + [] == s.log;
  }

  lemma CallbackLogs(s: Server, outcome: Outcome, parts: nat)
    ensures var r := ServerCallback(s, outcome, parts); r.next.log == s.log + r.sent
  {
    assert s.log + [] == s.log;
  }

  lemma ServerHonest(l: Link, down: seq<Down>, r: Reaction<Server, Up>)
    requires Honest(l) && r.next.log == l.s.log + r.sent
    ensures Honest(AfterServer(l, down, r))
  {
    var up := l.up + r.sent;
    forall i | 0 <= i < |up|
      ensures up[i] in r.next.log
    {
      assert i >= |l.up| ==> up[i] == r.sent[i - |l.up|];
    }
  }

  lemma ManagerHonest(l: Link, wins: bool, compilerParts: nat, pchParts: nat)
    requires Honest(l) && LinkInv(l) && !l.m.phase.Finished? && l.up != []
    ensures Honest(AfterManager(l, l.up[1..], ManagerReceive(l.m, l.up[0], wins, compilerParts, pchParts)))
  {
    assert l.up[0] in l.s.log;
    assert forall i :: 0 <= i < |l.up[1..]| ==> l.up[1..][i] == l.up[i + 1];
  }

  lemma DroppedHonest(l: Link)
    requires Honest(l) && l.up != []
    ensures Honest(l.(up := l.up[1..]))
  {
    assert forall i :: 0 <= i < |l.up[1..]| ==> l.up[1..][i] == l.up[i + 1];
  }

  /** A return code is sent exactly for a compiler that has exited with it, and a failure
      exactly for one that has crashed, to a session that has not been dropped. */
  lemma ServerSaysWhatHappened(s: Server, outcome: Outcome, parts: nat, r: int)
    ensures var heard := s.callback == FinishCompiler && s.phase == Running;
      && (Done(r) in ServerCallback(s, outcome, parts).sent <==> heard && outcome == Exited(r))
      && (Failed in ServerCallback(s, outcome, parts).sent <==> heard && outcome == Crashed)
  {
    PiecesAreData(parts);
  }

  lemma {:induction false} PiecesAreData(n: nat)
    ensures forall u :: u in Pieces(n) ==> u.Data?
  {
    if n > 0 {
      PiecesAreData(n - 1);
    }
  }

  lemma ReceivingSaysNeither(s: Server, msg: Down, needs: (bool, bool))
    ensures forall u :: u in ServerReceive(s, msg, needs).sent ==> !u.Done? && u != Failed
  {
  }

  // --- All sessions, commands and nodes ------------------------------------------------------

  ghost predicate AllHonest(st: State) {
    forall sid :: sid in st.sessions ==> Honest(st.sessions[sid].link)
  }

  /** The result a command has is the return code of the session that has won. */
  ghost predicate ToldOf(st: State, t: TaskId, retcode: int) {
    && t in st.tasks && st.tasks[t].completedBy.Some?
    && var w := st.tasks[t].completedBy.value;
       w in st.sessions && st.sessions[w].task == t
       && st.sessions[w].link.m.phase == Finished(Success) && st.sessions[w].link.m.retcode == retcode
  }

  ghost predicate Retcodes(st: State) {
    forall k, t :: k in st.commands && t in st.commands[k].completed ==> ToldOf(st, t, st.commands[k].completed[t])
  }

  /** The sessions on a node that have ended with `r`. */
  ghost function EndedOn(st: State, n: NodeId, r: Result): set<SessionId> {
    set sid | sid in st.sessions && sid !in st.live && st.sessions[sid].node == n && st.sessions[sid].link.m.phase == Finished(r)
  }

  ghost function SentTo(st: State, n: NodeId): set<SessionId> {
    set sid | sid in st.sessions && st.sessions[sid].node == n
  }

  ghost predicate CountersOk(st: State, n: NodeId)
    requires n in st.nodes
  {
    var c := st.nodes[n];
    && c.sent == |SentTo(st, n)|
    && c.completed == |EndedOn(st, n, Success)| && c.failed == |EndedOn(st, n, Failure)|
    && c.cancelled == |EndedOn(st, n, Cancelled)| && c.tooLate == |EndedOn(st, n, TooLate)|
    && c.terminated == |EndedOn(st, n, Terminated)|
  }

  ghost predicate Counters(st: State) {
    forall n :: n in st.nodes ==> CountersOk(st, n)
  }

  // --- Steps that end no session -----------------------------------------------------------------

  predicate SameEnd(m: Manager, m': Manager) {
    m'.phase == m.phase && m'.retcode == m.retcode
  }

  /** Sessions that are over stay as they are, new ones are live, and nobody leaves. */
  ghost predicate KeepsEnds(st: State, st': State) {
    && st.sessions.Keys <= st'.sessions.Keys && st'.live >= st.live && st.nodes.Keys <= st'.nodes.Keys
    && (forall sid :: sid in st'.live && sid !in st.live ==> sid !in st.sessions)
    && (forall sid :: sid in st'.sessions && sid !in st.sessions ==> sid in st'.live)
    && (forall sid :: sid in st.sessions ==> st'.sessions[sid].task == st.sessions[sid].task && st'.sessions[sid].node == st.sessions[sid].node)
    && (forall sid :: sid in st.sessions && sid !in st.live ==> SameEnd(st.sessions[sid].link.m, st'.sessions[sid].link.m))
    && (forall n :: n in st.nodes ==> st'.nodes[n] == st.nodes[n].(sent := st'.nodes[n].sent))
  }

  lemma SameEnds(st: State, st': State, n: NodeId)
    requires KeepsEnds(st, st')
    ensures forall r :: EndedOn(st', n, r) == EndedOn(st, n, r)
  {
    forall r
      ensures EndedOn(st', n, r) == EndedOn(st, n, r)
    {
      forall sid
        ensures sid in EndedOn(st', n, r) <==> sid in EndedOn(st, n, r)
      {
      }
    }
  }

  lemma SameCounters(st: State, st': State)
    requires KeepsEnds(st, st') && Counters(st) && st'.sessions.Keys == st.sessions.Keys && st'.nodes == st.nodes
    ensures Counters(st')
  {
    forall n | n in st'.nodes
      ensures CountersOk(st', n)
    {
      assert CountersOk(st, n);
      assert SentTo(st', n) == SentTo(st, n);
      SameEnds(st, st', n);
    }
  }

  /** What a command has heard stays true. */
  ghost predicate KeepsWinners(st: State, st': State) {
    && (forall k :: k in st.commands ==> k in st'.commands && st'.commands[k] == st.commands[k])
    && (forall k :: k in st'.commands && k !in st.commands ==> st'.commands[k].completed == map[])
    && (forall t, c :: ToldOf(st, t, c) ==> ToldOf(st', t, c))
  }

  lemma SameRetcodes(st: State, st': State)
    requires KeepsWinners(st, st') && Retcodes(st)
    ensures Retcodes(st')
  {
  }

  ghost predicate Good(st: State) {
    AllHonest(st) && Retcodes(st) && Counters(st)
  }

  lemma GoodStays(st: State, st': State)
    requires Good(st) && KeepsEnds(st, st') && KeepsWinners(st, st') && AllHonest(st')
    requires st'.sessions.Keys == st.sessions.Keys && st'.nodes == st.nodes
    ensures Good(st')
  {
    SameCounters(st, st');
    SameRetcodes(st, st');
  }

  lemma LinkKeeps(st: State, sid: SessionId, l: Link, ok: bool)
    requires sid in st.sessions && (st.sessions[sid].link.m.phase.Finished? ==> SameEnd(st.sessions[sid].link.m, l.m))
    requires LiveOrOver(st)
    ensures KeepsEnds(st, WithLink(st, sid, l, ok)) && KeepsWinners(st, WithLink(st, sid, l, ok))
  {
  }

  ghost predicate LiveOrOver(st: State) {
    forall s :: s in st.sessions ==> (s in st.live <==> !st.sessions[s].link.m.phase.Finished?)
  }

  lemma InvLive(st: State)
    requires Inv(st)
    ensures LiveOrOver(st) && st.counter + 1 !in st.sessions && st.counter + 1 !in st.live
  {
    forall s | s in st.sessions
      ensures s in st.live <==> !st.sessions[s].link.m.phase.Finished?
    {
      assert SessionKnown(st, s, None);
    }
  }

  lemma LinkGood(st: State, sid: SessionId, l: Link, ok: bool)
    requires LiveOrOver(st) && Good(st) && sid in st.sessions && Honest(l)
    requires st.sessions[sid].link.m.phase.Finished? ==> SameEnd(st.sessions[sid].link.m, l.m)
    ensures Good(WithLink(st, sid, l, ok))
  {
    LinkKeeps(st, sid, l, ok);
    LinkHonest(st, sid, l, ok);
    GoodStays(st, WithLink(st, sid, l, ok));
  }

  lemma LinkHonest(st: State, sid: SessionId, l: Link, ok: bool)
    requires AllHonest(st) && sid in st.sessions && Honest(l)
    ensures AllHonest(WithLink(st, sid, l, ok))
  {
  }

  lemma NewCommandGood(st: State, k: CommandId, ts: set<TaskId>)
    requires Good(st) && k !in st.commands && forall t :: t in ts ==> t !in st.tasks
    ensures Good(WithCommand(st, k, ts))
  {
    var st' := WithCommand(st, k, ts);
    assert KeepsWinners(st, st');
    GoodStays(st, st');
  }

  lemma ScheduleKeeps(st: State, t: TaskId, pick: Option<NodeId>)
    requires t in st.tasks
    ensures var st' := ScheduleTask(Marked(st, t), t, false, pick);
      && KeepsEnds(st, st') && KeepsWinners(st, st') && st'.sessions == st.sessions && st'.nodes == st.nodes
  {
    var st' := ScheduleTask(Marked(st, t), t, false, pick);
    ScheduleFrame(st, t, pick);
    SameEndsKept(st, st');
    SameWinnersKept(st, st');
  }

  lemma ScheduleFrame(st: State, t: TaskId, pick: Option<NodeId>)
    requires t in st.tasks
    ensures var st' := ScheduleTask(Marked(st, t), t, false, pick);
      && st'.sessions == st.sessions && st'.live == st.live && st'.nodes == st.nodes && st'.commands == st.commands
      && SameWinners(st, st')
  {
  }

  ghost predicate SameWinners(st: State, st': State) {
    forall t :: t in st.tasks ==> t in st'.tasks && st'.tasks[t].completedBy == st.tasks[t].completedBy
  }

  lemma SameEndsKept(st: State, st': State)
    requires st'.sessions == st.sessions && st'.live == st.live && st'.nodes == st.nodes
    ensures KeepsEnds(st, st')
  {
  }

  lemma SameWinnersKept(st: State, st': State)
    requires st'.sessions == st.sessions && st'.commands == st.commands && SameWinners(st, st')
    ensures KeepsWinners(st, st')
  {
  }

  lemma ScheduleGood(st: State, t: TaskId, pick: Option<NodeId>)
    requires Good(st) && t in st.tasks
    ensures Good(ScheduleTask(Marked(st, t), t, false, pick))
  {
    ScheduleKeeps(st, t, pick);
    GoodStays(st, ScheduleTask(Marked(st, t), t, false, pick));
  }

  lemma JoinGood(st: State, n: NodeId, slots: nat, viable: seq<TaskId>)
    requires Inv(st) && Good(st) && n !in st.nodes
    ensures Good(FindWork(Joined(st, n, slots), n, viable))
  {
    var st' := FindWork(Joined(st, n, slots), n, viable);
    forall m | m in st'.nodes
      ensures CountersOk(st', m)
    {
      if m == n {
        NothingOn(st, st', n);
      } else {
        assert CountersOk(st, m);
        SameOn(st, st', m);
      }
    }
    assert KeepsWinners(st, st');
    SameRetcodes(st, st');
  }

  lemma NothingOn(st: State, st': State, n: NodeId)
    requires Inv(st) && n !in st.nodes && st'.sessions == st.sessions && st'.live == st.live
    ensures SentTo(st', n) == {} && forall r :: EndedOn(st', n, r) == {}
  {
    assert forall sid :: sid in st.sessions ==> SessionKnown(st, sid, None);
  }

  lemma SameOn(st: State, st': State, n: NodeId)
    requires st'.sessions == st.sessions && st'.live == st.live
    ensures SentTo(st', n) == SentTo(st, n) && forall r :: EndedOn(st', n, r) == EndedOn(st, n, r)
  {
  }

  lemma CreateKeeps(st: State, i: nat)
    requires i < |st.connecting| && st.counter + 1 !in st.sessions
    requires st.connecting[i].0 in st.tasks && st.connecting[i].1 in st.nodes && st.connecting[i].1 in st.running
    ensures var st', sid, n := CreateSession(st, i), st.counter + 1, st.connecting[i].1;
      && KeepsEnds(st, st') && KeepsWinners(st, st')
      && st'.sessions == st.sessions[sid := Session(st.connecting[i].0, n, LINK_START)]
      && st'.nodes == st.nodes[n := st.nodes[n].(sent := st.nodes[n].sent + 1)]
  {
  }

  lemma CreateCount(st: State, st': State, sid: SessionId, n: NodeId, m: NodeId)
    requires KeepsEnds(st, st') && m in st.nodes && n in st.nodes && CountersOk(st, m)
    requires sid !in st.sessions && st'.sessions.Keys == st.sessions.Keys + {sid} && st'.sessions[sid].node == n
    requires st'.nodes == st.nodes[n := st.nodes[n].(sent := st.nodes[n].sent + 1)]
    ensures CountersOk(st', m)
  {
    SameEnds(st, st', m);
    NewSent(st, st', sid, n, m);
  }

  lemma NewSent(st: State, st': State, sid: SessionId, n: NodeId, m: NodeId)
    requires KeepsEnds(st, st')
    requires sid !in st.sessions && st'.sessions.Keys == st.sessions.Keys + {sid} && st'.sessions[sid].node == n
    ensures |SentTo(st', m)| == |SentTo(st, m)| + if m == n then 1 else 0
  {
    OneMoreSent(st, st', sid, m);
    assert sid !in SentTo(st, m);
  }

  lemma OneMoreSent(st: State, st': State, sid: SessionId, m: NodeId)
    requires sid !in st.sessions && st'.sessions.Keys == st.sessions.Keys + {sid}
    requires forall s :: s in st.sessions ==> st'.sessions[s].node == st.sessions[s].node
    ensures SentTo(st', m) == SentTo(st, m) + if st'.sessions[sid].node == m then {sid} else {}
  {
  }

  lemma CreateGood(st: State, i: nat)
    requires Good(st) && i < |st.connecting| && st.counter + 1 !in st.sessions
    requires st.connecting[i].0 in st.tasks && st.connecting[i].1 in st.nodes && st.connecting[i].1 in st.running
    ensures Good(CreateSession(st, i))
  {
    var st', sid, n := CreateSession(st, i), st.counter + 1, st.connecting[i].1;
    CreateKeeps(st, i);
    CreateCounters(st, st', sid, n);
    SameRetcodes(st, st');
    StartHonest();
    MoreHonest(st, st', sid);
  }

  lemma MoreHonest(st: State, st': State, sid: SessionId)
    requires AllHonest(st) && sid in st'.sessions && st'.sessions == st.sessions[sid := st'.sessions[sid]]
    requires Honest(st'.sessions[sid].link)
    ensures AllHonest(st')
  {
  }

  lemma CreateCounters(st: State, st': State, sid: SessionId, n: NodeId)
    requires KeepsEnds(st, st') && Counters(st) && n in st.nodes
    requires sid !in st.sessions && st'.sessions.Keys == st.sessions.Keys + {sid} && st'.sessions[sid].node == n
    requires st'.nodes == st.nodes[n := st.nodes[n].(sent := st.nodes[n].sent + 1)]
    ensures Counters(st')
  {
    forall m | m in st'.nodes
      ensures CountersOk(st', m)
    {
      CreateCount(st, st', sid, n, m);
    }
  }

  lemma StartHonest()
    ensures Honest(LINK_START)
  {
  }

  // --- The end of a session ----------------------------------------------------------------------

  /** The session has just got its result, and will be unregistered. */
  ghost predicate Ending(st: State, sid: SessionId, r: Result) {
    && CanEnd(st, sid) && sid in st.live && st.sessions[sid].link.m.phase == Finished(r)
    && (r == Success ==> st.tasks[st.sessions[sid].task].completedBy == Some(sid))
  }

  lemma CloseRetcodes(st: State, sid: SessionId, r: Result, viable: seq<TaskId>, pick: Option<NodeId>)
    requires Ending(st, sid, r) && Retcodes(st)
    ensures Retcodes(CompleteSession(st, sid, r, viable, pick))
  {
    var st' := CompleteSession(st, sid, r, viable, pick);
    CompleteIs(st, sid, r, viable, pick);
    forall k, t | k in st'.commands && t in st'.commands[k].completed
      ensures ToldOf(st', t, st'.commands[k].completed[t])
    {
      CloseRetcode(st, st', sid, r, k, t);
    }
  }

  lemma CloseRetcode(st: State, st': State, sid: SessionId, r: Result, k: CommandId, t: TaskId)
    requires Ending(st, sid, r) && Retcodes(st)
    requires var t0 := st.sessions[sid].task;
      var task, k0 := SessionCompleted(st.tasks[t0], sid, r), st.tasks[t0].command;
      && st'.sessions == st.sessions && st'.tasks == st.tasks[t0 := task]
      && st'.commands == st.commands[k0 := Heard(st.commands[k0], t0, task, r, st.sessions[sid].link.m.retcode)]
    requires k in st'.commands && t in st'.commands[k].completed
    ensures ToldOf(st', t, st'.commands[k].completed[t])
  {
    var t0 := st.sessions[sid].task;
    if r != Success || t != t0 || k != st.tasks[t0].command {
      assert t in st.commands[k].completed && ToldOf(st, t, st.commands[k].completed[t]);
    }
  }

  lemma CloseEnds(st: State, st': State, sid: SessionId, n: NodeId, q: Result)
    requires sid in st.sessions && sid in st.live && st'.sessions == st.sessions && st'.live == st.live - {sid}
    ensures |EndedOn(st', n, q)|
         == |EndedOn(st, n, q)| + if st.sessions[sid].node == n && st.sessions[sid].link.m.phase == Finished(q) then 1 else 0
  {
    var more := if st.sessions[sid].node == n && st.sessions[sid].link.m.phase == Finished(q) then {sid} else {};
    assert EndedOn(st', n, q) == EndedOn(st, n, q) + more;
  }

  lemma CloseCounters(st: State, sid: SessionId, r: Result, viable: seq<TaskId>, pick: Option<NodeId>)
    requires Ending(st, sid, r) && Counters(st)
    ensures Counters(CompleteSession(st, sid, r, viable, pick))
  {
    var st' := CompleteSession(st, sid, r, viable, pick);
    CompleteIs(st, sid, r, viable, pick);
    forall n | n in st'.nodes
      ensures CountersOk(st', n)
    {
      assert CountersOk(st, n);
      assert SentTo(st', n) == SentTo(st, n);
      CloseEnds(st, st', sid, n, Success);
      CloseEnds(st, st', sid, n, Failure);
      CloseEnds(st, st', sid, n, Cancelled);
      CloseEnds(st, st', sid, n, TooLate);
      CloseEnds(st, st', sid, n, Terminated);
    }
  }

  lemma CloseGood(st: State, sid: SessionId, r: Result, viable: seq<TaskId>, pick: Option<NodeId>)
    requires Ending(st, sid, r) && Good(st)
    ensures Good(CompleteSession(st, sid, r, viable, pick))
  {
    CompleteIs(st, sid, r, viable, pick);
    CloseRetcodes(st, sid, r, viable, pick);
    CloseCounters(st, sid, r, viable, pick);
  }

  // --- Every step ----------------------------------------------------------------------------------

  lemma RegisterKeeps(st: State, sid: SessionId)
    requires sid in st.sessions && st.sessions[sid].task in st.tasks && st.tasks[st.sessions[sid].task].completedBy == None
    requires st.tasks[st.sessions[sid].task].running <= st.sessions.Keys && LiveOrOver(st)
    requires forall s :: s in st.tasks[st.sessions[sid].task].running ==> s in st.live
    ensures var st' := RegisterCompletion(st, sid);
      KeepsEnds(st, st') && KeepsWinners(st, st') && LiveOrOver(st') && st'.sessions[sid] == st.sessions[sid]
  {
  }

  lemma RegisterHonest(st: State, sid: SessionId)
    requires AllHonest(st) && sid in st.sessions && st.sessions[sid].task in st.tasks
    requires st.tasks[st.sessions[sid].task].running <= st.sessions.Keys
    ensures AllHonest(RegisterCompletion(st, sid))
  {
    var st' := RegisterCompletion(st, sid);
    forall s | s in st'.sessions
      ensures Honest(st'.sessions[s].link)
    {
      assert Honest(st.sessions[s].link);
    }
  }

  lemma RegisterGood(st: State, sid: SessionId)
    requires Good(st) && sid in st.sessions && st.sessions[sid].task in st.tasks
    requires st.tasks[st.sessions[sid].task].completedBy == None && LiveOrOver(st)
    requires st.tasks[st.sessions[sid].task].running <= st.sessions.Keys
    requires forall s :: s in st.tasks[st.sessions[sid].task].running ==> s in st.live
    ensures var st' := RegisterCompletion(st, sid); Good(st') && LiveOrOver(st') && st'.sessions[sid] == st.sessions[sid]
  {
    RegisterKeeps(st, sid);
    RegisterHonest(st, sid);
    GoodStays(st, RegisterCompletion(st, sid));
  }

  lemma RunningLive(st: State, t: TaskId)
    requires Inv(st) && t in st.tasks
    ensures forall s :: s in st.tasks[t].running ==> s in st.live
  {
    assert TaskKnown(st, t);
  }

  lemma AnsweredGood(st: State, sid: SessionId, c: Choice)
    requires Inv(st) && Good(st) && sid in st.live && CanReceive(st, sid)
    ensures Good(Answered(st, sid, c))
  {
    var l, st1 := st.sessions[sid].link, if Taken(st, sid) then RegisterCompletion(st, sid) else st;
    InvLive(st);
    assert LinkInv(l);
    ManagerHonest(l, Taken(st, sid), c.compilerParts, c.pchParts);
    if Taken(st, sid) {
      RunningLive(st, st.sessions[sid].task);
      RegisterGood(st, sid);
    }
    LinkGood(st1, sid, AfterAnswer(st, sid, c), true);
  }

  lemma AnsweredEnding(st: State, sid: SessionId, c: Choice)
    requires Inv(st) && sid in st.live && CanReceive(st, sid) && AfterAnswer(st, sid, c).m.phase.Finished?
    ensures Ending(Answered(st, sid, c), sid, AfterAnswer(st, sid, c).m.phase.result)
  {
    AnsweredQuiet(st, sid, c);
    if Taken(st, sid) {
      AnsweredWins(st, sid, c);
    }
    assert LinkInv(st.sessions[sid].link);
    SuccessIsTaken(st, sid, c);
    InvLive(st);
  }

  lemma AnsweredWins(st: State, sid: SessionId, c: Choice)
    requires CanReceive(st, sid) && Taken(st, sid)
    ensures st.sessions[sid].task in Answered(st, sid, c).tasks
    ensures Answered(st, sid, c).tasks[st.sessions[sid].task].completedBy == Some(sid)
  {
  }

  lemma SuccessIsTaken(st: State, sid: SessionId, c: Choice)
    requires CanReceive(st, sid) && LinkInv(st.sessions[sid].link) && Active(st.sessions[sid].link.m)
    ensures AfterAnswer(st, sid, c).m.phase == Finished(Success) ==> Taken(st, sid)
  {
  }

  lemma GetsGood(st: State, sid: SessionId, c: Choice)
    requires Inv(st) && Good(st) && sid in st.live && CanReceive(st, sid)
    ensures Good(ManagerGets(st, sid, c))
  {
    var m := AfterAnswer(st, sid, c).m;
    AnswerHolds(st, sid, c);
    GetsInParts(st, sid, c);
    AnsweredGood(st, sid, c);
    if m.phase.Finished? {
      AnsweredEnding(st, sid, c);
      CloseGood(Answered(st, sid, c), sid, m.phase.result, c.viable, c.pick);
    }
  }

  lemma EndGood(st: State, sid: SessionId, r: Result, c: Choice)
    requires Inv(st) && Good(st) && sid in st.live && CanEnd(st, sid)
    requires (st.sessions[sid].link.m.phase == Writing && r == Success) || (Undecided(st.sessions[sid].link.m) && r == Terminated)
    ensures Good(EndSession(st, sid, r, c))
  {
    var l := st.sessions[sid].link;
    var l' := l.(m := l.m.(phase := Finished(r)));
    InvLive(st);
    FinishHonest(l, r);
    LinkGood(st, sid, l', true);
    FinishEnding(st, sid, r);
    CloseGood(WithLink(st, sid, l', true), sid, r, c.viable, c.pick);
  }

  lemma FinishHonest(l: Link, r: Result)
    requires Honest(l) && ((l.m.phase == Writing && r == Success) || r == Terminated)
    ensures Honest(l.(m := l.m.(phase := Finished(r))))
  {
  }

  lemma FinishEnding(st: State, sid: SessionId, r: Result)
    requires Race(st) && sid in st.live && CanEnd(st, sid)
    requires (st.sessions[sid].link.m.phase == Writing && r == Success) || r == Terminated
    ensures var l := st.sessions[sid].link; Ending(WithLink(st, sid, l.(m := l.m.(phase := Finished(r))), true), sid, r)
  {
    assert RaceOk(st, sid);
  }

  lemma ServerGood(st: State, e: Event, c: Choice)
    requires Inv(st) && Good(st) && Enabled(st, e, c) && (e.ToServer? || e.Callback? || e.Upload?)
    ensures Good(Apply(st, e, c))
  {
    InvLive(st);
    match e
    case ToServer(sid) =>
      var l := st.sessions[sid].link;
      var r := DeliverDown(l, c.needs);
      ServerLogs(l.s, l.down[0], c.needs);
      ServerHonest(l, l.down[1..], r);
      LinkGood(st, sid, AfterServer(l, l.down[1..], r), r.ok);
    case Callback(sid) =>
      var l := st.sessions[sid].link;
      var r := ServerCallback(l.s, c.outcome, c.parts);
      CallbackLogs(l.s, c.outcome, c.parts);
      ServerHonest(l, l.down, r);
      LinkGood(st, sid, AfterServer(l, l.down, r), r.ok);
    case Upload(sid) => LinkGood(st, sid, UploadPiece(st.sessions[sid].link), true);
  }

  lemma ReadGood(st: State, sid: SessionId, c: Choice)
    requires Inv(st) && Good(st) && sid in st.sessions && st.sessions[sid].link.up != []
    ensures CanReceive(st, sid) && Good(ManagerGets(st, sid, c))
  {
    ReadyToReceive(st, sid);
    if sid in st.live {
      GetsGood(st, sid, c);
    } else {
      InvLive(st);
      DroppedHonest(st.sessions[sid].link);
      LinkGood(st, sid, st.sessions[sid].link.(up := st.sessions[sid].link.up[1..]), true);
    }
  }

  lemma StepGood(st: State, e: Event, c: Choice)
    requires Inv(st) && Good(st) && Enabled(st, e, c)
    ensures Good(Apply(st, e, c))
  {
    InvLive(st);
    match e
    case NewCommand(k, ts) => NewCommandGood(st, k, ts);
    case Schedule(t) => ScheduleGood(st, t, c.pick);
    case Connected(i) =>
      ConnectedReady(st, i);
      CreateGood(st, i);
    case ToManager(sid) => ReadGood(st, sid, c);
    case Written(sid) =>
      EndReady(st, sid);
      EndGood(st, sid, Success, c);
    case Lose(sid) =>
      EndReady(st, sid);
      EndGood(st, sid, Terminated, c);
    case Join(n, slots) => JoinGood(st, n, slots, c.viable);
    case _ => ServerGood(st, e, c);
  }

  // --- Runs ------------------------------------------------------------------------------------------

  lemma {:induction false} RunGood(trace: seq<State>, steps: seq<(Event, Choice)>, i: nat)
    requires Run(trace, steps) && i <= |steps|
    ensures Good(trace[i])
  {
    if i > 0 {
      RunGood(trace, steps, i - 1);
      RunHolds(trace, steps, i - 1);
      assert Step(trace[i - 1], steps[i - 1].0, steps[i - 1].1, trace[i]);
      StepGood(trace[i - 1], steps[i - 1].0, steps[i - 1].1);
    }
  }

  /** In every run a session ends as its server has said: with success if the return code it
      reports has been sent, and with it, for a good one, the whole result; too late with a
      return code as well; with failure or cancelled only if that has been sent. */
  lemma EndsAsTheServerSaid(trace: seq<State>, steps: seq<(Event, Choice)>, i: nat, sid: SessionId, r: Result)
    requires Run(trace, steps) && i <= |steps| && sid in trace[i].sessions
    requires trace[i].sessions[sid].link.m.phase == Finished(r)
    ensures var m, log := trace[i].sessions[sid].link.m, trace[i].sessions[sid].link.s.log;
      match r
      case Success => Done(m.retcode) in log && (m.retcode == 0 ==> Data(true) in log)
      case TooLate => Done(m.retcode) in log
      case Failure => Failed in log
      case Cancelled => CancelConfirmed in log
      case Terminated => true
  {
    RunGood(trace, steps, i);
    assert Honest(trace[i].sessions[sid].link);
  }

  /** In every run the result a command has of a task is a return code that the server of the
      session that has won the task has sent. */
  lemma CommandHearsReturnCode(trace: seq<State>, steps: seq<(Event, Choice)>, i: nat, k: CommandId, t: TaskId)
    returns (w: SessionId)
    requires Run(trace, steps) && i <= |steps| && k in trace[i].commands && t in trace[i].commands[k].completed
    ensures t in trace[i].tasks && trace[i].tasks[t].completedBy == Some(w) && w in trace[i].sessions && trace[i].sessions[w].task == t
    ensures EndedIn(trace[i], w, t, Success) && Done(trace[i].commands[k].completed[t]) in trace[i].sessions[w].link.s.log
  {
    RunGood(trace, steps, i);
    assert ToldOf(trace[i], t, trace[i].commands[k].completed[t]);
    w := trace[i].tasks[t].completedBy.value;
    assert Honest(trace[i].sessions[w].link);
  }

  ghost predicate CompilerEnds(trace: seq<State>, steps: seq<(Event, Choice)>, i: nat, sid: SessionId, outcome: Outcome) {
    exists j :: 0 <= j < i <= |steps| && EndsAt(trace, steps, j, sid, outcome)
  }

  /** The compiler of a session ends in the j-th step. */
  ghost predicate EndsAt(trace: seq<State>, steps: seq<(Event, Choice)>, j: int, sid: SessionId, outcome: Outcome) {
    && 0 <= j < |steps| && j < |trace| && steps[j].0 == Callback(sid) && steps[j].1.outcome == outcome
    && sid in trace[j].sessions && trace[j].sessions[sid].link.s.callback == FinishCompiler
  }

  /** What a message of a server says about its compiler. */
  function Meaning(u: Up): Option<Outcome> {
    match u
    case Done(r) => Some(Exited(r))
    case Failed => Some(Crashed)
    case _ => None
  }

  ghost predicate SaidNew(st: State, st': State, sid: SessionId, u: Up) {
    sid in st'.sessions && u in st'.sessions[sid].link.s.log && (sid in st.sessions ==> u !in st.sessions[sid].link.s.log)
  }

  lemma CallbackSaysNew(st: State, sid: SessionId, c: Choice, u: Up)
    requires sid in st.sessions && Meaning(u).Some? && u in ServerCallback(st.sessions[sid].link.s, c.outcome, c.parts).sent
    ensures st.sessions[sid].link.s.callback == FinishCompiler && c.outcome == Meaning(u).value
  {
    var s := st.sessions[sid].link.s;
    match u
    case Done(r) => ServerSaysWhatHappened(s, c.outcome, c.parts, r);
    case Failed => ServerSaysWhatHappened(s, c.outcome, c.parts, 0);
  }

  /** Sessions' servers, apart from the one that takes a step. */
  ghost predicate SameServers(st: State, st': State) {
    forall sid :: sid in st'.sessions ==> st'.sessions[sid].link.s == if sid in st.sessions then st.sessions[sid].link.s else SERVER_START
  }

  lemma OthersSameServers(st: State, e: Event, c: Choice)
    requires Inv(st) && Enabled(st, e, c) && !e.ToServer? && !e.Callback?
    ensures SameServers(st, Apply(st, e, c))
  {
    match e
    case ToManager(sid) =>
      ReadyToReceive(st, sid);
      GetsServers(st, sid, c);
    case Written(sid) =>
      EndReady(st, sid);
      EndServers(st, sid, Success, c);
    case Lose(sid) =>
      EndReady(st, sid);
      EndServers(st, sid, Terminated, c);
    case Connected(i) =>
      InvLive(st);
      ConnectedReady(st, i);
      NewServer(st, i);
    case _ => QuietServers(st, e, c);
  }

  lemma QuietServers(st: State, e: Event, c: Choice)
    requires Books(st, None) && Enabled(st, e, c) && (e.NewCommand? || e.Schedule? || e.Upload? || e.Join?)
    ensures SameServers(st, Apply(st, e, c))
  {
    if e.Upload? {
      UploadServers(st, e.sid);
    }
  }

  lemma UploadServers(st: State, sid: SessionId)
    requires sid in st.sessions && st.sessions[sid].link.m.uploading > 0
    ensures SameServers(st, WithLink(st, sid, UploadPiece(st.sessions[sid].link), true))
  {
  }

  lemma NewServer(st: State, i: nat)
    requires i < |st.connecting| && st.counter + 1 !in st.sessions
    requires st.connecting[i].0 in st.tasks && st.connecting[i].1 in st.nodes && st.connecting[i].1 in st.running
    ensures SameServers(st, CreateSession(st, i))
  {
  }

  lemma GetsServers(st: State, sid: SessionId, c: Choice)
    requires Inv(st) && CanReceive(st, sid)
    ensures SameServers(st, ManagerGets(st, sid, c))
  {
    if sid in st.live {
      AnswerHolds(st, sid, c);
      GetsInParts(st, sid, c);
      var m := AfterAnswer(st, sid, c).m;
      AnsweredServers(st, sid, c);
      AnsweredQuiet(st, sid, c);
      if m.phase.Finished? {
        CompleteIs(Answered(st, sid, c), sid, m.phase.result, c.viable, c.pick);
      }
    }
  }

  lemma AnsweredServers(st: State, sid: SessionId, c: Choice)
    requires CanReceive(st, sid)
    ensures SameServers(st, Answered(st, sid, c))
  {
  }

  lemma EndServers(st: State, sid: SessionId, r: Result, c: Choice)
    requires CanEnd(st, sid)
    ensures SameServers(st, EndSession(st, sid, r, c))
  {
    var l := st.sessions[sid].link;
    CompleteIs(WithLink(st, sid, l.(m := l.m.(phase := Finished(r))), true), sid, r, c.viable, c.pick);
  }

  /** A server says something about its compiler only in the step in which that ends so. */
  lemma StepSaysNew(st: State, e: Event, c: Choice, sid: SessionId, u: Up)
    requires Inv(st) && Enabled(st, e, c) && Meaning(u).Some? && SaidNew(st, Apply(st, e, c), sid, u)
    ensures e == Callback(sid) && sid in st.sessions
    ensures st.sessions[sid].link.s.callback == FinishCompiler && c.outcome == Meaning(u).value
  {
    match e
    case ToServer(other) => ReceivingSaysNothingNew(st, other, c.needs, sid, u);
    case Callback(other) =>
      CallbackSaysNothingElse(st, other, c, sid, u);
      CallbackSaysNew(st, sid, c, u);
    case _ => OthersSameServers(st, e, c);
  }

  lemma ReceivingSaysNothingNew(st: State, other: SessionId, needs: (bool, bool), sid: SessionId, u: Up)
    requires other in st.sessions && st.sessions[other].link.down != [] && Meaning(u).Some?
    ensures var l := st.sessions[other].link; var r := DeliverDown(l, needs);
      !SaidNew(st, WithLink(st, other, AfterServer(l, l.down[1..], r), r.ok), sid, u)
  {
    var l := st.sessions[other].link;
    ServerLogs(l.s, l.down[0], needs);
    ReceivingSaysNeither(l.s, l.down[0], needs);
  }

  lemma CallbackSaysNothingElse(st: State, other: SessionId, c: Choice, sid: SessionId, u: Up)
    requires other in st.sessions
    requires var l := st.sessions[other].link; var r := ServerCallback(l.s, c.outcome, c.parts);
      SaidNew(st, WithLink(st, other, AfterServer(l, l.down, r), r.ok), sid, u)
    ensures sid == other && u in ServerCallback(st.sessions[other].link.s, c.outcome, c.parts).sent
  {
    CallbackLogs(st.sessions[other].link.s, c.outcome, c.parts);
  }

  /** In every run a server has sent a return code only after its compiler has exited with it,
      and a failure only after its compiler has crashed. */
  lemma {:induction false} SaidAfterCompiler(trace: seq<State>, steps: seq<(Event, Choice)>, i: nat, sid: SessionId, u: Up)
    requires Run(trace, steps) && i <= |steps| && Meaning(u).Some?
    requires sid in trace[i].sessions && u in trace[i].sessions[sid].link.s.log
    ensures CompilerEnds(trace, steps, i, sid, Meaning(u).value)
  {
    if i > 0 {
      var st, st' := trace[i - 1], trace[i];
      RunHolds(trace, steps, i - 1);
      assert Step(st, steps[i - 1].0, steps[i - 1].1, st');
      if SaidNew(st, st', sid, u) {
        StepSaysNew(st, steps[i - 1].0, steps[i - 1].1, sid, u);
        assert EndsAt(trace, steps, i - 1, sid, Meaning(u).value);
      } else {
        SaidAfterCompiler(trace, steps, i - 1, sid, u);
        var j :| 0 <= j < i - 1 && EndsAt(trace, steps, j, sid, Meaning(u).value);
        assert EndsAt(trace, steps, j, sid, Meaning(u).value);
      }
    }
  }

  /** So the result a command has of a task is the return code of a compiler that has run for
      the session that won it. */
  lemma CommandHearsCompiler(trace: seq<State>, steps: seq<(Event, Choice)>, i: nat, k: CommandId, t: TaskId)
    returns (w: SessionId)
    requires Run(trace, steps) && i <= |steps| && k in trace[i].commands && t in trace[i].commands[k].completed
    ensures EndedIn(trace[i], w, t, Success) && CompilerEnds(trace, steps, i, w, Exited(trace[i].commands[k].completed[t]))
  {
    w := CommandHearsReturnCode(trace, steps, i, k, t);
    SaidAfterCompiler(trace, steps, i, w, Done(trace[i].commands[k].completed[t]));
  }

  /** In every run a node's counters are the numbers of its sessions, and of those that have
      ended in each way. */
  lemma CountersCountSessions(trace: seq<State>, steps: seq<(Event, Choice)>, i: nat, n: NodeId)
    requires Run(trace, steps) && i <= |steps| && n in trace[i].nodes
    ensures var st := trace[i];
      var c := st.nodes[n];
      && c.sent == |SentTo(st, n)|
      && c.completed == |EndedOn(st, n, Success)| && c.failed == |EndedOn(st, n, Failure)|
      && c.cancelled == |EndedOn(st, n, Cancelled)| && c.tooLate == |EndedOn(st, n, TooLate)|
      && c.terminated == |EndedOn(st, n, Terminated)|
  {
    RunGood(trace, steps, i);
    assert CountersOk(trace[i], n);
  }
}
