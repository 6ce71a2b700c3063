/** No session gets stuck: while it lasts one of its ends has something to do, and a
    cancellation reaches the server and ends what it is doing. */
module SessionProgress {
  import opened SessionProtocol
  import opened BuildManager
  import opened BuildSafety
  import opened BuildRuns
  import opened LastSessions
  import opened Results
  import opened WorkSearch

  // --- One session -----------------------------------------------------------------------

  /** A server that outlives the manager's session is about to be told that it is too late. */
  predicate Settled(l: Link) {
    l.m.phase.Finished? && l.m.phase != Finished(Terminated) && !l.s.completed ==>
      l.s.phase == Confirming && l.s.callback == Idle && Strip(l.down) == [Confirm(false)]
  }

  /** Only a session that waits for the result has asked for it. */
  predicate Wanted(l: Link) {
    !l.s.completed && (Confirm(true) in l.down || l.s.phase == Uploading) ==> l.m.phase == Receiving
  }

  /** A cancellation is sent as soon as there is somebody to send it to. */
  predicate Sent(l: Link) {
    l.m.cancelled && l.m.sender ==> Cancel in l.down || l.s.asked || l.s.completed
  }

  /** A server that has been asked to cancel does so before anything else it would say. */
  predicate Heeded(s: Server) {
    s.asked ==>
      if s.completed then s.log != [] && s.log[|s.log| - 1] == CancelConfirmed
      else s.cancelPending && s.phase != Uploading && s.callback != FinishCompiler
  }

  predicate Going(l: Link) {
    Settled(l) && Wanted(l) && Sent(l) && Heeded(l.s)
  }

  lemma StartGoing()
    ensures Going(LINK_START)
  {
  }

  lemma {:induction false} StripKeeps(down: seq<Down>)
    ensures forall d :: d != Cancel ==> (d in Strip(down) <==> d in down)
    ensures Cancels(down) > 0 <==> Cancel in down
  {
    if down != [] {
      StripKeeps(down[1..]);
      assert down == [down[0]] + down[1..];
    }
  }

  lemma DownGoing(l: Link, needs: (bool, bool))
    requires LinkInv(l) && Going(l) && l.down != []
    ensures Going(AfterServer(l, l.down[1..], DeliverDown(l, needs)))
  {
    if l.down[0] == Cancel {
      CancelArrives(l, needs);
    } else {
      OtherArrives(l, needs);
    }
  }

  lemma CancelArrives(l: Link, needs: (bool, bool))
    requires LinkInv(l) && Going(l) && l.down != [] && l.down[0] == Cancel
    ensures Going(AfterServer(l, l.down[1..], DeliverDown(l, needs)))
  {
    StripHead(l.down);
    StripKeeps(l.down);
    StripKeeps(l.down[1..]);
    assert l.down == [l.down[0]] + l.down[1..];
  }

  lemma OtherArrives(l: Link, needs: (bool, bool))
    requires LinkInv(l) && Going(l) && l.down != [] && l.down[0] != Cancel
    ensures Going(AfterServer(l, l.down[1..], DeliverDown(l, needs)))
  {
    StripHead(l.down);
    StripKeeps(l.down);
    StripKeeps(l.down[1..]);
    assert l.down == [l.down[0]] + l.down[1..];
  }

  lemma CallbackGoing(l: Link, outcome: Outcome, parts: nat)
    requires LinkInv(l) && Going(l)
    ensures Going(AfterServer(l, l.down, ServerCallback(l.s, outcome, parts)))
  {
  }

  lemma UploadGoing(l: Link)
    requires LinkInv(l) && Going(l) && l.m.uploading > 0
    ensures Going(UploadPiece(l))
  {
    StripConcat(l.down, [Chunk(l.m.uploading == 1)]);
    StripOne(Chunk(l.m.uploading == 1));
  }

  lemma AnswerGoing(l: Link, wins: bool, compilerParts: nat, pchParts: nat)
    requires LinkInv(l) && Going(l) && l.up != [] && Active(l.m)
    ensures Going(AfterManager(l, l.up[1..], ManagerReceive(l.m, l.up[0], wins, compilerParts, pchParts)))
  {
    if l.m.phase == WaitMissing {
      FirstAnswerGoing(l, wins, compilerParts, pchParts);
    } else {
      LaterAnswerGoing(l, wins, compilerParts, pchParts);
    }
  }

  lemma FirstAnswerGoing(l: Link, wins: bool, compilerParts: nat, pchParts: nat)
    requires LinkInv(l) && Going(l) && l.up != [] && l.m.phase == WaitMissing
    ensures Going(AfterManager(l, l.up[1..], ManagerReceive(l.m, l.up[0], wins, compilerParts, pchParts)))
  {
    FirstAnswer(l.m, l.up[0], wins, compilerParts, pchParts);
  }

  lemma FirstAnswer(m: Manager, msg: Up, wins: bool, compilerParts: nat, pchParts: nat)
    requires m.phase == WaitMissing && !m.sender && msg.Missing?
    ensures var r := ManagerReceive(m, msg, wins, compilerParts, pchParts);
      && Confirm(true) !in r.sent && (m.cancelled ==> Cancel in r.sent)
      && r.next == m.(phase := WaitResponse, sender := true, uploading := r.next.uploading)
  {
    ChunksAreAFile(compilerParts);
  }

  lemma LaterAnswerGoing(l: Link, wins: bool, compilerParts: nat, pchParts: nat)
    requires LinkInv(l) && Going(l) && l.up != [] && Active(l.m) && l.m.phase != WaitMissing
    ensures Going(AfterManager(l, l.up[1..], ManagerReceive(l.m, l.up[0], wins, compilerParts, pchParts)))
  {
    var r := ManagerReceive(l.m, l.up[0], wins, compilerParts, pchParts);
    StripConcat(l.down, r.sent);
    StripOne(Confirm(true));
    StripOne(Confirm(false));
  }

  lemma CancelGoing(l: Link)
    requires LinkInv(l) && Going(l) && Undecided(l.m)
    ensures Going(AfterManager(l, l.up, ManagerCancel(l.m)))
  {
    StripConcat(l.down, ManagerCancel(l.m).sent);
    StripOne(Cancel);
  }

  lemma EndGoing(l: Link, r: Result)
    requires LinkInv(l) && Going(l) && ((l.m.phase == Writing && r == Success) || (Undecided(l.m) && r == Terminated))
    ensures Going(l.(m := l.m.(phase := Finished(r))))
  {
  }

  // --- All sessions --------------------------------------------------------------------------

  ghost predicate AllGoing(st: State) {
    forall sid :: sid in st.sessions ==> Going(st.sessions[sid].link)
  }

  lemma LinkGoing(st: State, sid: SessionId, l: Link, ok: bool)
    requires AllGoing(st) && sid in st.sessions && Going(l)
    ensures AllGoing(WithLink(st, sid, l, ok))
  {
  }

  /** Whoever is still running for the task can be cancelled. */
  ghost predicate OthersMayStop(st: State, sid: SessionId)
    requires sid in st.sessions && st.sessions[sid].task in st.tasks
  {
    forall s :: s in st.tasks[st.sessions[sid].task].running - {sid} ==>
      s in st.sessions && LinkInv(st.sessions[s].link) && Undecided(st.sessions[s].link.m)
  }

  lemma RegisterGoing(st: State, sid: SessionId)
    requires AllGoing(st) && sid in st.sessions && st.sessions[sid].task in st.tasks && OthersMayStop(st, sid)
    requires st.tasks[st.sessions[sid].task].running <= st.sessions.Keys
    ensures AllGoing(RegisterCompletion(st, sid))
  {
    var st' := RegisterCompletion(st, sid);
    forall s | s in st'.sessions ensures Going(st'.sessions[s].link) {
      if s in st.tasks[st.sessions[sid].task].running - {sid} {
        CancelGoing(st.sessions[s].link);
      }
    }
  }

  lemma MayStop(st: State, sid: SessionId)
    requires Inv(st) && sid in st.sessions && st.sessions[sid].task in st.tasks
    requires st.tasks[st.sessions[sid].task].completedBy == None
    ensures OthersMayStop(st, sid)
  {
    assert TaskKnown(st, st.sessions[sid].task);
    forall s | s in st.tasks[st.sessions[sid].task].running - {sid}
      ensures s in st.sessions && LinkInv(st.sessions[s].link) && Undecided(st.sessions[s].link.m)
    {
      assert SessionKnown(st, s, None) && RaceOk(st, s);
    }
  }

  lemma AnsweredGoing(st: State, sid: SessionId, c: Choice)
    requires Inv(st) && AllGoing(st) && sid in st.live && CanReceive(st, sid)
    ensures AllGoing(Answered(st, sid, c))
  {
    var l, st1 := st.sessions[sid].link, if Taken(st, sid) then RegisterCompletion(st, sid) else st;
    InvLive(st);
    assert LinkInv(l);
    AnswerGoing(l, Taken(st, sid), c.compilerParts, c.pchParts);
    if Taken(st, sid) {
      MayStop(st, sid);
      RegisterGoing(st, sid);
    }
    LinkGoing(st1, sid, AfterAnswer(st, sid, c), true);
  }

  lemma GetsGoing(st: State, sid: SessionId, c: Choice)
    requires Inv(st) && AllGoing(st) && sid in st.live && CanReceive(st, sid)
    ensures AllGoing(ManagerGets(st, sid, c))
  {
    AnsweredGoing(st, sid, c);
    GetsSessions(st, sid, c);
  }

  lemma OverGoing(st: State, sid: SessionId, r: Result, c: Choice)
    requires Inv(st) && AllGoing(st) && sid in st.live && CanEnd(st, sid)
    requires (st.sessions[sid].link.m.phase == Writing && r == Success) || (Undecided(st.sessions[sid].link.m) && r == Terminated)
    ensures AllGoing(EndSession(st, sid, r, c))
  {
    var l := st.sessions[sid].link;
    var l' := l.(m := l.m.(phase := Finished(r)));
    assert LinkInv(l);
    EndGoing(l, r);
    LinkGoing(st, sid, l', true);
    CompleteIs(WithLink(st, sid, l', true), sid, r, c.viable, c.pick);
  }

  lemma ServerGoing(st: State, e: Event, c: Choice)
    requires Links(st) && Books(st, None) && AllGoing(st) && Enabled(st, e, c) && (e.ToServer? || e.Callback? || e.Upload?)
    ensures AllGoing(Apply(st, e, c))
  {
    match e
    case ToServer(sid) =>
      var l := st.sessions[sid].link;
      var r := DeliverDown(l, c.needs);
      DownGoing(l, c.needs);
      LinkGoing(st, sid, AfterServer(l, l.down[1..], r), r.ok);
    case Callback(sid) =>
      var l := st.sessions[sid].link;
      var r := ServerCallback(l.s, c.outcome, c.parts);
      CallbackGoing(l, c.outcome, c.parts);
      LinkGoing(st, sid, AfterServer(l, l.down, r), r.ok);
    case Upload(sid) =>
      UploadGoing(st.sessions[sid].link);
      LinkGoing(st, sid, UploadPiece(st.sessions[sid].link), true);
  }

  lemma CreateGoing(st: State, i: nat)
    requires AllGoing(st) && i < |st.connecting|
    requires st.connecting[i].0 in st.tasks && st.connecting[i].1 in st.nodes && st.connecting[i].1 in st.running
    ensures AllGoing(CreateSession(st, i))
  {
    StartGoing();
  }

  lemma ReadGoing(st: State, sid: SessionId, c: Choice)
    requires Inv(st) && AllGoing(st) && sid in st.sessions && st.sessions[sid].link.up != []
    ensures CanReceive(st, sid) && AllGoing(ManagerGets(st, sid, c))
  {
    ReadyToReceive(st, sid);
    if sid in st.live {
      GetsGoing(st, sid, c);
    } else {
      LinkGoing(st, sid, st.sessions[sid].link.(up := st.sessions[sid].link.up[1..]), true);
    }
  }

  lemma StepGoing(st: State, e: Event, c: Choice)
    requires Inv(st) && AllGoing(st) && Enabled(st, e, c)
    ensures AllGoing(Apply(st, e, c))
  {
    match e
    case NewCommand(_, _) =>
    case Schedule(_) =>
    case Join(_, _) =>
    case Connected(i) =>
      ConnectedReady(st, i);
      CreateGoing(st, i);
    case ToManager(sid) => ReadGoing(st, sid, c);
    case Written(sid) =>
      EndReady(st, sid);
      OverGoing(st, sid, Success, c);
    case Lose(sid) =>
      EndReady(st, sid);
      OverGoing(st, sid, Terminated, c);
    case _ => ServerGoing(st, e, c);
  }

  lemma {:induction false} RunGoing(trace: seq<State>, steps: seq<(Event, Choice)>, i: nat)
    requires Run(trace, steps) && i <= |steps|
    ensures AllGoing(trace[i])
  {
    if i > 0 {
      RunGoing(trace, steps, i - 1);
      RunHolds(trace, steps, i - 1);
      assert Step(trace[i - 1], steps[i - 1].0, steps[i - 1].1, trace[i]);
      StepGoing(trace[i - 1], steps[i - 1].0, steps[i - 1].1);
    }
  }

  // --- What that means ---------------------------------------------------------------------------

  /** Both ends are done with the session. */
  predicate BothDone(l: Link) {
    l.m.phase.Finished? && l.s.completed && l.s.callback == Idle
  }

  /** One of the ends, or a message on its way, has something to do. */
  predicate CanGoOn(l: Link) {
    l.down != [] || l.up != [] || l.s.callback != Idle || l.m.uploading > 0 || l.m.phase == Writing
  }

  lemma SomebodyGoesOn(l: Link)
    requires LinkInv(l) && Settled(l) && l.m.phase != Finished(Terminated)
    ensures BothDone(l) || CanGoOn(l)
  {
    if l.down == [] {
      assert Strip(l.down) == [];
    }
  }

  /** In every run a session whose node has not been lost is over at both ends, or something
      is still going to happen to it. */
  lemma NobodyIsStuck(trace: seq<State>, steps: seq<(Event, Choice)>, i: nat, sid: SessionId)
    requires Run(trace, steps) && i <= |steps| && sid in trace[i].sessions
    requires trace[i].sessions[sid].link.m.phase != Finished(Terminated)
    ensures BothDone(trace[i].sessions[sid].link) || CanGoOn(trace[i].sessions[sid].link)
  {
    RunHolds(trace, steps, i);
    RunGoing(trace, steps, i);
    assert Going(trace[i].sessions[sid].link) && LinkInv(trace[i].sessions[sid].link);
    SomebodyGoesOn(trace[i].sessions[sid].link);
  }

  /** In every run the cancellation of a session whose server is known is on its way to it,
      or has reached it or came too late. A server that it has reached does not wait for its
      compiler, never sends a result, and ends by confirming. */
  lemma CancellationArrives(trace: seq<State>, steps: seq<(Event, Choice)>, i: nat, sid: SessionId)
    requires Run(trace, steps) && i <= |steps| && sid in trace[i].sessions
    ensures var m, s, down := trace[i].sessions[sid].link.m, trace[i].sessions[sid].link.s, trace[i].sessions[sid].link.down;
      && (m.cancelled && m.sender ==> Cancel in down || s.asked || s.completed)
      && (s.asked && !s.completed ==> s.cancelPending && s.phase != Uploading && s.callback != FinishCompiler)
      && (s.asked && s.completed ==> s.log != [] && s.log[|s.log| - 1] == CancelConfirmed)
  {
    RunGoing(trace, steps, i);
    assert Going(trace[i].sessions[sid].link);
  }

  // --- Which end a session comes to -------------------------------------------------------------

  /** What a message makes of a session, and what is sent for it. */
  lemma MessageMeans(l: Link, wins: bool, compilerParts: nat, pchParts: nat)
    requires LinkInv(l) && l.up != [] && Active(l.m)
    ensures var msg, r := l.up[0], ManagerReceive(l.m, l.up[0], wins, compilerParts, pchParts);
      && (r.next.phase == Finished(Failure) <==> msg == Failed)
      && (r.next.phase == Finished(Cancelled) <==> msg == CancelConfirmed)
      && (r.next.phase == Finished(TooLate) <==> msg.Done? && !wins)
      && (r.next.phase == Finished(Success) <==> msg.Done? && wins && msg.retcode != 0)
      && (r.next.phase == Receiving <==> (msg.Done? && wins && msg.retcode == 0) || msg == Data(false))
      && (r.next.phase == Writing <==> msg == Data(true))
      && r.next.phase != Finished(Terminated)
      && (Confirm(true) in r.sent <==> msg == Done(0) && wins)
      && (Confirm(false) in r.sent <==> msg == Done(0) && !wins)
  {
    ChunksAreAFile(compilerParts);
  }

  /** All pieces of a file are sent, whichever way. */
  lemma {:induction false} EveryPieceIsSent(n: nat)
    ensures |Chunks(n)| == n + 1 && |Pieces(n)| == n + 1
    ensures forall i :: 0 <= i <= n ==> Chunks(n)[i] == Chunk(i == n) && Pieces(n)[i] == Data(i == n)
  {
    if n > 0 {
      EveryPieceIsSent(n - 1);
    }
  }

  lemma MissingFilesAreSent(m: Manager, compiler: bool, pch: bool, compilerParts: nat, pchParts: nat)
    requires m.phase == WaitMissing && !m.sender
    ensures var r := ManagerReceive(m, Missing(compiler, pch), false, compilerParts, pchParts);
      && r.ok && r.next.uploading == (if pch then pchParts + 1 else 0)
      && |Strip(r.sent)| == 1 + (if compiler then compilerParts + 1 else 0) && Strip(r.sent)[0] == TaskFiles
  {
    var r := ManagerReceive(m, Missing(compiler, pch), false, compilerParts, pchParts);
    var c := if m.cancelled then [Cancel] else [];
    var f := if compiler then Chunks(compilerParts) else [];
    EveryPieceIsSent(compilerParts);
    ChunksAreAFile(compilerParts);
    StripOne(Cancel);
    StripOne(TaskFiles);
    StripConcat(c + [TaskFiles], f);
    StripConcat(c, [TaskFiles]);
  }

  ghost predicate EndsNow(st: State, st': State, sid: SessionId, r: Result) {
    && sid in st.sessions && Active(st.sessions[sid].link.m)
    && sid in st'.sessions && st'.sessions[sid].link.m.phase == Finished(r)
  }

  lemma AnsweredPhases(st: State, sid: SessionId, c: Choice, other: SessionId)
    requires sid in st.live && CanReceive(st, sid) && other in st.sessions && other != sid
    ensures Answered(st, sid, c).sessions[other].link.m.phase == st.sessions[other].link.m.phase
  {
  }

  /** The message that ends a session says how. */
  lemma GetsEnds(st: State, sid: SessionId, c: Choice, other: SessionId, r: Result)
    requires Inv(st) && CanReceive(st, sid) && EndsNow(st, ManagerGets(st, sid, c), other, r)
    ensures other == sid && r != Terminated && r == Ends(st.sessions[sid].link.up[0], Taken(st, sid))
  {
    InvLive(st);
    if sid in st.live {
      GetsSessions(st, sid, c);
      if other != sid {
        AnsweredPhases(st, sid, c, other);
      } else {
        assert LinkInv(st.sessions[sid].link);
        MessageMeans(st.sessions[sid].link, Taken(st, sid), c.compilerParts, c.pchParts);
      }
    }
  }

  /** How a session ends by the last message it reads. */
  function Ends(msg: Up, wins: bool): Result {
    match msg
    case Failed => Failure
    case CancelConfirmed => Cancelled
    case Done(_) => if wins then Success else TooLate
    case _ => Terminated
  }

  lemma EndEnds(st: State, sid: SessionId, q: Result, c: Choice, other: SessionId, r: Result)
    requires CanEnd(st, sid) && EndsNow(st, EndSession(st, sid, q, c), other, r)
    ensures other == sid && r == q
  {
    var l := st.sessions[sid].link;
    CompleteIs(WithLink(st, sid, l.(m := l.m.(phase := Finished(q))), true), sid, q, c.viable, c.pick);
  }

  lemma ServerEndsNone(st: State, sid: SessionId, l: Link, ok: bool, other: SessionId, r: Result)
    requires sid in st.sessions && l.m.phase == st.sessions[sid].link.m.phase
    ensures !EndsNow(st, WithLink(st, sid, l, ok), other, r)
  {
  }

  lemma OthersEndNone(st: State, e: Event, c: Choice, sid: SessionId, r: Result)
    requires Inv(st) && Enabled(st, e, c) && !e.ToManager? && !e.Written? && !e.Lose?
    ensures !EndsNow(st, Apply(st, e, c), sid, r)
  {
    match e
    case ToServer(s) =>
      var l := st.sessions[s].link;
      var q := DeliverDown(l, c.needs);
      ServerEndsNone(st, s, AfterServer(l, l.down[1..], q), q.ok, sid, r);
    case Callback(s) =>
      var l := st.sessions[s].link;
      var q := ServerCallback(l.s, c.outcome, c.parts);
      ServerEndsNone(st, s, AfterServer(l, l.down, q), q.ok, sid, r);
    case Upload(s) => ServerEndsNone(st, s, UploadPiece(st.sessions[s].link), true, sid, r);
    case _ => SchedulingEndsNone(st, e, c, sid, r);
  }

  lemma SchedulingEndsNone(st: State, e: Event, c: Choice, sid: SessionId, r: Result)
    requires Inv(st) && Enabled(st, e, c) && (e.Connected? || e.NewCommand? || e.Schedule? || e.Join?)
    ensures !EndsNow(st, Apply(st, e, c), sid, r)
  {
    if e.Connected? {
      ConnectedReady(st, e.index);
      InvLive(st);
    }
  }

  /** The step is one that ends the session with `r`. */
  ghost predicate EndsBy(st: State, e: Event, sid: SessionId, r: Result) {
    match e
    case ToManager(s) =>
      && s == sid && sid in st.sessions && st.sessions[sid].link.up != [] && st.sessions[sid].task in st.tasks
      && r != Terminated && r == Ends(st.sessions[sid].link.up[0], Taken(st, sid))
    case Written(s) => s == sid && r == Success
    case Lose(s) => s == sid && r == Terminated
    case _ => false
  }

  /** A session ends by a message, which decides its result, by having its files written, or
      because its node is lost; nothing else ends a session, or another one's. */
  lemma EndsHow(st: State, e: Event, c: Choice, sid: SessionId, r: Result)
    requires Inv(st) && Enabled(st, e, c) && EndsNow(st, Apply(st, e, c), sid, r)
    ensures EndsBy(st, e, sid, r)
  {
    if e.ToManager? {
      ReadyToReceive(st, e.sid);
      GetsEnds(st, e.sid, c, sid, r);
    } else if e.Written? || e.Lose? {
      EndReady(st, e.sid);
      EndEnds(st, e.sid, if e.Written? then Success else Terminated, c, sid, r);
    } else {
      OthersEndNone(st, e, c, sid, r);
    }
  }
}
