/** The conversation between a manager's server session and a server's compile session,
    over one reliable FIFO channel each way. */
module SessionProtocol {

  datatype Down = New | Cancel | TaskFiles | Chunk(last: bool) | Confirm(yes: bool)

  datatype Up = Missing(compiler: bool, pch: bool) | Failed | Done(retcode: int) | CancelConfirmed | Data(last: bool)

  datatype Result = Success | Failure | Cancelled | TooLate | Terminated

  // --- The manager's end -----------------------------------------------------------

  datatype ManagerPhase = WaitMissing | WaitResponse | Receiving | Writing | Finished(result: Result)

  /** `sender` is set once the server's session is known; `uploading` counts the pieces of
      the precompiled header still to be sent. */
  datatype Manager = Manager(phase: ManagerPhase, sender: bool, cancelled: bool, uploading: nat, retcode: int)

  /** `ok` is false where the code would fail an assertion. */
  datatype Reaction<S, M> = Reaction(next: S, sent: seq<M>, ok: bool)

  const MANAGER_START := Manager(WaitMissing, false, false, 0, 0)

  function Chunks(n: nat): seq<Down> {
    if n == 0 then [Chunk(true)] else [Chunk(false)] + Chunks(n - 1)
  }

  function ManagerCancel(m: Manager): Reaction<Manager, Down> {
    Reaction(m.(cancelled := true), if m.sender then [Cancel] else [], true)
  }

  /** `wins` is the answer the task gives when the session registers its completion;
      `compilerParts` and `pchParts` are how many extra pieces the files are sent in. */
  function ManagerReceive(m: Manager, msg: Up, wins: bool, compilerParts: nat, pchParts: nat): Reaction<Manager, Down> {
    if msg.CancelConfirmed? then
      Reaction(m.(phase := Finished(Cancelled)), [], m.cancelled)
    else
      match m.phase
      case WaitMissing =>
        if !msg.Missing? || m.sender then Reaction(m, [], false)
        else
          Reaction(
            m.(phase := WaitResponse, sender := true, uploading := if msg.pch then pchParts + 1 else 0),
            (if m.cancelled then [Cancel] else []) + [TaskFiles] + (if msg.compiler then Chunks(compilerParts) else []),
            true)
      case WaitResponse =>
        if msg.Failed? then Reaction(m.(phase := Finished(Failure), retcode := -1), [], true)
        else if !msg.Done? then Reaction(m, [], false)
        else
          var m' := m.(retcode := msg.retcode);
          if wins then
            if msg.retcode == 0 then Reaction(m'.(phase := Receiving), [Confirm(true)], !m.cancelled)
            else Reaction(m'.(phase := Finished(Success)), [], !m.cancelled)
          else
            Reaction(m'.(phase := Finished(TooLate)), if msg.retcode == 0 then [Confirm(false)] else [], true)
      case Receiving =>
        if !msg.Data? || m.cancelled then Reaction(m, [], false)
        else Reaction(m.(phase := if msg.last then Writing else Receiving), [], true)
      case Writing => Reaction(m, [], false)
      case Finished(_) => Reaction(m, [], false)
  }

  // --- The server's end ------------------------------------------------------------

  datatype ServerPhase =
    | Absent
    | Headers(compiler: bool, pch: bool)
    | Compiler(pch: bool)
    | Pch
    | Running
    | Confirming
    | Uploading
    | Dropped
    | Broken

  /** Work handed to another thread whose completion will call back. */
  datatype Callback = Idle | WritePch | StartCompiler | FinishCompiler | SendResult

  /** `log` is everything the session has sent, `asked` whether a cancellation has ever
      reached it. A completed session is unregistered and sees no more messages. */
  datatype Server = Server(
    phase: ServerPhase, cancelPending: bool, completed: bool, callback: Callback, log: seq<Up>, asked: bool)

  const SERVER_START := Server(Absent, false, false, Idle, [], false)

  function Reply(s: Server, msgs: seq<Up>, ok: bool): Reaction<Server, Up> {
    Reaction(s.(log := s.log + msgs), msgs, ok)
  }

  function CancelSession(s: Server): Reaction<Server, Up> {
    Reply(s.(phase := Dropped, completed := true), [CancelConfirmed], s.phase != Dropped && !s.completed)
  }

  /** States that can answer a cancellation at all. */
  predicate CanBeCancelled(p: ServerPhase) {
    p == Running || p == Confirming
  }

  /** States that wait for a message. */
  predicate ExpectsMessage(p: ServerPhase) {
    !(p == Running || p == Uploading || p == Broken)
  }

  /** Entering the compiler: the run is started from a callback. */
  function Compile(s: Server): Server {
    s.(phase := Running, callback := StartCompiler)
  }

  /** `needs` are the answers the repositories give for compiler and PCH. */
  function ServerReceive(s: Server, msg: Down, needs: (bool, bool)): Reaction<Server, Up> {
    if s.completed then
      Reaction(s, [], true)
    else if msg == New then
      Reply(s.(phase := Headers(needs.0, needs.1)), [Missing(needs.0, needs.1)], s.phase == Absent)
    else if msg == Cancel then
      var s' := s.(asked := true);
      if CanBeCancelled(s.phase) && !ExpectsMessage(s.phase) then CancelSession(s')
      else Reaction(s'.(cancelPending := true), [], s.phase != Absent)
    else if s.cancelPending && CanBeCancelled(s.phase) then
      CancelSession(s)
    else
      match s.phase
      case Headers(compiler, pch) =>
        if compiler then Reaction(s.(phase := Compiler(pch)), [], msg == TaskFiles)
        else if pch then Reaction(s.(phase := Pch), [], msg == TaskFiles)
        else Reaction(Compile(s), [], msg == TaskFiles)
      case Compiler(pch) =>
        if !msg.Chunk? then Reaction(s, [], false)
        else if !msg.last then Reaction(s, [], true)
        else if pch then Reaction(s.(phase := Pch), [], true)
        else Reaction(Compile(s), [], true)
      case Pch =>
        if !msg.Chunk? then Reaction(s, [], false)
        else Reaction(if msg.last then s.(callback := WritePch) else s, [], s.callback == Idle)
      case Confirming =>
        if !msg.Confirm? then Reaction(s, [], false)
        else if msg.yes then Reaction(s.(phase := Uploading, callback := SendResult), [], true)
        else Reaction(s.(completed := true), [], true)
      case _ => Reaction(s, [], false)
  }

  datatype Outcome = Crashed | Exited(retcode: int)

  /** A callback fires. A session that was dropped meanwhile only lets the work run out. */
  function ServerCallback(s: Server, outcome: Outcome, parts: nat): Reaction<Server, Up> {
    match s.callback
    case Idle => Reaction(s, [], true)
    case WritePch => Reaction(Compile(s), [], !s.completed)
    case StartCompiler =>
      if s.cancelPending then CancelSession(s.(callback := Idle)) else Reaction(s.(callback := FinishCompiler), [], true)
    case FinishCompiler =>
      var s' := s.(callback := Idle);
      if s.phase != Running then
        Reaction(s', [], s.phase == Dropped)
      else
        (match outcome
         case Crashed => Reply(s'.(phase := Broken, completed := true), [Failed], !s.completed)
         case Exited(retcode) =>
           if retcode == 0 then Reply(s'.(phase := Confirming), [Done(0)], !s.completed)
           else Reply(s'.(completed := true), [Done(retcode)], !s.completed))
    case SendResult => Reply(s.(callback := Idle, completed := true), Pieces(parts), !s.completed)
  }

  function Pieces(n: nat): seq<Up> {
    if n == 0 then [Data(true)] else [Data(false)] + Pieces(n - 1)
  }

  // --- Both ends and the channels --------------------------------------------------

  datatype Link = Link(m: Manager, down: seq<Down>, up: seq<Up>, s: Server)

  const LINK_START := Link(MANAGER_START, [New], [], SERVER_START)

  /** The messages a server session will act on in order, cancellation aside. */
  function Strip(down: seq<Down>): seq<Down> {
    if down == [] then [] else if down[0] == Cancel then Strip(down[1..]) else [down[0]] + Strip(down[1..])
  }

  function Cancels(down: seq<Down>): nat {
    if down == [] then 0 else (if down[0] == Cancel then 1 else 0) + Cancels(down[1..])
  }

  /** Pieces of one file: all but the last say that more follows. */
  predicate WholeFile(q: seq<Down>) {
    q != [] && (forall i :: 0 <= i < |q| - 1 ==> q[i] == Chunk(false)) && q[|q| - 1] == Chunk(true)
  }

  predicate PartOfFile(q: seq<Down>) {
    forall i :: 0 <= i < |q| ==> q[i] == Chunk(false)
  }

  predicate PchOnWay(q: seq<Down>, pch: bool, uploading: nat) {
    if !pch then q == [] && uploading == 0 else if uploading > 0 then PartOfFile(q) else WholeFile(q)
  }

  /** What is on its way to a server that still needs the compiler and/or the PCH. */
  ghost predicate FilesOnWay(q: seq<Down>, compiler: bool, pch: bool, uploading: nat) {
    if compiler then
      exists k :: 0 < k <= |q| && WholeFile(q[..k]) && PchOnWay(q[k..], pch, uploading)
    else
      PchOnWay(q, pch, uploading)
  }

  predicate WholeResult(q: seq<Up>) {
    q != [] && (forall i :: 0 <= i < |q| - 1 ==> q[i] == Data(false)) && q[|q| - 1] == Data(true)
  }

  /** The server can act on everything on its way without failing an assertion. */
  ghost predicate ServerSide(l: Link) {
    var q := Strip(l.down);
    && (l.s.phase == Dropped ==> l.s.completed)
    && (l.s.phase == Broken ==> l.s.completed && l.s.callback == Idle)
    && (l.s.callback == StartCompiler ==>
         (l.s.phase == Running && !l.s.completed) || (l.s.phase == Dropped && !l.s.cancelPending))
    && (l.s.callback == FinishCompiler ==> (l.s.phase == Running && !l.s.completed) || l.s.phase == Dropped)
    && (l.s.callback == WritePch ==> l.s.phase == Pch && !l.s.completed)
    && (l.s.callback == SendResult <==> l.s.phase == Uploading && !l.s.completed)
    && (!l.s.completed ==>
      match l.s.phase
      case Absent => l.down == [New] && l.s.callback == Idle && l.m.uploading == 0
      case Headers(c, p) =>
        l.s.callback == Idle
        && ((l.down == [] && l.m.uploading == 0) || (q != [] && q[0] == TaskFiles && FilesOnWay(q[1..], c, p, l.m.uploading)))
      case Compiler(p) => l.s.callback == Idle && FilesOnWay(q, true, p, l.m.uploading)
      case Pch =>
        if l.s.callback == WritePch then q == [] && l.m.uploading == 0
        else l.s.callback == Idle && FilesOnWay(q, false, true, l.m.uploading)
      case Running => q == [] && l.m.uploading == 0 && (l.s.callback == StartCompiler || l.s.callback == FinishCompiler)
      case Confirming => l.s.callback == Idle && l.m.uploading == 0 && (q == [] || q == [Confirm(true)] || q == [Confirm(false)])
      case Uploading => q == [] && l.m.uploading == 0
      case _ => false)
  }

  /** What a manager session that has not finished can be waiting for. */
  ghost predicate ManagerSide(l: Link) {
    var q := Strip(l.down);
    match l.m.phase
    case WaitMissing =>
      && !l.m.sender && l.m.uploading == 0 && !l.s.completed
      && ((l.s.phase == Absent && l.up == [])
          || (l.s.phase.Headers? && l.up == [Missing(l.s.phase.compiler, l.s.phase.pch)] && l.down == []))
    case WaitResponse =>
      && l.m.sender
      && ((l.up == [] && !l.s.completed && q != [] && l.s.phase.Headers?)
          || (l.up == [] && !l.s.completed && (l.s.phase.Compiler? || l.s.phase == Pch || l.s.phase == Running))
          || (l.up == [Done(0)] && !l.s.completed && l.s.phase == Confirming && q == [])
          || (l.s.completed && |l.up| == 1
              && (l.up[0] == Failed || (l.up[0].Done? && l.up[0].retcode != 0) || (l.up[0] == CancelConfirmed && l.m.cancelled))))
    case Receiving =>
      && l.m.sender && !l.m.cancelled
      && ((l.up == [] && !l.s.completed && l.s.phase == Confirming && q == [Confirm(true)])
          || (l.up == [] && !l.s.completed && l.s.phase == Uploading)
          || (l.s.completed && WholeResult(l.up)))
    case Writing => l.m.sender && !l.m.cancelled && l.up == [] && l.s.completed
    case Finished(_) => true
  }

  /** A cancellation is sent at most once and only to a session the manager cancelled; the
      server confirms one only if it arrived, and says nothing afterwards. */
  ghost predicate CancelSide(l: Link) {
    && Cancels(l.down) + (if l.s.asked then 1 else 0) <= 1
    && (Cancels(l.down) > 0 || l.s.asked ==> l.m.cancelled && l.m.sender)
    && (l.s.cancelPending || l.s.phase == Dropped ==> l.s.asked)
    && FinalConfirmation(l.s)
  }

  ghost predicate FinalConfirmation(s: Server) {
    forall i :: 0 <= i < |s.log| && s.log[i] == CancelConfirmed ==> i == |s.log| - 1 && s.completed && s.asked
  }

  ghost predicate LinkInv(l: Link) {
    ServerSide(l) && ManagerSide(l) && CancelSide(l)
  }

  predicate Active(m: Manager) {
    !m.phase.Finished?
  }

  /** Sessions that may still be cancelled or fail. */
  predicate Undecided(m: Manager) {
    m.phase == WaitMissing || m.phase == WaitResponse
  }

  // --- Steps of one link -----------------------------------------------------------

  function DeliverDown(l: Link, needs: (bool, bool)): Reaction<Server, Up>
    requires l.down != []
  {
    ServerReceive(l.s, l.down[0], needs)
  }

  function AfterServer(l: Link, down: seq<Down>, r: Reaction<Server, Up>): Link {
    Link(l.m, down, l.up + r.sent, r.next)
  }

  function AfterManager(l: Link, up: seq<Up>, r: Reaction<Manager, Down>): Link {
    Link(r.next, l.down + r.sent, up, l.s)
  }

  /** One more piece of the precompiled header goes out. */
  function UploadPiece(l: Link): Link
    requires l.m.uploading > 0
  {
    Link(l.m.(uploading := l.m.uploading - 1), l.down + [Chunk(l.m.uploading == 1)], l.up, l.s)
  }

  // --- Queues ----------------------------------------------------------------------

  lemma {:induction false} StripConcat(a: seq<Down>, b: seq<Down>)
    ensures Strip(a + b) == Strip(a) + Strip(b) && Cancels(a + b) == Cancels(a) + Cancels(b)
    decreases |a|
  {
    if a == [] {
      assert a + b == b;
    } else {
      assert (a + b)[1..] == a[1..] + b;
      StripConcat(a[1..], b);
    }
  }

  lemma StripOne(d: Down)
    ensures Strip([d]) == (if d == Cancel then [] else [d]) && Cancels([d]) == if d == Cancel then 1 else 0
  {
    assert [d][1..] == [];
  }

  lemma StripHead(down: seq<Down>)
    requires down != []
    ensures down[0] == Cancel ==> Strip(down[1..]) == Strip(down) && Cancels(down) == Cancels(down[1..]) + 1
    ensures down[0] != Cancel ==>
      Strip(down) == [down[0]] + Strip(down[1..]) && Strip(down[1..]) == Strip(down)[1..] && Cancels(down) == Cancels(down[1..])
  {
  }

  lemma {:induction false} ChunksAreAFile(n: nat)
    ensures WholeFile(Chunks(n)) && Strip(Chunks(n)) == Chunks(n) && Cancels(Chunks(n)) == 0
  {
    if n == 0 {
      StripOne(Chunk(true));
    } else {
      ChunksAreAFile(n - 1);
      StripOne(Chunk(false));
      StripConcat([Chunk(false)], Chunks(n - 1));
    }
  }

  lemma {:induction false} PiecesAreAResult(n: nat)
    ensures WholeResult(Pieces(n))
    ensures forall i :: 0 <= i < |Pieces(n)| ==> Pieces(n)[i] != CancelConfirmed
  {
    if n > 0 {
      PiecesAreAResult(n - 1);
    }
  }

  lemma FirstPiece(q: seq<Down>, pch: bool, uploading: nat)
    requires FilesOnWay(q, true, pch, uploading)
    ensures q != [] && q[0].Chunk?
    ensures q[0].last ==> FilesOnWay(q[1..], false, pch, uploading)
    ensures !q[0].last ==> FilesOnWay(q[1..], true, pch, uploading)
  {
    var k :| 0 < k <= |q| && WholeFile(q[..k]) && PchOnWay(q[k..], pch, uploading);
    assert q[..k][0] == q[0];
    if k > 1 {
      assert q[1..][..k - 1] == q[..k][1..] && q[1..][k - 1..] == q[k..];
      assert WholeFile(q[1..][..k - 1]);
    }
  }

  lemma NextPchPiece(q: seq<Down>, compiler: bool, pch: bool, uploading: nat)
    requires FilesOnWay(q, compiler, pch, uploading) && uploading > 0
    ensures FilesOnWay(q + [Chunk(uploading == 1)], compiler, pch, uploading - 1)
  {
    if compiler {
      var k :| 0 < k <= |q| && WholeFile(q[..k]) && PchOnWay(q[k..], pch, uploading);
      var q' := q + [Chunk(uploading == 1)];
      assert q'[..k] == q[..k] && q'[k..] == q[k..] + [Chunk(uploading == 1)];
    }
  }

  // --- Every step keeps the invariant and fails no assertion ------------------------

  lemma StartHolds()
    ensures LinkInv(LINK_START)
  {
    StripOne(New);
  }

  lemma CancelHolds(l: Link)
    requires LinkInv(l) && Undecided(l.m) && !l.m.cancelled
    ensures LinkInv(AfterManager(l, l.up, ManagerCancel(l.m)))
  {
    StripOne(Cancel);
    StripConcat(l.down, [Cancel]);
    assert l.down + [] == l.down;
    assert Strip(l.down) + [] == Strip(l.down);
  }

  lemma UploadHolds(l: Link)
    requires LinkInv(l) && l.m.uploading > 0
    ensures LinkInv(UploadPiece(l))
  {
    var piece := Chunk(l.m.uploading == 1);
    var q := Strip(l.down);
    StripOne(piece);
    StripConcat(l.down, [piece]);
    if !l.s.completed {
      match l.s.phase
      case Headers(c, p) =>
        NextPchPiece(q[1..], c, p, l.m.uploading);
        assert (q + [piece])[1..] == q[1..] + [piece];
      case Compiler(p) => NextPchPiece(q, true, p, l.m.uploading);
      case Pch => NextPchPiece(q, false, true, l.m.uploading);
      case _ =>
    }
  }

  lemma FinishHolds(l: Link, result: Result)
    requires LinkInv(l)
    ensures LinkInv(l.(m := l.m.(phase := Finished(result))))
  {
  }

  /** The server takes the next message. */
  lemma DeliverDownHolds(l: Link, needs: (bool, bool))
    requires LinkInv(l) && l.down != []
    ensures DeliverDown(l, needs).ok
    ensures LinkInv(AfterServer(l, l.down[1..], DeliverDown(l, needs)))
  {
    StripHead(l.down);
    assert l.up + [] == l.up && l.s.log + [] == l.s.log;
    if !l.s.completed {
      if l.down[0] == Cancel {
        DeliverCancelHolds(l, needs);
      } else if l.s.phase.Headers? {
        DeliverHeadersHolds(l, needs);
      } else if l.s.phase.Compiler? {
        DeliverPieceHolds(l, needs);
      } else if l.s.phase == Pch {
        DeliverPchPieceHolds(l, needs);
      } else {
        DeliverOtherHolds(l, needs);
      }
    }
  }

  lemma DeliverCancelHolds(l: Link, needs: (bool, bool))
    requires LinkInv(l) && l.down != [] && !l.s.completed && l.down[0] == Cancel
    ensures DeliverDown(l, needs).ok
    ensures LinkInv(AfterServer(l, l.down[1..], DeliverDown(l, needs)))
  {
    StripHead(l.down);
    assert l.up + [] == l.up;
  }

  lemma DeliverHeadersHolds(l: Link, needs: (bool, bool))
    requires LinkInv(l) && l.down != [] && !l.s.completed && l.down[0] != Cancel && l.s.phase.Headers?
    ensures DeliverDown(l, needs).ok
    ensures LinkInv(AfterServer(l, l.down[1..], DeliverDown(l, needs)))
  {
    StripHead(l.down);
    assert l.up + [] == l.up;
  }

  lemma DeliverPieceHolds(l: Link, needs: (bool, bool))
    requires LinkInv(l) && l.down != [] && !l.s.completed && l.down[0] != Cancel && l.s.phase.Compiler?
    ensures DeliverDown(l, needs).ok
    ensures LinkInv(AfterServer(l, l.down[1..], DeliverDown(l, needs)))
  {
    var q := Strip(l.down);
    StripHead(l.down);
    assert l.up + [] == l.up;
    FirstPiece(q, l.s.phase.pch, l.m.uploading);
  }

  lemma DeliverPchPieceHolds(l: Link, needs: (bool, bool))
    requires LinkInv(l) && l.down != [] && !l.s.completed && l.down[0] != Cancel && l.s.phase == Pch
    ensures DeliverDown(l, needs).ok
    ensures LinkInv(AfterServer(l, l.down[1..], DeliverDown(l, needs)))
  {
    var q := Strip(l.down);
    StripHead(l.down);
    assert l.up + [] == l.up;
    assert q[0] == l.down[0] && l.s.callback == Idle;
    assert q[0].Chunk?;
    assert |q| > 1 ==> q[|q| - 1] == q[1..][|q| - 2];
  }

  lemma DeliverOtherHolds(l: Link, needs: (bool, bool))
    requires LinkInv(l) && l.down != [] && !l.s.completed && l.down[0] != Cancel
    requires !(l.s.phase.Headers? || l.s.phase.Compiler? || l.s.phase == Pch)
    ensures DeliverDown(l, needs).ok
    ensures LinkInv(AfterServer(l, l.down[1..], DeliverDown(l, needs)))
  {
    var q := Strip(l.down);
    StripHead(l.down);
    assert l.up + [] == l.up && l.s.log + [] == l.s.log;
    assert q != [] && q[0] == l.down[0];
    if l.s.phase == Absent {
      assert Strip(l.down[1..]) == [];
    } else {
      assert l.s.phase == Confirming && l.down[0].Confirm? && Strip(l.down[1..]) == [];
      assert l.s.cancelPending ==> l.m.cancelled;
    }
  }

  /** Work handed out by the server finishes. */
  lemma CallbackHolds(l: Link, outcome: Outcome, parts: nat)
    requires LinkInv(l)
    ensures ServerCallback(l.s, outcome, parts).ok
    ensures LinkInv(AfterServer(l, l.down, ServerCallback(l.s, outcome, parts)))
  {
    match l.s.callback
    case Idle => assert l.up + [] == l.up;
    case WritePch => WritePchHolds(l, outcome, parts);
    case StartCompiler => StartCompilerHolds(l, outcome, parts);
    case FinishCompiler => FinishCompilerHolds(l, outcome, parts);
    case SendResult => SendResultHolds(l, outcome, parts);
  }

  lemma WritePchHolds(l: Link, outcome: Outcome, parts: nat)
    requires LinkInv(l) && l.s.callback == WritePch
    ensures ServerCallback(l.s, outcome, parts).ok
    ensures LinkInv(AfterServer(l, l.down, ServerCallback(l.s, outcome, parts)))
  {
    assert l.up + [] == l.up;
  }

  lemma StartCompilerHolds(l: Link, outcome: Outcome, parts: nat)
    requires LinkInv(l) && l.s.callback == StartCompiler
    ensures ServerCallback(l.s, outcome, parts).ok
    ensures LinkInv(AfterServer(l, l.down, ServerCallback(l.s, outcome, parts)))
  {
    assert l.up + [] == l.up;
  }

  lemma FinishCompilerHolds(l: Link, outcome: Outcome, parts: nat)
    requires LinkInv(l) && l.s.callback == FinishCompiler
    ensures ServerCallback(l.s, outcome, parts).ok
    ensures LinkInv(AfterServer(l, l.down, ServerCallback(l.s, outcome, parts)))
  {
    assert l.up + [] == l.up;
  }

  lemma SendResultHolds(l: Link, outcome: Outcome, parts: nat)
    requires LinkInv(l) && l.s.callback == SendResult
    ensures ServerCallback(l.s, outcome, parts).ok
    ensures LinkInv(AfterServer(l, l.down, ServerCallback(l.s, outcome, parts)))
  {
    PiecesAreAResult(parts);
    assert [] + Pieces(parts) == Pieces(parts);
  }

  /** The manager takes the next message for a session that is still registered. */
  lemma DeliverUpHolds(l: Link, wins: bool, compilerParts: nat, pchParts: nat)
    requires LinkInv(l) && l.up != [] && Active(l.m)
    requires wins ==> !l.m.cancelled
    ensures var r := ManagerReceive(l.m, l.up[0], wins, compilerParts, pchParts);
      r.ok && LinkInv(AfterManager(l, l.up[1..], r))
  {
    var r := ManagerReceive(l.m, l.up[0], wins, compilerParts, pchParts);
    StripConcat(l.down, r.sent);
    assert l.down + [] == l.down && Strip(l.down) + [] == Strip(l.down);
    match l.m.phase
    case WaitMissing => FirstReplyHolds(l, wins, compilerParts, pchParts);
    case WaitResponse =>
      StripOne(Confirm(true));
      StripOne(Confirm(false));
    case Receiving =>
    case Writing =>
  }

  lemma FirstReplyHolds(l: Link, wins: bool, compilerParts: nat, pchParts: nat)
    requires LinkInv(l) && l.up != [] && l.m.phase == WaitMissing
    ensures var r := ManagerReceive(l.m, l.up[0], wins, compilerParts, pchParts);
      r.ok && LinkInv(AfterManager(l, l.up[1..], r))
  {
    var msg := l.up[0];
    var r := ManagerReceive(l.m, msg, wins, compilerParts, pchParts);
    FirstReplyQueue(l.m.cancelled, msg.compiler, compilerParts);
    assert l.down + r.sent == r.sent && l.up[1..] == [];
    FirstFiles(msg.compiler, compilerParts, msg.pch, r.next.uploading);
  }

  lemma FirstReplyQueue(cancelled: bool, compiler: bool, parts: nat)
    ensures var files := if compiler then Chunks(parts) else [];
      var sent := (if cancelled then [Cancel] else []) + [TaskFiles] + files;
      && Strip(sent) == [TaskFiles] + files && Strip(sent)[1..] == files
      && Cancels(sent) == (if cancelled then 1 else 0)
  {
    var cancel := if cancelled then [Cancel] else [];
    var files := if compiler then Chunks(parts) else [];
    StripOne(Cancel);
    StripOne(TaskFiles);
    ChunksAreAFile(parts);
    StripConcat(cancel + [TaskFiles], files);
    StripConcat(cancel, [TaskFiles]);
    assert Strip(files) == files && Cancels(files) == 0;
    assert ([TaskFiles] + files)[1..] == files;
  }

  lemma FirstFiles(compiler: bool, parts: nat, pch: bool, uploading: nat)
    requires pch <==> uploading > 0
    ensures FilesOnWay(if compiler then Chunks(parts) else [], compiler, pch, uploading)
  {
    if compiler {
      var files := Chunks(parts);
      ChunksAreAFile(parts);
      assert files[..|files|] == files && files[|files|..] == [];
    }
  }
}
