/** The server's store of headers for one client machine: sessions list, compare, receive
    and store headers in any interleaving of their atomic steps. */
module HeaderRepositories {

  type Key = nat
  type Content = nat
  type Sum = nat
  type SessionId = nat

  /** What the dictionary of checksums says about a shared header. */
  datatype Entry = InProgress | Stored(sum: Sum)

  /** Where a session stands with the header it is working on. */
  datatype Stage = Resting | Local(key: Key) | Share(key: Key, sum: Sum) | Publish(key: Key, sum: Sum)

  datatype Phase = Comparing | Waiting | Preparing

  /** `listed` are the shared headers the task needs with their checksums, `left` those not
      compared yet, `needed` those reported missing, `files` what has been received and is
      still to be stored, `temp` the session's own map. */
  datatype Session = Session(
    phase: Phase, listed: map<Key, Sum>, left: set<Key>, needed: map<Key, Sum>, files: map<Key, Content>, work: Stage,
    temp: map<Key, Content>)

  datatype State = State(checksums: map<Key, Entry>, global: map<Key, Content>, sessions: map<SessionId, Session>)

  datatype Event =
    | Open(sid: SessionId, listed: map<Key, Sum>)
    | Compare(sid: SessionId, key: Key)
    | Report(sid: SessionId)
    | Deliver(sid: SessionId, files: map<Key, Content>)
    | Take(sid: SessionId, key: Key)
    | Proceed(sid: SessionId)
    | Complete(sid: SessionId)

  // --- Steps -----------------------------------------------------------------------------

  predicate Enabled(sumOf: Content -> Sum, st: State, e: Event) {
    match e
    case Open(sid, _) => sid !in st.sessions
    case Compare(sid, key) => sid in st.sessions && MayCompare(st.sessions[sid], key)
    case Report(sid) => sid in st.sessions && st.sessions[sid].phase == Comparing && st.sessions[sid].left == {}
    case Deliver(sid, files) => sid in st.sessions && MayDeliver(sumOf, st.sessions[sid], files)
    case Take(sid, key) => sid in st.sessions && MayTake(st.sessions[sid], key)
    case Proceed(sid) => sid in st.sessions && MayProceed(st.sessions[sid])
    case Complete(sid) => sid in st.sessions && st.sessions[sid].work == Resting
  }

  predicate MayCompare(s: Session, key: Key) {
    s.phase == Comparing && key in s.left && key in s.listed
  }

  /** The manager sends what was reported missing, and the content that it listed. */
  predicate MayDeliver(sumOf: Content -> Sum, s: Session, files: map<Key, Content>) {
    && s.phase == Waiting && s.needed.Keys <= files.Keys
    && forall k :: k in files && k in s.listed ==> sumOf(files[k]) == s.listed[k]
  }

  predicate MayTake(s: Session, key: Key) {
    s.phase == Preparing && s.work == Resting && key in s.files
  }

  predicate MayProceed(s: Session) {
    s.work != Resting && s.work.key in s.files
  }

  function With(st: State, sid: SessionId, s: Session): State {
    st.(sessions := st.sessions[sid := s])
  }

  /** Under the lock: the first session to bring a header stores it for all of them; one
      that finds another content, or one still being stored, keeps its own. */
  function CreateShared(st: State, sid: SessionId, s: Session, key: Key, sum: Sum): State {
    if key !in st.checksums then
      With(st.(checksums := st.checksums[key := InProgress]), sid, s.(work := Share(key, sum)))
    else if st.checksums[key] != Stored(sum) then With(st, sid, s.(work := Local(key)))
    else With(st, sid, s.(files := s.files - {key}))
  }

  /** The next atomic step of storing a header. */
  function Proceeded(st: State, sid: SessionId, s: Session): State
    requires MayProceed(s)
  {
    match s.work
    case Local(key) =>
      With(st, sid, s.(temp := s.temp[key := s.files[key]], files := s.files - {key}, work := Resting))
    case Share(key, sum) => With(st.(global := st.global[key := s.files[key]]), sid, s.(work := Publish(key, sum)))
    case Publish(key, sum) =>
      With(st.(checksums := st.checksums[key := Stored(sum)]), sid, s.(files := s.files - {key}, work := Resting))
  }

  function Apply(sumOf: Content -> Sum, st: State, e: Event): State
    requires Enabled(sumOf, st, e)
  {
    match e
    case Open(sid, listed) => With(st, sid, Session(Comparing, listed, listed.Keys, map[], map[], Resting, map[]))
    case Compare(sid, key) =>
      var s := st.sessions[sid];
      var missing := key !in st.checksums || st.checksums[key] != Stored(s.listed[key]);
      With(st, sid, s.(left := s.left - {key}, needed := if missing then s.needed[key := s.listed[key]] else s.needed))
    case Report(sid) => With(st, sid, st.sessions[sid].(phase := Waiting))
    case Deliver(sid, files) => With(st, sid, st.sessions[sid].(phase := Preparing, files := files))
    case Take(sid, key) =>
      var s := st.sessions[sid];
      if key in s.needed then CreateShared(st, sid, s, key, s.needed[key])
      else With(st, sid, s.(work := Local(key)))
    case Proceed(sid) => Proceeded(st, sid, st.sessions[sid])
    case Complete(sid) => st.(sessions := st.sessions - {sid})
  }

  // --- The invariant -----------------------------------------------------------------------

  predicate Storing(w: Stage, key: Key) {
    (w.Share? || w.Publish?) && w.key == key
  }

  predicate Has(sumOf: Content -> Sum, m: map<Key, Content>, key: Key, sum: Sum) {
    key in m && sumOf(m[key]) == sum
  }

  predicate IsStored(st: State, key: Key, sum: Sum) {
    key in st.checksums && st.checksums[key] == Stored(sum)
  }

  ghost predicate StoreOk(sumOf: Content -> Sum, st: State) {
    forall k {:trigger st.checksums[k]} ::
      k in st.checksums && st.checksums[k].Stored? ==> Has(sumOf, st.global, k, st.checksums[k].sum)
  }

  /** A header the session is through with is found with the listed content. */
  predicate Settled(sumOf: Content -> Sum, st: State, s: Session, key: Key, sum: Sum) {
    Has(sumOf, s.temp, key, sum) || (key !in s.temp && IsStored(st, key, sum))
  }

  ghost predicate SessionOk(sumOf: Content -> Sum, st: State, s: Session) {
    && ListsOk(sumOf, s) && StageOk(st, s)
    && forall k {:trigger k in s.listed} :: k in s.listed ==> ListedOk(sumOf, st, s, k)
  }

  ghost predicate ListsOk(sumOf: Content -> Sum, s: Session) {
    && s.left <= s.listed.Keys
    && (forall k {:trigger k in s.needed} :: k in s.needed ==> k in s.listed && s.needed[k] == s.listed[k] && k !in s.left)
    && (s.phase != Comparing ==> s.left == {})
    && (s.phase != Preparing ==> s.files == map[] && s.temp == map[] && s.work == Resting)
    && (forall k {:trigger k in s.files} :: k in s.files ==>
          k !in s.temp && (k in s.listed ==> sumOf(s.files[k]) == s.listed[k]))
  }

  ghost predicate StageOk(st: State, s: Session) {
    s.work != Resting ==>
      && s.work.key in s.files
      && (Storing(s.work, s.work.key) ==>
            && s.work.key in s.listed && s.work.sum == s.listed[s.work.key]
            && s.work.key in st.checksums && st.checksums[s.work.key] == InProgress)
      && (s.work.Publish? ==> s.work.key in st.global && st.global[s.work.key] == s.files[s.work.key])
  }

  predicate ListedOk(sumOf: Content -> Sum, st: State, s: Session, k: Key)
    requires k in s.listed
  {
    Settled(sumOf, st, s, k, s.listed[k]) || k in s.left || (s.phase != Preparing && k in s.needed) || k in s.files
  }

  /** No two sessions store the same shared header. */
  ghost predicate Alone(st: State) {
    forall a, b {:trigger st.sessions[a], st.sessions[b]} :: a in st.sessions && b in st.sessions && a != b ==>
      Apart(st.sessions[a], st.sessions[b])
  }

  predicate Apart(a: Session, b: Session) {
    a.work != Resting && b.work != Resting && Storing(a.work, a.work.key) && Storing(b.work, b.work.key) ==> a.work.key != b.work.key
  }

  ghost predicate Inv(sumOf: Content -> Sum, st: State) {
    && StoreOk(sumOf, st) && Alone(st)
    && forall sid {:trigger st.sessions[sid]} :: sid in st.sessions ==> SessionOk(sumOf, st, st.sessions[sid])
  }

  /** The session has stored everything it received. */
  predicate Prepared(s: Session) {
    s.phase == Preparing && s.files == map[] && s.work == Resting
  }

  /** The maps a compiler is given: the session's own over the shared one. */
  function Resolve(st: State, s: Session, key: Key): Content
    requires key in s.temp || key in st.global
  {
    if key in s.temp then s.temp[key] else st.global[key]
  }

  lemma PreparedResolves(sumOf: Content -> Sum, st: State, sid: SessionId, key: Key)
    requires Inv(sumOf, st) && sid in st.sessions && Prepared(st.sessions[sid]) && key in st.sessions[sid].listed
    ensures var s := st.sessions[sid];
      && (key in s.temp || key in st.global)
      && sumOf(Resolve(st, s, key)) == s.listed[key]
  {
    var s := st.sessions[sid];
    assert Settled(sumOf, st, s, key, s.listed[key]);
    if key !in s.temp {
      assert st.checksums[key] == Stored(s.listed[key]);
    }
  }

  // --- Every step keeps it -----------------------------------------------------------------

  /** What a step may change about the store while another session is at `s`: stored headers
      stay, and so does the header that session is storing. */
  ghost predicate Spares(st: State, st': State, s: Session) {
    && (forall k, c {:trigger IsStored(st', k, c)} :: IsStored(st, k, c) ==> IsStored(st', k, c))
    && (s.work != Resting && Storing(s.work, s.work.key) ==>
          && (s.work.key in st.checksums && st.checksums[s.work.key] == InProgress ==>
                s.work.key in st'.checksums && st'.checksums[s.work.key] == InProgress)
          && (s.work.key in st.global ==> s.work.key in st'.global && st'.global[s.work.key] == st.global[s.work.key]))
  }

  lemma SparedOk(sumOf: Content -> Sum, st: State, st': State, s: Session)
    requires SessionOk(sumOf, st, s) && Spares(st, st', s)
    ensures SessionOk(sumOf, st', s)
  {
    forall k | k in s.listed
      ensures ListedOk(sumOf, st', s, k)
    {
      assert ListedOk(sumOf, st, s, k);
      assert IsStored(st, k, s.listed[k]) ==> IsStored(st', k, s.listed[k]);
    }
  }

  /** One session takes a step. */
  lemma OneStepHolds(sumOf: Content -> Sum, st: State, st': State, sid: SessionId, s: Session)
    requires Inv(sumOf, st) && st' == With(st', sid, s) && st'.sessions == st.sessions[sid := s]
    requires StoreOk(sumOf, st') && SessionOk(sumOf, st', s)
    requires forall o {:trigger st.sessions[o]} :: o in st.sessions && o != sid ==> Spares(st, st', st.sessions[o]) && Apart(s, st.sessions[o])
    ensures Inv(sumOf, st')
  {
    forall o | o in st'.sessions
      ensures SessionOk(sumOf, st', st'.sessions[o])
    {
      if o != sid {
        SparedOk(sumOf, st, st', st.sessions[o]);
      }
    }
  }

  lemma OpenHolds(sumOf: Content -> Sum, st: State, sid: SessionId, listed: map<Key, Sum>)
    requires Inv(sumOf, st) && Enabled(sumOf, st, Open(sid, listed))
    ensures Inv(sumOf, Apply(sumOf, st, Open(sid, listed)))
  {
    var s := Session(Comparing, listed, listed.Keys, map[], map[], Resting, map[]);
    OneStepHolds(sumOf, st, Apply(sumOf, st, Open(sid, listed)), sid, s);
  }

  lemma CompareHolds(sumOf: Content -> Sum, st: State, sid: SessionId, key: Key)
    requires Inv(sumOf, st) && Enabled(sumOf, st, Compare(sid, key))
    ensures Inv(sumOf, Apply(sumOf, st, Compare(sid, key)))
  {
    var st' := Apply(sumOf, st, Compare(sid, key));
    var s, s' := st.sessions[sid], st'.sessions[sid];
    forall k | k in s'.listed
      ensures ListedOk(sumOf, st', s', k)
    {
      assert ListedOk(sumOf, st, s, k);
    }
    OneStepHolds(sumOf, st, st', sid, s');
  }

  lemma ReportHolds(sumOf: Content -> Sum, st: State, sid: SessionId)
    requires Inv(sumOf, st) && Enabled(sumOf, st, Report(sid))
    ensures Inv(sumOf, Apply(sumOf, st, Report(sid)))
  {
    var st' := Apply(sumOf, st, Report(sid));
    var s, s' := st.sessions[sid], st'.sessions[sid];
    assert forall k :: k in s.listed ==> ListedOk(sumOf, st, s, k);
    OneStepHolds(sumOf, st, st', sid, s');
  }

  lemma DeliverHolds(sumOf: Content -> Sum, st: State, sid: SessionId, files: map<Key, Content>)
    requires Inv(sumOf, st) && Enabled(sumOf, st, Deliver(sid, files))
    ensures Inv(sumOf, Apply(sumOf, st, Deliver(sid, files)))
  {
    var st' := Apply(sumOf, st, Deliver(sid, files));
    var s, s' := st.sessions[sid], st'.sessions[sid];
    assert forall k :: k in s.listed ==> ListedOk(sumOf, st, s, k);
    OneStepHolds(sumOf, st, st', sid, s');
  }

  /** A step that leaves the store alone. */
  lemma OwnStepHolds(sumOf: Content -> Sum, st: State, sid: SessionId, s: Session)
    requires Inv(sumOf, st) && sid in st.sessions && SessionOk(sumOf, st, s)
    requires s.work == st.sessions[sid].work || !s.work.Share?
    requires s.work == st.sessions[sid].work || !s.work.Publish?
    ensures Inv(sumOf, With(st, sid, s))
  {
    var st' := With(st, sid, s);
    forall o | o in st.sessions && o != sid
      ensures Spares(st, st', st.sessions[o]) && Apart(s, st.sessions[o])
    {
      assert Apart(st.sessions[sid], st.sessions[o]);
    }
    SameStoreOk(sumOf, st, st', s);
    OneStepHolds(sumOf, st, st', sid, s);
  }

  lemma SameStoreOk(sumOf: Content -> Sum, st: State, st': State, s: Session)
    requires SessionOk(sumOf, st, s) && st'.checksums == st.checksums && st'.global == st.global
    ensures SessionOk(sumOf, st', s)
  {
    forall k | k in s.listed
      ensures ListedOk(sumOf, st', s, k)
    {
      assert ListedOk(sumOf, st, s, k);
    }
  }

  /** The session starts on a header that it will keep for itself. */
  lemma TakeLocalHolds(sumOf: Content -> Sum, st: State, sid: SessionId, key: Key)
    requires Inv(sumOf, st) && sid in st.sessions && MayTake(st.sessions[sid], key)
    ensures Inv(sumOf, With(st, sid, st.sessions[sid].(work := Local(key))))
  {
    var s, s' := st.sessions[sid], st.sessions[sid].(work := Local(key));
    forall k | k in s'.listed
      ensures ListedOk(sumOf, st, s', k)
    {
      assert ListedOk(sumOf, st, s, k);
    }
    OwnStepHolds(sumOf, st, sid, s');
  }

  /** The header is stored already. */
  lemma TakeStoredHolds(sumOf: Content -> Sum, st: State, sid: SessionId, key: Key)
    requires Inv(sumOf, st) && sid in st.sessions && MayTake(st.sessions[sid], key)
    requires key in st.sessions[sid].needed && IsStored(st, key, st.sessions[sid].needed[key])
    requires key !in st.sessions[sid].temp
    ensures Inv(sumOf, With(st, sid, st.sessions[sid].(files := st.sessions[sid].files - {key})))
  {
    var s, s' := st.sessions[sid], st.sessions[sid].(files := st.sessions[sid].files - {key});
    forall k | k in s'.listed
      ensures ListedOk(sumOf, st, s', k)
    {
      assert ListedOk(sumOf, st, s, k);
    }
    OwnStepHolds(sumOf, st, sid, s');
  }

  /** The session is the first to bring the header. */
  lemma TakeShareHolds(sumOf: Content -> Sum, st: State, sid: SessionId, key: Key)
    requires Inv(sumOf, st) && sid in st.sessions && MayTake(st.sessions[sid], key)
    requires key in st.sessions[sid].needed && key !in st.checksums
    ensures var s := st.sessions[sid].(work := Share(key, st.sessions[sid].needed[key]));
      Inv(sumOf, With(st.(checksums := st.checksums[key := InProgress]), sid, s))
  {
    var s := st.sessions[sid];
    var s' := s.(work := Share(key, s.needed[key]));
    var st' := With(st.(checksums := st.checksums[key := InProgress]), sid, s');
    forall k | k in s'.listed
      ensures ListedOk(sumOf, st', s', k)
    {
      assert ListedOk(sumOf, st, s, k);
      assert IsStored(st, k, s.listed[k]) ==> IsStored(st', k, s.listed[k]);
    }
    forall o | o in st.sessions && o != sid
      ensures Spares(st, st', st.sessions[o]) && Apart(s', st.sessions[o])
    {
      assert StageOk(st, st.sessions[o]);
    }
    OneStepHolds(sumOf, st, st', sid, s');
  }

  lemma TakeHolds(sumOf: Content -> Sum, st: State, sid: SessionId, key: Key)
    requires Inv(sumOf, st) && Enabled(sumOf, st, Take(sid, key))
    ensures Inv(sumOf, Apply(sumOf, st, Take(sid, key)))
  {
    var s := st.sessions[sid];
    if key !in s.needed || (key in st.checksums && st.checksums[key] != Stored(s.needed[key])) {
      TakeLocalHolds(sumOf, st, sid, key);
    } else if key in st.checksums {
      NotStoredTwice(sumOf, st, sid, key);
      TakeStoredHolds(sumOf, st, sid, key);
    } else {
      TakeShareHolds(sumOf, st, sid, key);
    }
  }

  /** What is still to be stored has not been stored by this session before. */
  lemma NotStoredTwice(sumOf: Content -> Sum, st: State, sid: SessionId, key: Key)
    requires Inv(sumOf, st) && sid in st.sessions && key in st.sessions[sid].files
    ensures key !in st.sessions[sid].temp
  {
  }

  lemma KeepHolds(sumOf: Content -> Sum, st: State, sid: SessionId, key: Key)
    requires Inv(sumOf, st) && sid in st.sessions && st.sessions[sid].work == Local(key) && key in st.sessions[sid].files
    ensures Inv(sumOf, Proceeded(st, sid, st.sessions[sid]))
  {
    var s := st.sessions[sid];
    var s' := s.(temp := s.temp[key := s.files[key]], files := s.files - {key}, work := Resting);
    forall k | k in s'.listed
      ensures ListedOk(sumOf, st, s', k)
    {
      assert ListedOk(sumOf, st, s, k);
    }
    OwnStepHolds(sumOf, st, sid, s');
  }

  lemma WriteHolds(sumOf: Content -> Sum, st: State, sid: SessionId, key: Key, sum: Sum)
    requires Inv(sumOf, st) && sid in st.sessions && st.sessions[sid].work == Share(key, sum) && key in st.sessions[sid].files
    ensures Inv(sumOf, Proceeded(st, sid, st.sessions[sid]))
  {
    var s := st.sessions[sid];
    var s' := s.(work := Publish(key, sum));
    var st' := With(st.(global := st.global[key := s.files[key]]), sid, s');
    assert StageOk(st, s);
    forall k | k in s'.listed
      ensures ListedOk(sumOf, st', s', k)
    {
      assert ListedOk(sumOf, st, s, k);
    }
    forall o | o in st.sessions && o != sid
      ensures Spares(st, st', st.sessions[o]) && Apart(s', st.sessions[o])
    {
      assert Apart(s, st.sessions[o]);
    }
    OneStepHolds(sumOf, st, st', sid, s');
  }

  lemma PublishHolds(sumOf: Content -> Sum, st: State, sid: SessionId, key: Key, sum: Sum)
    requires Inv(sumOf, st) && sid in st.sessions && st.sessions[sid].work == Publish(key, sum) && key in st.sessions[sid].files
    ensures Inv(sumOf, Proceeded(st, sid, st.sessions[sid]))
  {
    var s := st.sessions[sid];
    var s' := s.(files := s.files - {key}, work := Resting);
    var st' := With(st.(checksums := st.checksums[key := Stored(sum)]), sid, s');
    assert StageOk(st, s);
    NotStoredTwice(sumOf, st, sid, key);
    forall k | k in s'.listed
      ensures ListedOk(sumOf, st', s', k)
    {
      assert ListedOk(sumOf, st, s, k);
      assert IsStored(st, k, s.listed[k]) ==> IsStored(st', k, s.listed[k]);
    }
    forall o | o in st.sessions && o != sid
      ensures Spares(st, st', st.sessions[o]) && Apart(s', st.sessions[o])
    {
      assert Apart(s, st.sessions[o]);
    }
    OneStepHolds(sumOf, st, st', sid, s');
  }

  lemma ProceedHolds(sumOf: Content -> Sum, st: State, sid: SessionId)
    requires Inv(sumOf, st) && Enabled(sumOf, st, Proceed(sid))
    ensures Inv(sumOf, Apply(sumOf, st, Proceed(sid)))
  {
    match st.sessions[sid].work
    case Local(key) => KeepHolds(sumOf, st, sid, key);
    case Share(key, sum) => WriteHolds(sumOf, st, sid, key, sum);
    case Publish(key, sum) => PublishHolds(sumOf, st, sid, key, sum);
  }

  lemma StepHolds(sumOf: Content -> Sum, st: State, e: Event)
    requires Inv(sumOf, st) && Enabled(sumOf, st, e)
    ensures Inv(sumOf, Apply(sumOf, st, e))
  {
    match e
    case Open(sid, listed) => OpenHolds(sumOf, st, sid, listed);
    case Compare(sid, key) => CompareHolds(sumOf, st, sid, key);
    case Report(sid) => ReportHolds(sumOf, st, sid);
    case Deliver(sid, files) => DeliverHolds(sumOf, st, sid, files);
    case Take(sid, key) => TakeHolds(sumOf, st, sid, key);
    case Proceed(sid) => ProceedHolds(sumOf, st, sid);
    case Complete(sid) =>
      var st' := Apply(sumOf, st, e);
      forall o | o in st'.sessions
        ensures SessionOk(sumOf, st', st'.sessions[o])
      {
        SparedOk(sumOf, st, st', st.sessions[o]);
      }
  }

  // --- Runs ----------------------------------------------------------------------------------

  ghost predicate Run(sumOf: Content -> Sum, trace: seq<State>, events: seq<Event>) {
    && |trace| == |events| + 1 && trace[0] == State(map[], map[], map[])
    && forall i :: 0 <= i < |events| ==>
        Enabled(sumOf, trace[i], events[i]) && trace[i + 1] == Apply(sumOf, trace[i], events[i])
  }

  lemma {:induction false} RunHolds(sumOf: Content -> Sum, trace: seq<State>, events: seq<Event>, i: nat)
    requires Run(sumOf, trace, events) && i <= |events|
    ensures Inv(sumOf, trace[i])
  {
    if i > 0 {
      RunHolds(sumOf, trace, events, i - 1);
      StepHolds(sumOf, trace[i - 1], events[i - 1]);
    }
  }

  /** However the sessions interleave, one that has stored what it received finds every
      header it listed with the listed content. */
  lemma CompilesWhatItListed(sumOf: Content -> Sum, trace: seq<State>, events: seq<Event>, i: nat, sid: SessionId, key: Key)
    requires Run(sumOf, trace, events) && i <= |events|
    requires sid in trace[i].sessions && Prepared(trace[i].sessions[sid]) && key in trace[i].sessions[sid].listed
    ensures var s := trace[i].sessions[sid];
      && (key in s.temp || key in trace[i].global)
      && sumOf(Resolve(trace[i], s, key)) == s.listed[key]
  {
    RunHolds(sumOf, trace, events, i);
    PreparedResolves(sumOf, trace[i], sid, key);
  }

  /** A header once stored keeps its checksum and its content for good. */
  lemma StoredForGood(sumOf: Content -> Sum, trace: seq<State>, events: seq<Event>, i: nat, key: Key, sum: Sum)
    requires Run(sumOf, trace, events) && i < |events| && IsStored(trace[i], key, sum)
    ensures IsStored(trace[i + 1], key, sum)
    ensures key in trace[i].global && key in trace[i + 1].global && trace[i + 1].global[key] == trace[i].global[key]
  {
    RunHolds(sumOf, trace, events, i);
    var st, e := trace[i], events[i];
    assert st.checksums[key] == Stored(sum);
    if e.Proceed? {
      assert StageOk(st, st.sessions[e.sid]);
    }
  }

  // --- What is asked for, and where it goes ----------------------------------------------------

  /** A comparison asks for a header exactly if it is not stored with the listed checksum. */
  lemma ComparedExactly(sumOf: Content -> Sum, st: State, sid: SessionId, key: Key)
    requires Inv(sumOf, st) && Enabled(sumOf, st, Compare(sid, key))
    ensures var s, s' := st.sessions[sid], Apply(sumOf, st, Compare(sid, key)).sessions[sid];
      && (key in s'.needed <==> !IsStored(st, key, s.listed[key]))
      && (key in s'.needed ==> s'.needed[key] == s.listed[key])
      && forall k :: k != key ==> (k in s'.needed <==> k in s.needed)
  {
    assert key in st.sessions[sid].left;
  }

  /** The session has been there from the i-th state to the j-th. */
  predicate Stays(trace: seq<State>, sid: SessionId, i: nat, j: nat) {
    i <= j < |trace| && forall k :: i <= k <= j ==> sid in trace[k].sessions
  }

  ghost predicate Steps(sumOf: Content -> Sum, st: State, e: Event, st': State) {
    Enabled(sumOf, st, e) && st' == Apply(sumOf, st, e)
  }

  lemma RunSteps(sumOf: Content -> Sum, trace: seq<State>, events: seq<Event>, k: nat)
    requires Run(sumOf, trace, events) && k < |events|
    ensures Steps(sumOf, trace[k], events[k], trace[k + 1])
  {
  }

  /** A session keeps its list, and what it asks for changes by a comparison of its own only. */
  lemma StepFrame(sumOf: Content -> Sum, st: State, e: Event, st': State, sid: SessionId)
    requires Steps(sumOf, st, e, st') && sid in st.sessions && sid in st'.sessions
    ensures st'.sessions[sid].listed == st.sessions[sid].listed
    ensures !e.Compare? || e.sid != sid ==> st'.sessions[sid].needed == st.sessions[sid].needed
  {
    if e.sid != sid {
      OtherStays(sumOf, st, e, sid);
    }
  }

  /** A step asks for no header but one that is not stored as listed. */
  lemma StepAsks(sumOf: Content -> Sum, st: State, e: Event, st': State, sid: SessionId, key: Key)
    requires Inv(sumOf, st) && Steps(sumOf, st, e, st') && sid in st.sessions && sid in st'.sessions
    requires key in st.sessions[sid].listed && IsStored(st, key, st.sessions[sid].listed[key]) && key !in st.sessions[sid].needed
    ensures key !in st'.sessions[sid].needed
  {
    if e.Compare? && e.sid == sid {
      ComparedExactly(sumOf, st, sid, e.key);
    } else {
      StepFrame(sumOf, st, e, st', sid);
    }
  }

  lemma OpenAsksNothing(sumOf: Content -> Sum, st: State, e: Event, st': State)
    requires Steps(sumOf, st, e, st') && e.Open?
    ensures e.sid in st'.sessions && st'.sessions[e.sid].listed == e.listed && st'.sessions[e.sid].needed == map[]
  {
  }

  ghost predicate HasIt(st: State, sid: SessionId, key: Key, sum: Sum) {
    && sid in st.sessions && key in st.sessions[sid].listed && st.sessions[sid].listed[key] == sum
    && IsStored(st, key, sum) && key !in st.sessions[sid].needed
  }

  lemma StepHasIt(sumOf: Content -> Sum, st: State, e: Event, st': State, sid: SessionId, key: Key, sum: Sum)
    requires Inv(sumOf, st) && Steps(sumOf, st, e, st') && HasIt(st, sid, key, sum) && sid in st'.sessions && IsStored(st', key, sum)
    ensures HasIt(st', sid, key, sum)
  {
    StepFrame(sumOf, st, e, st', sid);
    StepAsks(sumOf, st, e, st', sid, key);
  }

  lemma TraceHasIt(sumOf: Content -> Sum, trace: seq<State>, events: seq<Event>, k: nat, sid: SessionId, key: Key, sum: Sum)
    requires Run(sumOf, trace, events) && k < |events| && HasIt(trace[k], sid, key, sum) && sid in trace[k + 1].sessions
    ensures HasIt(trace[k + 1], sid, key, sum)
  {
    RunHolds(sumOf, trace, events, k);
    RunSteps(sumOf, trace, events, k);
    StoredForGood(sumOf, trace, events, k, key, sum);
    StepHasIt(sumOf, trace[k], events[k], trace[k + 1], sid, key, sum);
  }

  lemma {:induction false} KeepsHavingIt(trace: seq<State>, sid: SessionId, i: nat, j: nat, key: Key, sum: Sum)
    requires i <= j < |trace| && HasIt(trace[i], sid, key, sum)
    requires forall k :: i <= k < j && HasIt(trace[k], sid, key, sum) ==> HasIt(trace[k + 1], sid, key, sum)
    ensures HasIt(trace[j], sid, key, sum)
    decreases j - i
  {
    if i < j {
      KeepsHavingIt(trace, sid, i, j - 1, key, sum);
      assert HasIt(trace[j - 1 + 1], sid, key, sum);
    }
  }

  /** A header that is stored as listed when a session is opened is never asked for. */
  lemma StoredIsNotAskedFor(
    sumOf: Content -> Sum, trace: seq<State>, events: seq<Event>, sid: SessionId, i: nat, j: nat, key: Key)
    requires Run(sumOf, trace, events) && i < |events| && events[i].Open? && events[i].sid == sid && Stays(trace, sid, i + 1, j)
    requires key in events[i].listed && IsStored(trace[i], key, events[i].listed[key])
    ensures key in trace[j].sessions[sid].listed && key !in trace[j].sessions[sid].needed
  {
    var sum := events[i].listed[key];
    RunSteps(sumOf, trace, events, i);
    OpenAsksNothing(sumOf, trace[i], events[i], trace[i + 1]);
    StoredForGood(sumOf, trace, events, i, key, sum);
    forall k | i + 1 <= k < j && HasIt(trace[k], sid, key, sum)
      ensures HasIt(trace[k + 1], sid, key, sum)
    {
      TraceHasIt(sumOf, trace, events, k, sid, key, sum);
    }
    KeepsHavingIt(trace, sid, i + 1, j, key, sum);
  }

  /** Whatever is not stored as listed once all has been compared has been asked for. */
  lemma MissingIsAskedFor(sumOf: Content -> Sum, trace: seq<State>, events: seq<Event>, i: nat, sid: SessionId, key: Key)
    requires Run(sumOf, trace, events) && i <= |events| && sid in trace[i].sessions && trace[i].sessions[sid].phase == Waiting
    requires var s := trace[i].sessions[sid]; key in s.listed && !IsStored(trace[i], key, s.listed[key])
    ensures key in trace[i].sessions[sid].needed
  {
    RunHolds(sumOf, trace, events, i);
    assert ListedOk(sumOf, trace[i], trace[i].sessions[sid], key);
  }

  /** Where a header that a session takes up goes. */
  predicate BeingStored(st: State, sid: SessionId, key: Key, sum: Sum) {
    sid in st.sessions && (st.sessions[sid].work == Share(key, sum) || st.sessions[sid].work == Publish(key, sum))
  }

  lemma StepStores(sumOf: Content -> Sum, st: State, e: Event, sid: SessionId, key: Key, sum: Sum)
    requires Inv(sumOf, st) && Enabled(sumOf, st, e) && BeingStored(st, sid, key, sum)
    ensures BeingStored(Apply(sumOf, st, e), sid, key, sum) || IsStored(Apply(sumOf, st, e), key, sum)
  {
    if e.sid != sid {
      OtherStays(sumOf, st, e, sid);
    }
  }

  lemma OtherStays(sumOf: Content -> Sum, st: State, e: Event, sid: SessionId)
    requires Enabled(sumOf, st, e) && sid in st.sessions && e.sid != sid
    ensures sid in Apply(sumOf, st, e).sessions && Apply(sumOf, st, e).sessions[sid] == st.sessions[sid]
  {
  }

  /** The first session to bring a header that was asked for stores it for all: it is at it
      until the header is stored, and does not end before. */
  lemma {:induction false} FirstStores(
    sumOf: Content -> Sum, trace: seq<State>, events: seq<Event>, i: nat, j: nat, sid: SessionId, key: Key)
    requires Run(sumOf, trace, events) && i < |events| && i < j < |trace| && events[i] == Take(sid, key)
    requires key in trace[i].sessions[sid].needed && key !in trace[i].checksums
    ensures var sum := trace[i].sessions[sid].needed[key];
      BeingStored(trace[j], sid, key, sum) || IsStored(trace[j], key, sum)
    decreases j
  {
    var sum := trace[i].sessions[sid].needed[key];
    if i + 1 < j {
      FirstStores(sumOf, trace, events, i, j - 1, sid, key);
      RunHolds(sumOf, trace, events, j - 1);
      if BeingStored(trace[j - 1], sid, key, sum) {
        StepStores(sumOf, trace[j - 1], events[j - 1], sid, key, sum);
      } else {
        StoredForGood(sumOf, trace, events, j - 1, key, sum);
      }
    }
  }

  /** Undisturbed, it takes two steps, and what is stored is what was received. */
  lemma StoredInTwoSteps(sumOf: Content -> Sum, st: State, sid: SessionId, key: Key)
    requires Inv(sumOf, st) && Enabled(sumOf, st, Take(sid, key))
    requires key in st.sessions[sid].needed && key !in st.checksums
    ensures var st1 := Apply(sumOf, st, Take(sid, key));
      && Enabled(sumOf, st1, Proceed(sid))
      && var st2 := Apply(sumOf, st1, Proceed(sid));
         && Enabled(sumOf, st2, Proceed(sid))
         && var st3 := Apply(sumOf, st2, Proceed(sid));
            && IsStored(st3, key, st.sessions[sid].needed[key])
            && st3.global == st.global[key := st.sessions[sid].files[key]]
            && st3.sessions[sid] == st.sessions[sid].(files := st.sessions[sid].files - {key})
  {
  }

  /** A header that was not asked for, or of which another content is stored or being stored,
      goes to the session's own map and leaves the store alone. */
  lemma KeptInTwoSteps(sumOf: Content -> Sum, st: State, sid: SessionId, key: Key)
    requires Inv(sumOf, st) && Enabled(sumOf, st, Take(sid, key))
    requires var s := st.sessions[sid];
      key in s.needed ==> key in st.checksums && !IsStored(st, key, s.needed[key])
    ensures var st1 := Apply(sumOf, st, Take(sid, key));
      && Enabled(sumOf, st1, Proceed(sid))
      && var s, st2 := st.sessions[sid], Apply(sumOf, st1, Proceed(sid));
         && st2.checksums == st.checksums && st2.global == st.global
         && st2.sessions[sid] == s.(temp := s.temp[key := s.files[key]], files := s.files - {key})
  {
  }

  /** A header that has been stored meanwhile is not stored again. */
  lemma NotStoredAgain(sumOf: Content -> Sum, st: State, sid: SessionId, key: Key)
    requires Inv(sumOf, st) && Enabled(sumOf, st, Take(sid, key))
    requires key in st.sessions[sid].needed && IsStored(st, key, st.sessions[sid].needed[key])
    ensures var st', s := Apply(sumOf, st, Take(sid, key)), st.sessions[sid];
      && st'.checksums == st.checksums && st'.global == st.global
      && st'.sessions[sid] == s.(files := s.files - {key})
  {
  }

  /** A session that is complete leaves nothing behind but what it has stored for all. */
  lemma CompleteForgets(sumOf: Content -> Sum, st: State, sid: SessionId)
    requires Inv(sumOf, st) && Enabled(sumOf, st, Complete(sid))
    ensures var st' := Apply(sumOf, st, Complete(sid));
      && sid !in st'.sessions && st'.checksums == st.checksums && st'.global == st.global
      && forall other :: other in st.sessions && other != sid ==> other in st'.sessions && st'.sessions[other] == st.sessions[other]
  {
  }
}
