/**
 Completing an upload: any number of concurrent, stale and retried calls. A call loads the upload,
 looks its idempotency key up, creates a file version, and then tries to move the upload out of
 in_progress with a compare-and-swap; the loser reads the winner's result. Each database call is
 one step, and steps of different calls interleave freely with purges of files and with the
 deletion of upload rows, which goes with the deletion of their folder.

 What is only history: `issued`, the ids ever given to uploads; `log`, what was recorded for each
 upload, in order; the maker of a version; and of a call, the version it made and how its swap went.
 */
module CompleteRace {
  import opened Entities

  /** A version of a file, and the call that made it. */
  datatype Version = Version(file: FileId, maker: nat)

  datatype Pair = Pair(file: FileId, version: VersionId)

  /** A purge of the file nulls both columns of the pair. */
  datatype Upload = Upload(user: UserId, inProgress: bool, target: Option<FileId>, recorded: Option<Pair>)

  datatype Phase =
    | Loaded                       // the handler has read the upload row
    | Passed                       // no earlier result under the key; the request is acceptable
    | Created(pair: Pair)          // its version exists
    | Lost                         // the compare-and-swap changed nothing
    | Returned(result: Option<Pair>)

  /** How a compare-and-swap went. */
  datatype Verdict = Pending | Won | RowGone | AlreadyDone | KeyHeld | FileGone | Failed

  /** A call, with the row as it was when it was loaded. */
  datatype Call = Call(u: UploadId, key: string, seen: Upload, phase: Phase, made: Option<Pair>, verdict: Verdict)

  datatype State = State(
    uploads: map<UploadId, Upload>,
    keys: map<(UserId, string), UploadId>,   // the unique index on (created_by, idempotency_key)
    versions: map<VersionId, Version>,
    purged: set<FileId>,
    calls: map<nat, Call>,
    issued: set<UploadId>,
    log: map<UploadId, seq<Pair>>)

  const EMPTY := State(map[], map[], map[], {}, map[], {}, map[])

  datatype Action =
    | NewUpload(u: UploadId, user: UserId, target: Option<FileId>)
    | Load(c: nat, u: UploadId, key: string)
    | CheckKey(c: nat, answered: bool)             // a failed lookup counts as no result
    | Reject(c: nat)                               // any check or insert that fails before a version exists
    | Create(c: nat, file: FileId, version: VersionId)
    | Swap(c: nat, answered: bool)
    | FetchWinner(c: nat, answered: bool)
    | Purge(file: FileId)
    | DeleteUploads(us: set<UploadId>)

  function At(s: State, c: nat, phase: Phase): State
    requires c in s.calls
  {
    s.(calls := s.calls[c := s.calls[c].(phase := phase)])
  }

  function Settle(s: State, c: nat, phase: Phase, verdict: Verdict): State
    requires c in s.calls
  {
    s.(calls := s.calls[c := s.calls[c].(phase := phase, verdict := verdict)])
  }

  predicate InPhase(s: State, c: nat, phase: Phase) { c in s.calls && s.calls[c].phase == phase }

  /** What GetByIdempotencyKey finds, if it has a result. */
  function Earlier(s: State, call: Call): Option<Pair> {
    var k := (call.seen.user, call.key);
    if call.key != "" && k in s.keys && s.keys[k] in s.uploads then s.uploads[s.keys[k]].recorded else None
  }

  /** Another upload of the user already has the key. */
  predicate KeyTaken(s: State, call: Call) {
    call.key != "" && (call.seen.user, call.key) in s.keys && s.keys[(call.seen.user, call.key)] != call.u
  }

  function DoCheckKey(s: State, c: nat, answered: bool): State {
    if !InPhase(s, c, Loaded) then s
    else
      var call := s.calls[c];
      var found := if answered then Earlier(s, call) else None;
      if found.Some? then At(s, c, Returned(found))
      else At(s, c, if call.seen.inProgress then Passed else Returned(None))
  }

  predicate FreshIds(s: State, file: FileId, version: VersionId) {
    version !in s.versions && file !in s.purged && forall v :: v in s.versions ==> s.versions[v].file != file
  }

  /** CreateWithVersion for a new file, AddVersion for an upload with a target. */
  function DoCreate(s: State, c: nat, file: FileId, version: VersionId): State {
    if !InPhase(s, c, Passed) || !FreshIds(s, file, version) then s
    else
      var target := s.calls[c].seen.target;
      if target.Some? && target.value in s.purged then At(s, c, Returned(None))
      else Make(s, c, Pair(if target.Some? then target.value else file, version))
  }

  function Make(s: State, c: nat, pair: Pair): State
    requires c in s.calls
  {
    s.(versions := s.versions[pair.version := Version(pair.file, c)],
       calls := s.calls[c := s.calls[c].(phase := Created(pair), made := Some(pair))])
  }

  /** UPDATE uploads ... WHERE id = u AND status = 'in_progress', with its index and foreign keys. */
  function SwapVerdict(s: State, call: Call): Verdict
    requires call.phase.Created?
  {
    if call.u !in s.uploads then RowGone
    else if !s.uploads[call.u].inProgress then AlreadyDone
    else if KeyTaken(s, call) then KeyHeld
    else if call.phase.pair.file in s.purged then FileGone
    else Won
  }

  function DoSwap(s: State, c: nat, answered: bool): State {
    if c !in s.calls || !s.calls[c].phase.Created? then s
    else
      var verdict := if answered then SwapVerdict(s, s.calls[c]) else Failed;
      match verdict
      case Won => Record(s, c, s.calls[c].phase.pair)
      case Failed => Settle(s, c, Returned(None), verdict)
      case FileGone => Settle(s, c, Returned(None), verdict)
      case _ => Settle(s, c, Lost, verdict) // ErrAlreadyCompleting
  }

  function Record(s: State, c: nat, pair: Pair): State
    requires c in s.calls && s.calls[c].u in s.uploads
  {
    var call := s.calls[c];
    Settle(s.(uploads := s.uploads[call.u := s.uploads[call.u].(inProgress := false, recorded := Some(pair))],
              keys := if call.key == "" then s.keys else s.keys[(call.seen.user, call.key) := call.u],
              log := s.log[call.u := LogOf(s, call.u) + [pair]]), c, Returned(Some(pair)), Won)
  }

  function LogOf(s: State, u: UploadId): seq<Pair> { if u in s.log then s.log[u] else [] }

  function DoFetch(s: State, c: nat, answered: bool): State {
    if !InPhase(s, c, Lost) then s
    else At(s, c, Returned(if answered && s.calls[c].u in s.uploads then s.uploads[s.calls[c].u].recorded else None))
  }

  function Forget(file: FileId, row: Upload): Upload {
    row.(recorded := if row.recorded.Some? && row.recorded.value.file == file then None else row.recorded,
         target := if row.target == Some(file) then None else row.target)
  }

  function DoPurge(s: State, file: FileId): State {
    s.(purged := s.purged + {file}, uploads := map u | u in s.uploads :: Forget(file, s.uploads[u]))
  }

  function DoDelete(s: State, us: set<UploadId>): State {
    s.(uploads := s.uploads - us, keys := map k | k in s.keys && s.keys[k] !in us :: s.keys[k])
  }

  function Step(s: State, a: Action): State {
    match a
    case NewUpload(u, user, target) =>
      if u in s.issued then s
      else s.(uploads := s.uploads[u := Upload(user, true, target, None)], issued := s.issued + {u})
    case Load(c, u, key) =>
      if c in s.calls || u !in s.uploads then s
      else s.(calls := s.calls[c := Call(u, key, s.uploads[u], Loaded, None, Pending)])
    case CheckKey(c, answered) => DoCheckKey(s, c, answered)
    case Reject(c) => if InPhase(s, c, Passed) then At(s, c, Returned(None)) else s
    case Create(c, file, version) => DoCreate(s, c, file, version)
    case Swap(c, answered) => DoSwap(s, c, answered)
    case FetchWinner(c, answered) => DoFetch(s, c, answered)
    case Purge(file) => DoPurge(s, file)
    case DeleteUploads(us) => DoDelete(s, us)
  }

  function Exec(s: State, acts: seq<Action>): State {
    if acts == [] then s else Step(Exec(s, acts[..|acts| - 1]), acts[|acts| - 1])
  }

  // ---------------------------------------------------------------- what every run keeps

  /** The pair was made for u by a call whose swap won. */
  ghost predicate WonFor(s: State, u: UploadId, pair: Pair) {
    pair.version in s.versions &&
    var c := s.versions[pair.version].maker;
    c in s.calls && s.calls[c].u == u && s.calls[c].made == Some(pair) && s.calls[c].verdict == Won
  }

  /** An upload is in progress until the one time something is recorded for it, the version of a call
      that won; while there is a row it holds that pair, or nothing once its file is purged. */
  ghost predicate RowFits(s: State, u: UploadId) {
    var log := LogOf(s, u);
    && |log| <= 1
    && (u !in s.issued ==> log == [] && u !in s.uploads)
    && (|log| == 1 ==> WonFor(s, u, log[0]))
    && (u in s.uploads ==>
          && |log| == (if s.uploads[u].inProgress then 0 else 1)
          && (s.uploads[u].recorded.Some? ==> log == [s.uploads[u].recorded.value])
          && (|log| == 1 ==> (s.uploads[u].recorded.None? <==> log[0].file in s.purged)))
  }

  predicate IsMaker(s: State, c: nat, pair: Pair) {
    pair.version in s.versions && s.versions[pair.version] == Version(pair.file, c)
  }

  /** A call remembers whose upload it is for, goes on only if it saw it in progress, is the maker of
      what it made, and its verdict holds for good. */
  ghost predicate CallFits(s: State, c: nat) {
    c in s.calls ==>
      var call := s.calls[c];
      && call.u in s.issued && (call.u in s.uploads ==> s.uploads[call.u].user == call.seen.user)
      && (call.phase.Passed? || call.phase.Created? || call.phase.Lost? || call.made.Some? ==> call.seen.inProgress)
      && (call.phase.Loaded? || call.phase.Passed? ==> call.made.None?)
      && (call.phase.Created? ==> call.made == Some(call.phase.pair))
      && (call.phase.Created? || call.made.None? ==> call.verdict == Pending)
      && (call.phase.Returned? && call.made.Some? ==> call.verdict != Pending)
      && (call.phase.Lost? ==> call.made.Some? && call.verdict != Pending && call.verdict != Won)
      && (call.made.Some? ==> IsMaker(s, c, call.made.value))
      && VerdictFits(s, call)
  }

  ghost predicate VerdictFits(s: State, call: Call) {
    && (call.verdict == Won ==>
      call.made.Some? && call.phase == Returned(call.made) && LogOf(s, call.u) == [call.made.value])
    && (call.verdict == Won && call.key != "" && call.u in s.uploads ==>
          (call.seen.user, call.key) in s.keys && s.keys[(call.seen.user, call.key)] == call.u)
    && (call.verdict == RowGone ==> call.u !in s.uploads)
    && (call.verdict == FileGone ==> call.made.Some? && call.made.value.file in s.purged)
  }

  /** c is a call for u that carries the key. */
  predicate Carries(s: State, c: nat, u: UploadId, key: string) {
    c in s.calls && s.calls[c].u == u && s.calls[c].key == key
  }

  /** A key in the index was brought by a call for the upload that has it. */
  ghost predicate KeyFits(s: State, user: UserId, key: string) {
    (user, key) in s.keys ==>
      var u := s.keys[(user, key)];
      key != "" && u in s.uploads && s.uploads[u].user == user && exists c :: Carries(s, c, u, key)
  }

  /** Every version was made by the call that is its maker. */
  ghost predicate VersionFits(s: State, v: VersionId) {
    v in s.versions ==>
      var c := s.versions[v].maker;
      c in s.calls && s.calls[c].made == Some(Pair(s.versions[v].file, v))
  }

  ghost predicate Inv(s: State) {
    && (forall u :: RowFits(s, u))
    && (forall c :: CallFits(s, c))
    && (forall user, key :: KeyFits(s, user, key))
    && (forall v :: VersionFits(s, v))
  }

  // ---------------------------------------------------------------- what a step may do

  /** What stays of a call: everything once it has returned; what it made, and its verdict. */
  ghost predicate CallGrows(before: Call, after: Call) {
    && after.u == before.u && after.key == before.key && after.seen == before.seen
    && (before.phase.Returned? ==> after == before)
    && (before.made.Some? ==> after.made == before.made)
    && (before.verdict != Pending ==> after.verdict == before.verdict)
  }

  ghost predicate CallsGrow(s: State, s': State) {
    forall c :: c in s.calls ==> c in s'.calls && CallGrows(s.calls[c], s'.calls[c])
  }

  /** Rows keep their owner and never come back; an index entry stays as long as its row. */
  ghost predicate RowsGrow(s: State, s': State) {
    && s.issued <= s'.issued && s.purged <= s'.purged
    && (forall u :: u in s'.uploads && u in s.issued ==> u in s.uploads && s'.uploads[u].user == s.uploads[u].user)
    && (forall k :: k in s.keys && s.keys[k] in s.issued && s.keys[k] in s'.uploads ==>
      k in s'.keys && s'.keys[k] == s.keys[k])
  }

  ghost predicate HistoryGrows(s: State, s': State) {
    && (forall u :: LogOf(s, u) <= LogOf(s', u))
    && (forall v :: v in s.versions ==> v in s'.versions && s'.versions[v] == s.versions[v])
  }

  ghost predicate Extends(s: State, s': State) {
    CallsGrow(s, s') && RowsGrow(s, s') && HistoryGrows(s, s')
  }

  lemma ExtendsItself(s: State)
    ensures Extends(s, s)
  {
  }

  lemma ExtendsOn(s: State, t: State, w: State)
    requires Extends(s, t) && Extends(t, w)
    ensures Extends(s, w)
  {
    forall u ensures LogOf(s, u) <= LogOf(w, u) { assert LogOf(s, u) <= LogOf(t, u) <= LogOf(w, u); }
    forall c | c in s.calls ensures c in w.calls && CallGrows(s.calls[c], w.calls[c]) {
      assert CallGrows(s.calls[c], t.calls[c]) && CallGrows(t.calls[c], w.calls[c]);
    }
  }

  /** The parts of the invariant that follow when only one call changes, and versions may be added. */
  lemma OneCallChanges(s: State, s': State, c: nat)
    requires Inv(s) && Extends(s, s') && c in s.calls && c in s'.calls
    requires s' == s.(versions := s'.versions, calls := s.calls[c := s'.calls[c]])
    requires CallFits(s', c)
    requires forall v :: v in s'.versions && v !in s.versions ==>
      s'.versions[v].maker == c && s'.calls[c].made == Some(Pair(s'.versions[v].file, v))
    ensures Inv(s')
  {
    forall d ensures CallFits(s', d) { assert CallFits(s, d); }
    forall u ensures RowFits(s', u) {
      assert RowFits(s, u) && CallGrows(s.calls[c], s'.calls[c]);
    }
    KeysStay(s, s');
    forall v ensures VersionFits(s', v) {
      assert VersionFits(s, v) && CallGrows(s.calls[c], s'.calls[c]);
    }
  }

  lemma KeysStay(s: State, s': State)
    requires (forall user, key :: KeyFits(s, user, key)) && s'.keys == s.keys && s'.uploads == s.uploads &&
      CallsGrow(s, s')
    ensures forall user, key :: KeyFits(s', user, key)
  {
    forall user, key ensures KeyFits(s', user, key) {
      assert KeyFits(s, user, key);
      if (user, key) in s.keys {
        var c :| Carries(s, c, s.keys[(user, key)], key);
        assert CallGrows(s.calls[c], s'.calls[c]);
        assert Carries(s', c, s.keys[(user, key)], key);
      }
    }
  }

  // ---------------------------------------------------------------- one step

  predicate IsPhaseAction(a: Action) { a.CheckKey? || a.Reject? || a.FetchWinner? }

  /** Lookups and the like move one call on, and change nothing else. */
  lemma PhaseShape(s: State, a: Action)
    requires IsPhaseAction(a)
    ensures Step(s, a) == s || (a.c in s.calls && a.c in Step(s, a).calls && !s.calls[a.c].phase.Returned?
              && Step(s, a) == At(s, a.c, Step(s, a).calls[a.c].phase))
  {
    hide Earlier;
  }

  lemma AtExtends(s: State, c: nat, phase: Phase)
    requires c in s.calls && !s.calls[c].phase.Returned?
    ensures Extends(s, At(s, c, phase))
  {
    forall u ensures LogOf(s, u) <= LogOf(At(s, c, phase), u) {}
  }

  lemma PhaseStepKeepsInv(s: State, a: Action)
    requires Inv(s) && IsPhaseAction(a)
    ensures Inv(Step(s, a)) && Extends(s, Step(s, a))
  {
    hide Extends, RowFits, KeyFits, VersionFits;
    PhaseShape(s, a);
    var s' := Step(s, a);
    if s' == s {
      ExtendsItself(s);
    } else {
      AtExtends(s, a.c, s'.calls[a.c].phase);
      assert CallFits(s, a.c);
      PhaseCallFits(s, a);
      OneCallChanges(s, s', a.c);
    }
  }

  lemma PhaseCallFits(s: State, a: Action)
    requires IsPhaseAction(a) && CallFits(s, a.c)
    ensures CallFits(Step(s, a), a.c)
  {
    hide Earlier;
  }

  lemma MakeKeepsInv(s: State, c: nat, pair: Pair)
    requires Inv(s) && InPhase(s, c, Passed) && pair.version !in s.versions
    ensures Inv(Make(s, c, pair)) && Extends(s, Make(s, c, pair))
  {
    var s' := Make(s, c, pair);
    assert CallFits(s, c);
    forall u ensures LogOf(s, u) <= LogOf(s', u) {}
    assert Extends(s, s');
    hide Extends, RowFits, KeyFits, VersionFits;
    OneCallChanges(s, s', c);
  }

  lemma CreateKeepsInv(s: State, c: nat, file: FileId, version: VersionId)
    requires Inv(s)
    ensures Inv(DoCreate(s, c, file, version)) && Extends(s, DoCreate(s, c, file, version))
  {
    hide Inv, Extends, Make;
    if !InPhase(s, c, Passed) || !FreshIds(s, file, version) {
      ExtendsItself(s);
    } else {
      var target := s.calls[c].seen.target;
      if target.Some? && target.value in s.purged {
        assert Step(s, Reject(c)) == DoCreate(s, c, file, version);
        PhaseStepKeepsInv(s, Reject(c));
      } else {
        MakeKeepsInv(s, c, Pair(if target.Some? then target.value else file, version));
      }
    }
  }

  lemma SettleKeepsInv(s: State, c: nat, phase: Phase, verdict: Verdict)
    requires Inv(s) && c in s.calls && s.calls[c].phase.Created? && verdict != Pending && verdict != Won
    requires phase == Returned(None) || phase == Lost
    requires verdict == RowGone ==> s.calls[c].u !in s.uploads
    requires verdict == FileGone ==> s.calls[c].phase.pair.file in s.purged
    ensures Inv(Settle(s, c, phase, verdict)) && Extends(s, Settle(s, c, phase, verdict))
  {
    var s' := Settle(s, c, phase, verdict);
    assert CallFits(s, c);
    forall u ensures LogOf(s, u) <= LogOf(s', u) {}
    assert Extends(s, s');
    hide Extends, RowFits, KeyFits, VersionFits;
    OneCallChanges(s, s', c);
  }

  lemma RecordExtends(s: State, c: nat, pair: Pair)
    requires c in s.calls && s.calls[c].u in s.uploads && s.calls[c].phase == Created(pair) &&
      s.calls[c].verdict == Pending
    requires !KeyTaken(s, s.calls[c])
    ensures Extends(s, Record(s, c, pair))
  {
    var s' := Record(s, c, pair);
    forall u ensures LogOf(s, u) <= LogOf(s', u) {}
  }

  lemma RecordCallFits(s: State, c: nat, pair: Pair, d: nat)
    requires CallFits(s, c) && CallFits(s, d) && c in s.calls && s.calls[c].phase == Created(pair)
    requires s.calls[c].u in s.uploads && LogOf(s, s.calls[c].u) == [] && !KeyTaken(s, s.calls[c])
    ensures CallFits(Record(s, c, pair), d)
  {
  }

  lemma RecordKeys(s: State, c: nat, pair: Pair)
    requires (forall user, key :: KeyFits(s, user, key)) && CallFits(s, c)
    requires c in s.calls && s.calls[c].phase == Created(pair) && s.calls[c].u in s.uploads && !KeyTaken(s, s.calls[c])
    ensures forall user, key :: KeyFits(Record(s, c, pair), user, key)
  {
    var s', call := Record(s, c, pair), s.calls[c];
    forall user, key ensures KeyFits(s', user, key) {
      assert KeyFits(s, user, key) && Carries(s', c, call.u, call.key);
      if (user, key) in s.keys {
        var d :| Carries(s, d, s.keys[(user, key)], key);
        assert Carries(s', d, s.keys[(user, key)], key);
      }
    }
  }

  lemma RecordRows(s: State, c: nat, pair: Pair, u: UploadId)
    requires RowFits(s, u) && CallFits(s, c) && c in s.calls && s.calls[c].phase == Created(pair)
    requires s.calls[c].u in s.uploads && LogOf(s, s.calls[c].u) == [] && pair.file !in s.purged
    ensures RowFits(Record(s, c, pair), u)
  {
  }

  lemma RecordKeepsInv(s: State, c: nat, pair: Pair)
    requires Inv(s) && c in s.calls && s.calls[c].phase == Created(pair)
    requires s.calls[c].u in s.uploads && s.uploads[s.calls[c].u].inProgress && !KeyTaken(s, s.calls[c]) &&
      pair.file !in s.purged
    ensures Inv(Record(s, c, pair)) && Extends(s, Record(s, c, pair))
  {
    assert CallFits(s, c) && RowFits(s, s.calls[c].u);
    var s' := Record(s, c, pair);
    forall v ensures VersionFits(s', v) { assert VersionFits(s, v); }
    hide Record, Extends, CallFits, RowFits, KeyFits, VersionFits;
    RecordExtends(s, c, pair);
    forall d ensures CallFits(s', d) { RecordCallFits(s, c, pair, d); }
    forall u ensures RowFits(s', u) { RecordRows(s, c, pair, u); }
    RecordKeys(s, c, pair);
  }

  lemma SwapKeepsInv(s: State, c: nat, answered: bool)
    requires Inv(s)
    ensures Inv(DoSwap(s, c, answered)) && Extends(s, DoSwap(s, c, answered))
  {
    hide Inv, Extends, Record, Settle, KeyTaken;
    if c !in s.calls || !s.calls[c].phase.Created? {
      ExtendsItself(s);
    } else {
      var pair := s.calls[c].phase.pair;
      var verdict := if answered then SwapVerdict(s, s.calls[c]) else Failed;
      if verdict == Won {
        RecordKeepsInv(s, c, pair);
      } else {
        SettleKeepsInv(s, c, if verdict == Failed || verdict == FileGone then Returned(None) else Lost, verdict);
      }
    }
  }

  lemma NewUploadKeepsInv(s: State, u: UploadId, row: Upload)
    requires Inv(s) && u !in s.issued && row.inProgress && row.recorded.None?
    ensures var s' := s.(uploads := s.uploads[u := row], issued := s.issued + {u}); Inv(s') && Extends(s, s')
  {
    var s' := s.(uploads := s.uploads[u := row], issued := s.issued + {u});
    forall c ensures CallFits(s', c) { assert CallFits(s, c); }
    forall v ensures RowFits(s', v) { assert RowFits(s, v) && RowFits(s, u); }
    forall v ensures VersionFits(s', v) { assert VersionFits(s, v); }
    forall user, key ensures KeyFits(s', user, key) {
      assert KeyFits(s, user, key) && RowFits(s, u);
      if (user, key) in s.keys {
        var c :| Carries(s, c, s.keys[(user, key)], key);
        assert Carries(s', c, s.keys[(user, key)], key);
      }
    }
  }

  lemma LoadKeepsInv(s: State, c: nat, u: UploadId, key: string)
    requires Inv(s) && c !in s.calls && u in s.uploads
    ensures var s' := s.(calls := s.calls[c := Call(u, key, s.uploads[u], Loaded, None, Pending)]);
      Inv(s') && Extends(s, s')
  {
    var s' := s.(calls := s.calls[c := Call(u, key, s.uploads[u], Loaded, None, Pending)]);
    assert RowFits(s, u);
    forall d ensures CallFits(s', d) { assert CallFits(s, d); }
    forall v ensures RowFits(s', v) { assert RowFits(s, v); }
    forall v ensures VersionFits(s', v) { assert VersionFits(s, v); }
    KeysStay(s, s');
  }

  lemma PurgeKeepsInv(s: State, file: FileId)
    requires Inv(s)
    ensures Inv(DoPurge(s, file)) && Extends(s, DoPurge(s, file))
  {
    var s' := DoPurge(s, file);
    forall c ensures CallFits(s', c) { assert CallFits(s, c); }
    forall u ensures RowFits(s', u) { assert RowFits(s, u); }
    forall v ensures VersionFits(s', v) { assert VersionFits(s, v); }
    forall user, key ensures KeyFits(s', user, key) {
      assert KeyFits(s, user, key);
      if (user, key) in s.keys {
        var c :| Carries(s, c, s.keys[(user, key)], key);
        assert Carries(s', c, s.keys[(user, key)], key);
      }
    }
  }

  lemma DeleteKeepsInv(s: State, us: set<UploadId>)
    requires Inv(s)
    ensures Inv(DoDelete(s, us)) && Extends(s, DoDelete(s, us))
  {
    var s' := DoDelete(s, us);
    forall c ensures CallFits(s', c) { assert CallFits(s, c); }
    forall u ensures RowFits(s', u) { assert RowFits(s, u); }
    forall v ensures VersionFits(s', v) { assert VersionFits(s, v); }
    forall user, key ensures KeyFits(s', user, key) {
      assert KeyFits(s, user, key);
      if (user, key) in s'.keys {
        var c :| Carries(s, c, s.keys[(user, key)], key);
        assert Carries(s', c, s.keys[(user, key)], key);
      }
    }
  }

  lemma StepKeepsInv(s: State, a: Action)
    requires Inv(s)
    ensures Inv(Step(s, a)) && Extends(s, Step(s, a))
  {
    hide Inv, Extends, DoSwap, DoCreate, DoPurge, DoDelete, DoCheckKey, DoFetch;
    match a
    case NewUpload(u, user, target) =>
      if u in s.issued { ExtendsItself(s); } else { NewUploadKeepsInv(s, u, Upload(user, true, target, None)); }
    case Load(c, u, key) =>
      if c in s.calls || u !in s.uploads { ExtendsItself(s); } else { LoadKeepsInv(s, c, u, key); }
    case Create(c, file, version) => CreateKeepsInv(s, c, file, version);
    case Swap(c, answered) => SwapKeepsInv(s, c, answered);
    case Purge(file) => PurgeKeepsInv(s, file);
    case DeleteUploads(us) => DeleteKeepsInv(s, us);
    case _ => PhaseStepKeepsInv(s, a);
  }

  lemma {:induction false} RunKeepsInv(s: State, acts: seq<Action>)
    requires Inv(s)
    ensures Inv(Exec(s, acts)) && Extends(s, Exec(s, acts))
  {
    hide Inv, Extends;
    if acts == [] {
      ExtendsItself(s);
    } else {
      var t := Exec(s, acts[..|acts| - 1]);
      RunKeepsInv(s, acts[..|acts| - 1]);
      StepKeepsInv(t, acts[|acts| - 1]);
      ExtendsOn(s, t, Exec(s, acts));
    }
  }

  lemma StartsWell()
    ensures Inv(EMPTY)
  {
  }

  lemma {:induction false} RunFromEmpty(acts: seq<Action>)
    ensures Inv(Exec(EMPTY, acts))
  {
    StartsWell();
    RunKeepsInv(EMPTY, acts);
  }
}
