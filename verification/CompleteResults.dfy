/**
 What the machine of CompleteRace guarantees: one result for all calls for an upload, what retries
 get, and when a version that a call created is left behind unrecorded.
 */
module CompleteResults {
  import opened Entities
  import opened CompleteRace

  // ---------------------------------------------------------------- what calls return

  predicate SameKey(c: Call, d: Call) { c.key == d.key != "" && c.seen.user == d.seen.user }

  /** The condition on callers: two calls of one user with one key are for one upload. */
  ghost predicate Unshared(s: State) {
    forall c, d :: c in s.calls && d in s.calls && SameKey(s.calls[c], s.calls[d]) ==> s.calls[c].u == s.calls[d].u
  }

  /** The call, if it succeeded, returned what was recorded for its upload. */
  ghost predicate ReturnFits(s: State, c: nat) {
    c in s.calls && s.calls[c].phase.Returned? && s.calls[c].phase.result.Some? ==>
      LogOf(s, s.calls[c].u) == [s.calls[c].phase.result.value]
  }

  /** With unshared keys no other upload ever holds the key of a call. */
  lemma KeyIsOwn(s: State, c: nat)
    requires Inv(s) && Unshared(s) && c in s.calls
    ensures !KeyTaken(s, s.calls[c])
  {
    var call := s.calls[c];
    var k := (call.seen.user, call.key);
    if call.key != "" && k in s.keys {
      assert KeyFits(s, call.seen.user, call.key);
      var d :| Carries(s, d, s.keys[k], call.key);
      assert CallFits(s, d) && SameKey(s.calls[c], s.calls[d]);
    }
  }

  /** What an earlier result under the key is, then: the upload's own. */
  lemma EarlierIsOwn(s: State, c: nat)
    requires Inv(s) && Unshared(s) && c in s.calls && Earlier(s, s.calls[c]).Some?
    ensures LogOf(s, s.calls[c].u) == [Earlier(s, s.calls[c]).value]
  {
    KeyIsOwn(s, c);
    assert RowFits(s, s.calls[c].u);
  }

  lemma UnsharedBefore(s: State, s': State)
    requires CallsGrow(s, s') && Unshared(s')
    ensures Unshared(s)
  {
    forall c, d | c in s.calls && d in s.calls && SameKey(s.calls[c], s.calls[d]) ensures s.calls[c].u == s.calls[d].u {
      assert CallGrows(s.calls[c], s'.calls[c]) && CallGrows(s.calls[d], s'.calls[d]);
      assert SameKey(s'.calls[c], s'.calls[d]);
    }
  }

  predicate IsCallAction(a: Action) { IsPhaseAction(a) || a.Load? || a.Create? || a.Swap? }

  /** A step changes at most its own call, and only loading adds one. */
  ghost predicate OwnCallOnly(s: State, a: Action, s': State) {
    || s'.calls == s.calls
    || (IsCallAction(a) && a.c in s'.calls && s'.calls == s.calls[a.c := s'.calls[a.c]]
        && (a.Load? ==> s'.calls[a.c].phase == Loaded) && (!a.Load? ==> a.c in s.calls))
  }

  lemma SwapOwnCall(s: State, c: nat, answered: bool)
    ensures OwnCallOnly(s, Swap(c, answered), DoSwap(s, c, answered))
    ensures c in s.calls && !s.calls[c].phase.Returned? ==>
      var s' := DoSwap(s, c, answered);
      s'.calls[c].phase.Returned? && s'.calls[c].phase.result.Some? ==> s'.calls[c].verdict == Won
  {
    hide SwapVerdict, LogOf;
  }

  lemma CreateOwnCall(s: State, c: nat, file: FileId, version: VersionId)
    ensures OwnCallOnly(s, Create(c, file, version), DoCreate(s, c, file, version))
    ensures c in s.calls && !s.calls[c].phase.Returned? ==>
      var p := DoCreate(s, c, file, version).calls[c].phase; p.Returned? ==> p.result.None?
  {
    hide FreshIds;
  }

  lemma StepOwnCall(s: State, a: Action)
    ensures OwnCallOnly(s, a, Step(s, a))
  {
    if IsPhaseAction(a) {
      PhaseShape(s, a);
    } else {
      hide DoSwap, DoCreate;
      match a
      case Swap(c, answered) => SwapOwnCall(s, c, answered);
      case Create(c, file, version) => CreateOwnCall(s, c, file, version);
      case _ =>
    }
  }

  /** A call returns what it finds under its key, what it recorded itself, or what its row records. */
  lemma ReturnsFrom(s: State, a: Action, c: nat)
    requires c in s.calls && !s.calls[c].phase.Returned?
    requires c in Step(s, a).calls && Step(s, a).calls[c].phase.Returned? && Step(s, a).calls[c].phase.result.Some?
    ensures var call, p := s.calls[c], Step(s, a).calls[c].phase.result;
      || (a == CheckKey(c, true) && p == Earlier(s, call))
      || (a == FetchWinner(c, true) && call.u in s.uploads && p == s.uploads[call.u].recorded)
      || Step(s, a).calls[c].verdict == Won
  {
    hide Earlier, DoSwap, DoCreate, DoPurge, DoDelete;
    StepOwnCall(s, a);
    match a
    case Swap(d, answered) => SwapOwnCall(s, d, answered);
    case Create(d, file, version) => CreateOwnCall(s, d, file, version);
    case _ =>
  }

  lemma StepReturns(s: State, a: Action, c: nat)
    requires Inv(s) && Unshared(s) && ReturnFits(s, c)
    ensures ReturnFits(Step(s, a), c)
  {
    StepKeepsInv(s, a);
    var s' := Step(s, a);
    hide Step, Extends, Unshared;
    if c in s'.calls && s'.calls[c].phase.Returned? && s'.calls[c].phase.result.Some? {
      assert CallFits(s', c) && RowFits(s', s'.calls[c].u);
      if c in s.calls {
        SameCall(s, s', c);
        if !s.calls[c].phase.Returned? {
          assert RowFits(s, s.calls[c].u);
          ReturnsFrom(s, a, c);
          if a == CheckKey(c, true) && s'.calls[c].phase.result == Earlier(s, s.calls[c]) { EarlierIsOwn(s, c); }
        }
      } else {
        NewCallIsLoaded(s, a, c);
      }
    }
  }

  lemma SameCall(s: State, s': State, c: nat)
    requires Extends(s, s') && c in s.calls
    ensures c in s'.calls && CallGrows(s.calls[c], s'.calls[c]) && LogOf(s, s.calls[c].u) <= LogOf(s', s.calls[c].u)
  {
  }

  lemma NewCallIsLoaded(s: State, a: Action, c: nat)
    requires c !in s.calls && c in Step(s, a).calls
    ensures Step(s, a).calls[c].phase == Loaded
  {
    hide Step;
    StepOwnCall(s, a);
  }

  lemma {:induction false} RunReturns(acts: seq<Action>, c: nat)
    requires Unshared(Exec(EMPTY, acts))
    ensures ReturnFits(Exec(EMPTY, acts), c)
  {
    if acts != [] {
      var s, a := Exec(EMPTY, acts[..|acts| - 1]), acts[|acts| - 1];
      RunFromEmpty(acts[..|acts| - 1]);
      StepKeepsInv(s, a);
      hide Inv, Unshared, Step;
      UnsharedBefore(s, Step(s, a));
      RunReturns(acts[..|acts| - 1], c);
      StepReturns(s, a, c);
    }
  }

  /** The race is settled once: over any interleaving whose keys are not shared between uploads,
      at most one pair is ever recorded for an upload, and every call for it that succeeded, at any
      time, returned that pair. */
  lemma OneResultForAll(acts: seq<Action>, u: UploadId)
    requires Unshared(Exec(EMPTY, acts))
    ensures var s := Exec(EMPTY, acts);
      && |LogOf(s, u)| <= 1
      && forall c :: c in s.calls && s.calls[c].u == u && s.calls[c].phase.Returned? && s.calls[c].phase.result.Some?
                     ==> LogOf(s, u) == [s.calls[c].phase.result.value]
  {
    RunFromEmpty(acts);
    var s := Exec(EMPTY, acts);
    assert RowFits(s, u);
    forall c | c in s.calls && s.calls[c].u == u && s.calls[c].phase.Returned? && s.calls[c].phase.result.Some?
      ensures LogOf(s, u) == [s.calls[c].phase.result.value]
    {
      RunReturns(acts, c);
    }
  }

  /** What the row of an upload shows of the pair recorded for it. */
  function Unpurged(s: State, pair: Pair): Option<Pair> { if pair.file in s.purged then None else Some(pair) }

  /** Whether or not keys are shared: what was recorded is recorded for good, and as long as there is
      a row it shows it until the file is purged. */
  lemma RecordedForGood(acts: seq<Action>, more: seq<Action>, u: UploadId)
    requires |LogOf(Exec(EMPTY, acts), u)| == 1
    ensures var s, s' := Exec(EMPTY, acts), Exec(Exec(EMPTY, acts), more);
      && LogOf(s', u) == LogOf(s, u)
      && (u in s'.uploads ==> !s'.uploads[u].inProgress)
      && (u in s'.uploads ==> s'.uploads[u].recorded == Unpurged(s', LogOf(s, u)[0]))
  {
    RunFromEmpty(acts);
    RunKeepsInv(Exec(EMPTY, acts), more);
    var s, s' := Exec(EMPTY, acts), Exec(Exec(EMPTY, acts), more);
    assert LogOf(s, u) <= LogOf(s', u);
    assert RowFits(s', u);
  }

  /** The lookup answers with something not recorded for the call's upload exactly when the user's
      key is held by another upload that has a result. */
  lemma ForeignAnswerIff(s: State, c: nat)
    requires Inv(s) && InPhase(s, c, Loaded) && Earlier(s, s.calls[c]).Some?
    ensures LogOf(s, s.calls[c].u) != [Earlier(s, s.calls[c]).value] <==> KeyTaken(s, s.calls[c])
  {
    var call := s.calls[c];
    var v := s.keys[(call.seen.user, call.key)];
    assert RowFits(s, call.u) && RowFits(s, v);
  }

  /** A retry under the key of the call that won gets the recorded pair, at any later time, exactly as
      long as the row is there and the file is not purged. */
  lemma RetryReplays(acts: seq<Action>, more: seq<Action>, c: nat, d: nat)
    requires var s := Exec(EMPTY, acts); c in s.calls && s.calls[c].verdict == Won && s.calls[c].made.Some?
    requires var s, s' := Exec(EMPTY, acts), Exec(Exec(EMPTY, acts), more);
      InPhase(s', d, Loaded) && SameKey(s.calls[c], s'.calls[d])
    ensures var s, s' := Exec(EMPTY, acts), Exec(Exec(EMPTY, acts), more);
      Step(s', CheckKey(d, true)) == At(s', d, Returned(s.calls[c].made)) <==>
        s.calls[c].u in s'.uploads && s.calls[c].made.value.file !in s'.purged
  {
    RunFromEmpty(acts);
    RunKeepsInv(Exec(EMPTY, acts), more);
    var s, s' := Exec(EMPTY, acts), Exec(Exec(EMPTY, acts), more);
    SameCall(s, s', c);
    assert CallFits(s, c) && CallFits(s', c) && RowFits(s', s.calls[c].u);
    LookupAnswers(s', c, d);
  }

  /** What the lookup finds under the key of a call that won: its pair, if and only if the row is there
      with its file; a pair under the key that another upload has by now is another call's. */
  lemma LookupAnswers(s: State, c: nat, d: nat)
    requires Inv(s) && c in s.calls && s.calls[c].verdict == Won && s.calls[c].made.Some?
    requires InPhase(s, d, Loaded) && SameKey(s.calls[c], s.calls[d])
    ensures Step(s, CheckKey(d, true)) == At(s, d, Returned(s.calls[c].made)) <==>
      s.calls[c].u in s.uploads && s.calls[c].made.value.file !in s.purged
  {
    var call := s.calls[d];
    var k := (call.seen.user, call.key);
    assert CallFits(s, c) && RowFits(s, s.calls[c].u);
    if k in s.keys { assert RowFits(s, s.keys[k]); }
    var s', answered := Step(s, CheckKey(d, true)), At(s, d, Returned(s.calls[c].made));
    assert answered.calls[d].phase == Returned(s.calls[c].made);
    assert s' == answered <==> Earlier(s, call) == s.calls[c].made;
  }

  // ---------------------------------------------------------------- versions that nobody records

  /** A call that saw the upload completed never creates a version. */
  lemma {:induction false} LateCallCreatesNothing(acts: seq<Action>, c: nat)
    requires c in Exec(EMPTY, acts).calls && !Exec(EMPTY, acts).calls[c].seen.inProgress
    ensures Exec(EMPTY, acts).calls[c].made.None?
  {
    RunFromEmpty(acts);
    assert CallFits(Exec(EMPTY, acts), c);
  }

  /** A version is the recorded one of its upload exactly when the swap of its maker won. */
  lemma RecordedIffWon(acts: seq<Action>, v: VersionId)
    requires v in Exec(EMPTY, acts).versions
    ensures var s := Exec(EMPTY, acts);
      var c := s.versions[v].maker;
      && c in s.calls && s.calls[c].made == Some(Pair(s.versions[v].file, v))
      && (LogOf(s, s.calls[c].u) == [Pair(s.versions[v].file, v)] <==> s.calls[c].verdict == Won)
  {
    RunFromEmpty(acts);
    var s := Exec(EMPTY, acts);
    assert VersionFits(s, v);
    var c := s.versions[v].maker;
    assert CallFits(s, c) && RowFits(s, s.calls[c].u);
  }

  /** The version a call has created is left unrecorded, now and for good, exactly when its swap finds
      the row gone, the upload done, the key with another upload, or the file purged, or fails. */
  lemma OrphanedIff(acts: seq<Action>, c: nat, answered: bool, more: seq<Action>)
    requires c in Exec(EMPTY, acts).calls && Exec(EMPTY, acts).calls[c].phase.Created?
    ensures var s := Exec(EMPTY, acts);
      var s' := Exec(Step(s, Swap(c, answered)), more);
      var call := s.calls[c];
      LogOf(s', call.u) != [call.phase.pair] <==>
        (!answered || call.u !in s.uploads || !s.uploads[call.u].inProgress || KeyTaken(s, call) ||
          call.phase.pair.file in s.purged)
  {
    var s := Exec(EMPTY, acts);
    RunFromEmpty(acts);
    StepKeepsInv(s, Swap(c, answered));
    var t := Step(s, Swap(c, answered));
    assert t.calls[c].verdict == if answered then SwapVerdict(s, s.calls[c]) else Failed;
    assert CallFits(s, c);
    hide Step, KeyTaken;
    RunKeepsInv(t, more);
    var s' := Exec(t, more);
    SameCall(s, t, c);
    SameCall(t, s', c);
    assert CallFits(s', c) && RowFits(s', s.calls[c].u);
  }

  // ---------------------------------------------------------------- calls that do not overlap

  ghost predicate AllReturned(s: State, u: UploadId) {
    forall c :: c in s.calls && s.calls[c].u == u ==> s.calls[c].phase.Returned?
  }

  /** Every call for u is loaded only after the earlier ones have returned. */
  ghost predicate SerialFor(acts: seq<Action>, u: UploadId) {
    forall i :: 0 <= i < |acts| && acts[i].Load? && acts[i].u == u ==> AllReturned(Exec(EMPTY, acts[..i]), u)
  }

  predicate Active(s: State, c: nat, u: UploadId) {
    c in s.calls && s.calls[c].u == u && !s.calls[c].phase.Returned?
  }

  /** The call is on its way to a swap that can still win, and none has lost to another call. */
  ghost predicate OnItsWay(s: State, c: nat, u: UploadId) {
    && (Active(s, c, u) && s.calls[c].seen.inProgress && !s.calls[c].phase.Lost? && u in s.uploads ==>
      s.uploads[u].inProgress)
    && (c in s.calls && s.calls[c].u == u ==> s.calls[c].verdict != AlreadyDone && s.calls[c].verdict != KeyHeld)
  }

  ghost predicate SerialInv(s: State, u: UploadId) {
    && (forall c, d :: Active(s, c, u) && Active(s, d, u) ==> c == d)
    && (forall c :: OnItsWay(s, c, u))
  }

  lemma SwapEndsProgress(s: State, c: nat, answered: bool, u: UploadId)
    ensures var s' := DoSwap(s, c, answered);
      s'.uploads == s.uploads ||
        (c in s.calls && s.calls[c].phase.Created? && c in s'.calls && s'.calls[c].phase.Returned?
        && s.calls[c].u in s.uploads && s'.uploads == s.uploads[s.calls[c].u := s'.uploads[s.calls[c].u]])
  {
    hide KeyTaken, LogOf;
  }

  lemma CreateKeepsUploads(s: State, c: nat, file: FileId, version: VersionId)
    ensures DoCreate(s, c, file, version).uploads == s.uploads
  {
    hide FreshIds;
  }

  /** Only a winning swap of a call for u ends its progress. */
  lemma ProgressEnds(s: State, a: Action, u: UploadId)
    requires u in s.issued && u in Step(s, a).uploads && !Step(s, a).uploads[u].inProgress
    requires u in s.uploads ==> s.uploads[u].inProgress
    ensures a.Swap? && Active(s, a.c, u) && a.c in Step(s, a).calls && Step(s, a).calls[a.c].phase.Returned?
  {
    hide DoSwap, DoCreate, DoCheckKey, DoFetch;
    if IsPhaseAction(a) {
      PhaseShape(s, a);
    } else {
      match a
      case Swap(c, answered) => SwapEndsProgress(s, c, answered, u);
      case Create(c, file, version) => CreateKeepsUploads(s, c, file, version);
      case _ =>
    }
  }

  lemma SwapsOnItsWay(s: State, c: nat, answered: bool, u: UploadId)
    requires Inv(s) && Unshared(s) && OnItsWay(s, c, u) && c in s.calls && s.calls[c].u == u
    ensures OnItsWay(DoSwap(s, c, answered), c, u)
  {
    KeyIsOwn(s, c);
    assert CallFits(s, c);
    hide KeyTaken, LogOf;
  }

  lemma OthersKeepVerdict(s: State, a: Action, c: nat)
    requires c in s.calls && !a.Swap? && c in Step(s, a).calls
    ensures a.Load? || Step(s, a).calls[c].verdict == s.calls[c].verdict
    ensures s.calls[c].phase.Lost? ==> a.Load? || Step(s, a).calls[c].phase.Lost? || Step(s, a).calls[c].phase.Returned?
  {
    hide FreshIds, Earlier;
  }

  /** An active call was active before, or has just been loaded. */
  lemma ActiveBefore(s: State, a: Action, c: nat, u: UploadId)
    requires Extends(s, Step(s, a)) && Active(Step(s, a), c, u)
    ensures Active(s, c, u) || (c !in s.calls && a.Load? && a.c == c && u in s.uploads && a.u == u
              && Step(s, a) == s.(calls := s.calls[c := Call(u, a.key, s.uploads[u], Loaded, None, Pending)]))
  {
    StepOwnCall(s, a);
    if c in s.calls {
      SameCall(s, Step(s, a), c);
    } else {
      hide DoSwap, DoCreate, DoPurge, DoDelete, DoCheckKey, DoFetch;
      assert a.Load?;
    }
  }

  lemma OldCallOnItsWay(s: State, a: Action, c: nat, u: UploadId)
    requires Inv(s) && SerialInv(s, u) && Extends(s, Step(s, a)) && c in s.calls && !(a.Swap? && a.c == c)
    ensures OnItsWay(Step(s, a), c, u)
  {
    var s' := Step(s, a);
    assert OnItsWay(s, c, u) && CallFits(s, c);
    SameCall(s, s', c);
    KeepsVerdict(s, a, c);
    if Active(s', c, u) && u in s'.uploads && !s'.uploads[u].inProgress && s'.calls[c].seen.inProgress &&
      !s'.calls[c].phase.Lost? {
      hide Step;
      assert Active(s, c, u);
      ProgressEnds(s, a, u);
    }
  }

  lemma KeepsVerdict(s: State, a: Action, c: nat)
    requires c in s.calls && !(a.Swap? && a.c == c) && c in Step(s, a).calls
    ensures Step(s, a).calls[c].verdict == s.calls[c].verdict
    ensures s.calls[c].phase.Lost? ==> Step(s, a).calls[c].phase.Lost? || Step(s, a).calls[c].phase.Returned?
  {
    StepOwnCall(s, a);
    if !a.Load? && !a.Swap? { OthersKeepVerdict(s, a, c); }
    if a.Load? { assert Step(s, a).calls[c] == s.calls[c]; }
  }

  lemma StepKeepsSerial(s: State, a: Action, u: UploadId)
    requires Inv(s) && Unshared(s) && SerialInv(s, u) && (a.Load? && a.u == u ==> AllReturned(s, u))
    ensures SerialInv(Step(s, a), u)
  {
    var s' := Step(s, a);
    StepKeepsInv(s, a);
    hide Extends, Inv, Unshared;
    forall c, d | Active(s', c, u) && Active(s', d, u) ensures c == d {
      ActiveBefore(s, a, c, u);
      ActiveBefore(s, a, d, u);
    }
    forall c ensures OnItsWay(s', c, u) {
      if a.Swap? && a.c == c && c in s.calls && s.calls[c].u == u {
        SwapsOnItsWay(s, c, a.answered, u);
      } else if c in s.calls && s.calls[c].u != u {
        SameCall(s, s', c);
      } else if c in s.calls {
        OldCallOnItsWay(s, a, c, u);
      } else if Active(s', c, u) {
        ActiveBefore(s, a, c, u);
      } else if c in s'.calls {
        NewCallIsLoaded(s, a, c);
      }
    }
  }

  lemma {:induction false} RunKeepsSerial(acts: seq<Action>, u: UploadId)
    requires Unshared(Exec(EMPTY, acts)) && SerialFor(acts, u)
    ensures SerialInv(Exec(EMPTY, acts), u)
  {
    if acts != [] {
      var front, a := acts[..|acts| - 1], acts[|acts| - 1];
      var s := Exec(EMPTY, front);
      RunFromEmpty(front);
      StepKeepsInv(s, a);
      hide Inv, Unshared, Step, SerialInv, AllReturned;
      UnsharedBefore(s, Step(s, a));
      SerialFront(acts, u);
      RunKeepsSerial(front, u);
      StepKeepsSerial(s, a, u);
    }
  }

  lemma SerialFront(acts: seq<Action>, u: UploadId)
    requires acts != [] && SerialFor(acts, u)
    ensures SerialFor(acts[..|acts| - 1], u)
    ensures acts[|acts| - 1].Load? && acts[|acts| - 1].u == u ==> AllReturned(Exec(EMPTY, acts[..|acts| - 1]), u)
  {
    hide AllReturned, Exec;
    var front := acts[..|acts| - 1];
    forall i | 0 <= i < |front| && front[i].Load? && front[i].u == u ensures AllReturned(Exec(EMPTY, front[..i]), u) {
      assert front[..i] == acts[..i];
    }
  }

  /** Callers that use a key for one upload only and wait for one call before they make the next leave
      nothing behind: while the row is there, every version made for u by a call that has returned is
      the recorded one, unless its file is purged or its swap failed outright. */
  lemma SerialCallsOrphanNothing(acts: seq<Action>, u: UploadId, v: VersionId)
    requires Unshared(Exec(EMPTY, acts)) && SerialFor(acts, u) && v in Exec(EMPTY, acts).versions
    requires var s := Exec(EMPTY, acts);
      var c := s.versions[v].maker;
      c in s.calls && s.calls[c].u == u && s.calls[c].phase.Returned? && s.calls[c].verdict != Failed
      && u in s.uploads && s.versions[v].file !in s.purged
    ensures Exec(EMPTY, acts).uploads[u].recorded == Some(Pair(Exec(EMPTY, acts).versions[v].file, v))
  {
    var s := Exec(EMPTY, acts);
    RunFromEmpty(acts);
    RunKeepsSerial(acts, u);
    var c := s.versions[v].maker;
    assert VersionFits(s, v) && CallFits(s, c) && RowFits(s, u) && OnItsWay(s, c, u);
  }
}
