/**
 Which file a completed upload ends up in, and what each call answers: a re-upload adds a version to the
 file it was opened for, any other upload makes a file of its own, whatever runs in between.
 */
module CompleteTargets {
  import opened Entities
  import opened CompleteRace
  import opened CompleteResults
  import opened CompleteOrphans

  // ---------------------------------------------------------------- the swap

  /** A swap reaches the database and finds its row in progress and its key not with another upload. */
  predicate Unhindered(s: State, call: Call, answered: bool) {
    && answered && call.u in s.uploads && s.uploads[call.u].inProgress
    && !(call.key != "" && (call.seen.user, call.key) in s.keys && s.keys[(call.seen.user, call.key)] != call.u)
  }

  /** It wins exactly if, on top of that, the file is still there; it is told apart as lost exactly when the
      row or the key is in the way. */
  lemma {:induction false} SwapSettles(s: State, c: nat, answered: bool)
    requires c in s.calls && s.calls[c].phase.Created?
    ensures var t, call := Step(s, Swap(c, answered)), s.calls[c];
      && c in t.calls
      && t.calls == s.calls[c := call.(phase := t.calls[c].phase, verdict := t.calls[c].verdict)]
      && t.calls[c].phase ==
        if answered && !Unhindered(s, call, answered) then Lost
        else Returned(if answered && call.phase.pair.file !in s.purged then Some(call.phase.pair) else None)
  {
    if Unhindered(s, s.calls[c], answered) { RecordEnds(s, c, s.calls[c].phase.pair); }
    hide Record;
  }

  lemma RecordEnds(s: State, c: nat, pair: Pair)
    requires c in s.calls && s.calls[c].u in s.uploads
    ensures Record(s, c, pair).calls == s.calls[c := s.calls[c].(phase := Returned(Some(pair)), verdict := Won)]
  {
  }

  /** A swap that wins completes the row and takes the key; any other writes nothing. */
  lemma {:induction false} SwapWrites(s: State, c: nat, answered: bool)
    requires c in s.calls && s.calls[c].phase.Created?
    ensures var t, call := Step(s, Swap(c, answered)), s.calls[c];
      && t == s.(uploads := t.uploads, keys := t.keys, log := t.log, calls := t.calls)
      && if Unhindered(s, call, answered) && call.phase.pair.file !in s.purged then
           && t.uploads == s.uploads[call.u :=
                s.uploads[call.u].(inProgress := false, recorded := Some(call.phase.pair))]
           && t.keys == if call.key == "" then s.keys else s.keys[(call.seen.user, call.key) := call.u]
         else t.uploads == s.uploads && t.keys == s.keys && t.log == s.log
  {
    hide LogOf;
  }

  lemma SwapMakesNothing(s: State, c: nat, answered: bool, d: nat)
    requires d in s.calls
    ensures d in DoSwap(s, c, answered).calls && DoSwap(s, c, answered).calls[d].made == s.calls[d].made
  {
    if c in s.calls && s.calls[c].phase.Created? {
      SwapSettles(s, c, answered);
      hide DoSwap, Unhindered;
    }
  }

  lemma SwapKeepsTarget(s: State, c: nat, answered: bool, u: UploadId)
    requires u in DoSwap(s, c, answered).uploads
    ensures u in s.uploads && DoSwap(s, c, answered).uploads[u].target == s.uploads[u].target
  {
    if c in s.calls && s.calls[c].phase.Created? {
      SwapWrites(s, c, answered);
      hide DoSwap;
    }
  }

  // ---------------------------------------------------------------- what a call makes

  /** A call makes a version exactly when it has passed its checks and its target, if it saw one, is not
      purged: a version of the target, or of the new file. */
  lemma {:induction false} CreateMakesIff(s: State, c: nat, file: FileId, version: VersionId)
    requires FreshIds(s, file, version)
    ensures var t := Step(s, Create(c, file, version));
      if c !in s.calls || s.calls[c].phase != Passed then t == s
      else if s.calls[c].seen.target.Some? && s.calls[c].seen.target.value in s.purged then
        t == s.(calls := s.calls[c := s.calls[c].(phase := Returned(None))])
      else
        var pair := Pair(if s.calls[c].seen.target.Some? then s.calls[c].seen.target.value else file, version);
        && t.versions == s.versions[version := Version(pair.file, c)]
        && t.calls == s.calls[c := s.calls[c].(phase := Created(pair), made := Some(pair))]
        && t == s.(versions := t.versions, calls := t.calls)
  {
  }

  /** Only its own Create makes anything for a call. */
  lemma MadeByCreate(s: State, a: Action, c: nat)
    requires c in s.calls && s.calls[c].made.None? && c in Step(s, a).calls && Step(s, a).calls[c].made.Some?
    ensures a.Create? && a.c == c && InPhase(s, c, Passed) && FreshIds(s, a.file, a.version)
  {
    hide DoCheckKey, DoFetch, DoSwap, FreshIds;
    if IsPhaseAction(a) {
      PhaseShape(s, a);
    } else if a.Swap? {
      SwapMakesNothing(s, a.c, a.answered, c);
    }
  }

  ghost predicate MadeOfTarget(s: State, c: nat) {
    c in s.calls && s.calls[c].made.Some? && s.calls[c].seen.target.Some? ==>
      s.calls[c].made.value.file == s.calls[c].seen.target.value
  }

  lemma StepMakesOfTarget(s: State, a: Action, c: nat)
    requires Inv(s) && MadeOfTarget(s, c)
    ensures MadeOfTarget(Step(s, a), c)
  {
    StepKeepsInv(s, a);
    var t := Step(s, a);
    hide Inv, Step;
    if c in t.calls && t.calls[c].made.Some? {
      if c in s.calls {
        SameCall(s, t, c);
        if s.calls[c].made.None? {
          MadeByCreate(s, a, c);
          CreateMakesIff(s, c, a.file, a.version);
        }
      } else {
        LoadedMadeNothing(s, a, c);
      }
    }
  }

  lemma LoadedMadeNothing(s: State, a: Action, c: nat)
    requires Inv(s) && c !in s.calls && c in Step(s, a).calls
    ensures Step(s, a).calls[c].made.None?
  {
    StepKeepsInv(s, a);
    NewCallIsLoaded(s, a, c);
    assert CallFits(Step(s, a), c);
  }

  /** Two versions of one file: one of them at least was made for it on purpose. */
  ghost predicate SharedOnPurpose(s: State, v: VersionId, w: VersionId) {
    v in s.versions && w in s.versions && v != w && s.versions[v].file == s.versions[w].file ==>
      Aims(s, s.versions[v].maker, s.versions[v].file) || Aims(s, s.versions[w].maker, s.versions[v].file)
  }

  predicate Aims(s: State, c: nat, file: FileId) { c in s.calls && s.calls[c].seen.target == Some(file) }

  lemma StepSharesOnPurpose(s: State, a: Action, v: VersionId, w: VersionId)
    requires Inv(s) && SharedOnPurpose(s, v, w)
    ensures SharedOnPurpose(Step(s, a), v, w)
  {
    var t := Step(s, a);
    StepKeepsInv(s, a);
    if v in t.versions && w in t.versions && v != w && t.versions[v].file == t.versions[w].file {
      assert VersionFits(t, v) && VersionFits(t, w);
      if v in s.versions && w in s.versions {
        assert VersionFits(s, v) && VersionFits(s, w);
        SameCall(s, t, s.versions[v].maker);
        SameCall(s, t, s.versions[w].maker);
      } else {
        NewVersionIsCreated(s, a);
      }
    }
  }

  /** A step adds one version at most: of the target of its maker, or of a file that had none. */
  lemma NewVersionIsCreated(s: State, a: Action)
    ensures var t := Step(s, a);
      t.versions == s.versions ||
      (a.Create? && FreshIds(s, a.file, a.version) && InPhase(s, a.c, Passed) && a.c in t.calls &&
       t.calls[a.c].seen == s.calls[a.c].seen &&
       t.versions == s.versions[a.version := Version(if s.calls[a.c].seen.target.Some?
                                                     then s.calls[a.c].seen.target.value else a.file, a.c)])
  {
    hide DoCheckKey, DoFetch, SwapVerdict, LogOf, FreshIds;
    if IsPhaseAction(a) { PhaseShape(s, a); }
  }

  lemma {:induction false} RunMakesOfTarget(acts: seq<Action>, c: nat)
    ensures MadeOfTarget(Exec(EMPTY, acts), c)
  {
    if acts != [] {
      RunFromEmpty(acts[..|acts| - 1]);
      RunMakesOfTarget(acts[..|acts| - 1], c);
      StepMakesOfTarget(Exec(EMPTY, acts[..|acts| - 1]), acts[|acts| - 1], c);
    }
  }

  lemma {:induction false} RunSharesOnPurpose(acts: seq<Action>, v: VersionId, w: VersionId)
    ensures SharedOnPurpose(Exec(EMPTY, acts), v, w)
  {
    if acts != [] {
      RunFromEmpty(acts[..|acts| - 1]);
      RunSharesOnPurpose(acts[..|acts| - 1], v, w);
      StepSharesOnPurpose(Exec(EMPTY, acts[..|acts| - 1]), acts[|acts| - 1], v, w);
    }
  }

  /** Over every run: a call that saw a target makes a version of it; a call that saw none makes a version
      of a file that has no other, except from calls that saw that file as their target. */
  lemma MadeWhereAimed(acts: seq<Action>, c: nat)
    requires c in Exec(EMPTY, acts).calls && Exec(EMPTY, acts).calls[c].made.Some?
    ensures var s := Exec(EMPTY, acts);
      var target, made := s.calls[c].seen.target, s.calls[c].made.value;
      && (target.Some? ==> made.file == target.value)
      && (target.None? ==> forall v :: v in s.versions && s.versions[v].file == made.file && v != made.version ==>
            Aims(s, s.versions[v].maker, made.file))
  {
    var s := Exec(EMPTY, acts);
    RunFromEmpty(acts);
    RunMakesOfTarget(acts, c);
    assert CallFits(s, c);
    var made := s.calls[c].made.value;
    forall v | s.calls[c].seen.target.None? && v in s.versions && s.versions[v].file == made.file && v != made.version
      ensures Aims(s, s.versions[v].maker, made.file)
    {
      RunSharesOnPurpose(acts, v, made.version);
    }
  }

  // ---------------------------------------------------------------- from opening to answer

  /** Everything there is of u was opened for the target. */
  ghost predicate OpenedFor(s: State, u: UploadId, target: Option<FileId>) {
    && u in s.issued
    && (u in s.uploads ==> s.uploads[u].target == target)
    && (forall c :: c in s.calls && s.calls[c].u == u ==> s.calls[c].seen.target == target)
  }

  lemma StepKeepsOpenedFor(s: State, a: Action, u: UploadId, target: Option<FileId>)
    requires Inv(s) && OpenedFor(s, u, target) && (target.Some? ==> target.value !in Step(s, a).purged)
    ensures OpenedFor(Step(s, a), u, target)
  {
    StepKeepsInv(s, a);
    var t := Step(s, a);
    hide Step, Inv, RowFits, CallFits;
    if u in t.uploads { RowKeepsTarget(s, a, u); }
    forall c | c in t.calls && t.calls[c].u == u ensures t.calls[c].seen.target == target {
      if c in s.calls { SameCall(s, t, c); } else { LoadSeesRow(s, a, c); }
    }
  }

  lemma RowKeepsTarget(s: State, a: Action, u: UploadId)
    requires u in s.issued && u in Step(s, a).uploads
    ensures u in s.uploads
    ensures Step(s, a).uploads[u].target == s.uploads[u].target ||
            (s.uploads[u].target.Some? && s.uploads[u].target.value in Step(s, a).purged)
  {
    hide DoCheckKey, DoFetch, DoSwap, DoCreate;
    if IsPhaseAction(a) {
      PhaseShape(s, a);
    } else {
      match a
      case Swap(c, answered) => SwapKeepsTarget(s, c, answered, u);
      case Create(c, file, version) => CreateKeepsUploads(s, c, file, version);
      case _ =>
    }
  }

  lemma LoadSeesRow(s: State, a: Action, c: nat)
    requires c !in s.calls && c in Step(s, a).calls
    ensures a.Load? && a.c == c && a.u in s.uploads
    ensures Step(s, a).calls[c] == Call(a.u, a.key, s.uploads[a.u], Loaded, None, Pending)
  {
    hide DoCheckKey, DoFetch, DoSwap, DoCreate;
    StepOwnCall(s, a);
  }

  lemma {:induction false} RunKeepsOpenedFor(s: State, acts: seq<Action>, u: UploadId, target: Option<FileId>)
    requires Inv(s) && OpenedFor(s, u, target) && (target.Some? ==> target.value !in Exec(s, acts).purged)
    ensures OpenedFor(Exec(s, acts), u, target)
  {
    if acts != [] {
      var t, a := Exec(s, acts[..|acts| - 1]), acts[|acts| - 1];
      RunKeepsInv(s, acts[..|acts| - 1]);
      StepKeepsInv(t, a);
      hide Inv, OpenedFor, Step;
      RunKeepsOpenedFor(s, acts[..|acts| - 1], u, target);
      StepKeepsOpenedFor(t, a, u, target);
    }
  }

  lemma NewIsOpenedFor(s: State, u: UploadId, user: UserId, target: Option<FileId>)
    requires Inv(s) && u !in s.issued
    ensures OpenedFor(Step(s, NewUpload(u, user, target)), u, target)
  {
    forall c | c in s.calls ensures s.calls[c].u != u {
      assert CallFits(s, c);
    }
  }

  lemma {:induction false} ExecAppends(s: State, acts: seq<Action>, more: seq<Action>)
    ensures Exec(s, acts + more) == Exec(Exec(s, acts), more)
  {
    if more == [] {
      assert acts + more == acts;
    } else {
      ExecAppends(s, acts, more[..|more| - 1]);
      assert (acts + more)[..|acts + more| - 1] == acts + more[..|more| - 1];
    }
  }

  /** The pair recorded for an upload was made by a call for it, and so where that call aimed. */
  lemma RecordedWhereAimed(acts: seq<Action>, u: UploadId, target: Option<FileId>)
    requires OpenedFor(Exec(EMPTY, acts), u, target) && |LogOf(Exec(EMPTY, acts), u)| == 1
    ensures var s, pair := Exec(EMPTY, acts), LogOf(Exec(EMPTY, acts), u)[0];
      && (target.Some? ==> pair.file == target.value)
      && (target.None? ==> forall v :: v in s.versions && s.versions[v].file == pair.file && v != pair.version ==>
            Aims(s, s.versions[v].maker, pair.file))
  {
    RunFromEmpty(acts);
    var s, pair := Exec(EMPTY, acts), LogOf(Exec(EMPTY, acts), u)[0];
    assert RowFits(s, u);
    MadeWhereAimed(acts, s.versions[pair.version].maker);
  }

  /** What an upload was opened for is where it ends, under any interleaving with unshared keys. Every call
      for it that succeeded, at any time, returned a version of the target, unless that file is purged; and
      for an upload without a target, a version of a file that has no other but by uploads opened for it. */
  lemma AnswersHitTheTarget(acts: seq<Action>, i: nat, u: UploadId, user: UserId, target: Option<FileId>, c: nat)
    requires i < |acts| && acts[i] == NewUpload(u, user, target) && u !in Exec(EMPTY, acts[..i]).issued
    requires var s := Exec(EMPTY, acts);
      && Unshared(s) && (target.Some? ==> target.value !in s.purged)
      && c in s.calls && s.calls[c].u == u && s.calls[c].phase.Returned? && s.calls[c].phase.result.Some?
    ensures var s := Exec(EMPTY, acts);
      var pair := s.calls[c].phase.result.value;
      && (target.Some? ==> pair.file == target.value)
      && (target.None? ==> forall v :: v in s.versions && s.versions[v].file == pair.file && v != pair.version ==>
            Aims(s, s.versions[v].maker, pair.file))
  {
    hide Step, Exec, Inv, OpenedFor, Aims, Unshared;
    OpenedForGood(acts, i, u, user, target);
    OneResultForAll(acts, u);
    RecordedWhereAimed(acts, u, target);
  }

  lemma OpenedForGood(acts: seq<Action>, i: nat, u: UploadId, user: UserId, target: Option<FileId>)
    requires i < |acts| && acts[i] == NewUpload(u, user, target) && u !in Exec(EMPTY, acts[..i]).issued
    requires target.Some? ==> target.value !in Exec(EMPTY, acts).purged
    ensures OpenedFor(Exec(EMPTY, acts), u, target)
  {
    hide Step, Inv, OpenedFor;
    var s0, more := Exec(EMPTY, acts[..i]), acts[i + 1..];
    RunFromEmpty(acts[..i]);
    StepKeepsInv(s0, acts[i]);
    NewIsOpenedFor(s0, u, user, target);
    assert acts[..i + 1][..i] == acts[..i] && acts == acts[..i + 1] + more;
    ExecAppends(EMPTY, acts[..i + 1], more);
    RunKeepsOpenedFor(Step(s0, acts[i]), more, u, target);
  }

  // ---------------------------------------------------------------- how calls end

  /** A call that lost answers with what is recorded for its upload, over every run: with the winner's
      pair, as long as the row is there and the file is not purged. */
  lemma LoserAnswersWithWinner(acts: seq<Action>, c: nat, answered: bool)
    requires InPhase(Exec(EMPTY, acts), c, Lost)
    ensures var s := Exec(EMPTY, acts);
      var u := s.calls[c].u;
      Step(s, FetchWinner(c, answered)) == At(s, c, Returned(
        if answered && u in s.uploads && LogOf(s, u) != [] && LogOf(s, u)[0].file !in s.purged
        then Some(LogOf(s, u)[0]) else None))
  {
    var s := Exec(EMPTY, acts);
    var u := s.calls[c].u;
    assert RowFits(s, u) by { RunFromEmpty(acts); }
    hide Exec, Inv;
    if u in s.uploads { RowShows(s, u); }
    hide RowFits, LogOf;
  }

  lemma RowShows(s: State, u: UploadId)
    requires RowFits(s, u) && u in s.uploads
    ensures s.uploads[u].recorded ==
      if LogOf(s, u) != [] && LogOf(s, u)[0].file !in s.purged then Some(LogOf(s, u)[0]) else None
  {
  }

  /** Opening, loading, purging and deleting, row by row. */
  lemma {:induction false} RowsTouched(s: State, a: Action)
    ensures var t := Step(s, a);
      match a
      case NewUpload(u, user, target) =>
        if u in s.issued then t == s
        else t == s.(uploads := s.uploads[u := Upload(user, true, target, None)], issued := s.issued + {u})
      case Load(c, u, key) =>
        if c in s.calls || u !in s.uploads then t == s
        else t == s.(calls := s.calls[c := Call(u, key, s.uploads[u], Loaded, None, Pending)])
      case Reject(c) =>
        if c in s.calls && s.calls[c].phase == Passed then t == At(s, c, Returned(None)) else t == s
      case Purge(file) =>
        && t == s.(purged := s.purged + {file}, uploads := t.uploads) && t.uploads.Keys == s.uploads.Keys
        && forall u :: u in s.uploads ==>
             && t.uploads[u].user == s.uploads[u].user && t.uploads[u].inProgress == s.uploads[u].inProgress
             && t.uploads[u].target == (if s.uploads[u].target == Some(file) then None else s.uploads[u].target)
             && (t.uploads[u].recorded == s.uploads[u].recorded || t.uploads[u].recorded == None)
             && (t.uploads[u].recorded.Some? ==> t.uploads[u].recorded.value.file != file)
             && (s.uploads[u].recorded.Some? && s.uploads[u].recorded.value.file != file ==>
                   t.uploads[u].recorded.Some?)
      case DeleteUploads(us) =>
        && t == s.(uploads := t.uploads, keys := t.keys)
        && t.uploads.Keys == s.uploads.Keys - us && (forall u :: u in t.uploads ==> t.uploads[u] == s.uploads[u])
        && (forall k :: k in t.keys <==> k in s.keys && s.keys[k] !in us)
        && (forall k :: k in t.keys ==> t.keys[k] == s.keys[k])
      case _ => true
  {
    hide DoCheckKey, DoFetch, DoSwap, DoCreate;
  }

  // ---------------------------------------------------------------- a call that nothing interrupts

  /** What a call alone answers: the result under its key, if the lookup finds one; else its own version,
      of the target if there is one, unless the upload is done, the request unacceptable, the target
      purged, the swap fails or another upload has the key. */
  function Answer(s: State, u: UploadId, key: string, fate: Fate): Option<Pair>
    requires u in s.uploads
  {
    var row, k := s.uploads[u], (s.uploads[u].user, key);
    if fate.lookup && key != "" && k in s.keys && s.keys[k] in s.uploads && s.uploads[s.keys[k]].recorded.Some? then
      s.uploads[s.keys[k]].recorded
    else if && row.inProgress && fate.acceptable && fate.swap && !(row.target.Some? && row.target.value in s.purged)
            && !(key != "" && k in s.keys && s.keys[k] != u) then
      Some(Pair(if row.target.Some? then row.target.value else fate.file, fate.version))
    else None
  }

  lemma AloneAnswers(s: State, c: nat, u: UploadId, key: string, fate: Fate)
    requires Inv(s) && c !in s.calls && u in s.uploads && FreshIds(s, fate.file, fate.version)
    ensures var t := Alone(s, c, u, key, fate);
      c in t.calls && t.calls[c].phase == Returned(Answer(s, u, key, fate))
  {
    assert RowFits(s, u);
    BeginAnswers(s, c, u, key, fate.lookup);
    var s1 := Step(Step(s, Load(c, u, key)), CheckKey(c, fate.lookup));
    assert FreshIds(s1, fate.file, fate.version);
    hide Step, Inv, RowFits, FreshIds;
    if s1.calls[c].phase.Returned? {
      StaysReturned(s1, c, fate);
    } else if !fate.acceptable {
      RejectShape(s1, c);
      StaysReturned(Step(s1, Reject(c)), c, fate);
    } else {
      PassedAnswers(s1, c, fate);
    }
  }

  lemma PassedAnswers(s: State, c: nat, fate: Fate)
    requires InPhase(s, c, Passed) && FreshIds(s, fate.file, fate.version) && s.calls[c].u in s.uploads
    requires s.uploads[s.calls[c].u].inProgress && s.uploads[s.calls[c].u].recorded.None?
    ensures var call, s' := s.calls[c], Step(s, Create(c, fate.file, fate.version));
      var t := Step(Step(s', Swap(c, fate.swap)), FetchWinner(c, fate.fetch));
      c in t.calls && t.calls[c].phase == Returned(
        if Unhindered(s, call, fate.swap) && !(call.seen.target.Some? && call.seen.target.value in s.purged)
        then Some(Pair(if call.seen.target.Some? then call.seen.target.value else fate.file, fate.version)) else None)
  {
    CreateMakesIff(s, c, fate.file, fate.version);
    hide Step;
    var s' := Step(s, Create(c, fate.file, fate.version));
    if s'.calls[c].phase.Returned? { StaysReturned(s', c, fate); } else { FinishAnswers(s', c, fate); }
  }

  lemma BeginAnswers(s: State, c: nat, u: UploadId, key: string, answered: bool)
    requires c !in s.calls && u in s.uploads
    ensures var row, k := s.uploads[u], (s.uploads[u].user, key);
      var found := answered && key != "" && k in s.keys && s.keys[k] in s.uploads &&
                   s.uploads[s.keys[k]].recorded.Some?;
      Step(Step(s, Load(c, u, key)), CheckKey(c, answered)) == s.(calls := s.calls[c := Call(u, key, row,
        if found then Returned(s.uploads[s.keys[k]].recorded) else if row.inProgress then Passed else Returned(None),
        None, Pending)])
  {
  }

  lemma FinishAnswers(s: State, c: nat, fate: Fate)
    requires c in s.calls && s.calls[c].phase.Created? && s.calls[c].u in s.uploads
    requires s.uploads[s.calls[c].u].inProgress && s.uploads[s.calls[c].u].recorded.None?
    requires s.calls[c].phase.pair.file !in s.purged
    ensures var t := Step(Step(s, Swap(c, fate.swap)), FetchWinner(c, fate.fetch));
      c in t.calls && t.calls[c].phase ==
        Returned(if Unhindered(s, s.calls[c], fate.swap) then Some(s.calls[c].phase.pair) else None)
  {
    SwapSettles(s, c, fate.swap);
    SwapWrites(s, c, fate.swap);
    hide DoSwap, Unhindered;
  }

  lemma RejectShape(s: State, c: nat)
    requires InPhase(s, c, Passed)
    ensures Step(s, Reject(c)) == At(s, c, Returned(None))
  {
  }

  lemma StaysReturned(s: State, c: nat, fate: Fate)
    requires c in s.calls && s.calls[c].phase.Returned?
    ensures Step(s, Create(c, fate.file, fate.version)) == s == Step(s, Reject(c))
    ensures Step(s, Swap(c, fate.swap)) == s == Step(s, FetchWinner(c, fate.fetch))
  {
  }
}
