/**
 Calls of CompleteRace that nothing interrupts, and the runs that show what its theorems leave open:
 shared keys that mix uploads up, and versions that nobody records.
 */
module CompleteOrphans {
  import opened Entities
  import opened CompleteRace
  import CompleteResults

  // ---------------------------------------------------------------- one call at a time

  /** What a call finds on its way: which of its database calls answer, whether the request is
      acceptable, and the ids the file repository would hand out. */
  datatype Fate = Fate(lookup: bool, acceptable: bool, file: FileId, version: VersionId, swap: bool, fetch: bool)

  /** A call whose steps nothing interrupts. */
  function Alone(s: State, c: nat, u: UploadId, key: string, fate: Fate): State {
    var s1 := Step(Step(s, Load(c, u, key)), CheckKey(c, fate.lookup));
    var s2 := Step(s1, if fate.acceptable then Create(c, fate.file, fate.version) else Reject(c));
    Step(Step(s2, Swap(c, fate.swap)), FetchWinner(c, fate.fetch))
  }

  /** The call after it has been loaded and has found nothing under its key. */
  function WithCall(s: State, c: nat, u: UploadId, key: string): State
    requires u in s.uploads
  {
    s.(calls := s.calls[c := Call(u, key, s.uploads[u], Passed, None, Pending)])
  }

  lemma PassesKey(s: State, c: nat, u: UploadId, key: string, answered: bool)
    requires c !in s.calls && u in s.uploads && s.uploads[u].inProgress
    requires Earlier(s, Call(u, key, s.uploads[u], Loaded, None, Pending)).None?
    ensures Step(Step(s, Load(c, u, key)), CheckKey(c, answered)) == WithCall(s, c, u, key)
  {
    var call := Call(u, key, s.uploads[u], Loaded, None, Pending);
    var s1 := s.(calls := s.calls[c := call]);
    assert Step(s, Load(c, u, key)) == s1;
    assert Earlier(s1, call) == Earlier(s, call);
    assert At(s1, c, Passed).calls == WithCall(s, c, u, key).calls;
  }

  /** A call that runs alone, with its key free and an upload of a new file, records its own pair. */
  lemma AloneWins(s: State, c: nat, u: UploadId, key: string, pair: Pair)
    requires c !in s.calls && u in s.uploads && s.uploads[u].inProgress && s.uploads[u].target.None?
    requires (s.uploads[u].user, key) !in s.keys && FreshIds(s, pair.file, pair.version)
    ensures Step(Step(WithCall(s, c, u, key), Create(c, pair.file, pair.version)), Swap(c, true)) ==
      Record(Make(WithCall(s, c, u, key), c, pair), c, pair)
  {
    hide Record;
    var s1 := WithCall(s, c, u, key);
    assert FreshIds(s1, pair.file, pair.version);
    assert Step(s1, Create(c, pair.file, pair.version)) == Make(s1, c, pair);
  }

  // ---------------------------------------------------------------- orphans without overlap

  /** The key of the next call for u is with another upload, whose file is purged. */
  predicate StuckOn(s: State, u: UploadId, key: string) {
    && u in s.uploads && s.uploads[u].inProgress && s.uploads[u].target.None? && s.uploads[u].recorded.None?
    && key != "" && (s.uploads[u].user, key) in s.keys
    && var w := s.keys[(s.uploads[u].user, key)];
    w != u && w in s.uploads && s.uploads[w].recorded.None?
  }

  predicate Smooth(s: State, fate: Fate) {
    fate.lookup && fate.acceptable && fate.swap && fate.fetch && FreshIds(s, fate.file, fate.version)
  }

  /** The call then creates a version, loses, returns nothing, and leaves everything as it was. */
  lemma StuckRetry(s: State, c: nat, u: UploadId, key: string, fate: Fate)
    requires StuckOn(s, u, key) && Smooth(s, fate) && c !in s.calls
    ensures Alone(s, c, u, key, fate) == s.(
      versions := s.versions[fate.version := Version(fate.file, c)],
      calls := s.calls[c := Call(u, key, s.uploads[u], Returned(None), Some(Pair(fate.file, fate.version)), KeyHeld)])
  {
    var pair, row := Pair(fate.file, fate.version), s.uploads[u];
    PassesKey(s, c, u, key, true);
    var s1 := WithCall(s, c, u, key);
    assert FreshIds(s1, pair.file, pair.version);
    var s2 := s1.(versions := s.versions[pair.version := Version(pair.file, c)],
                  calls := s.calls[c := Call(u, key, row, Created(pair), Some(pair), Pending)]);
    assert Make(s1, c, pair).calls == s2.calls;
    assert Step(s1, Create(c, pair.file, pair.version)) == s2;
    StuckEnds(s2, c);
  }

  lemma StuckEnds(s: State, c: nat)
    requires c in s.calls && s.calls[c].phase.Created? && s.calls[c].u in s.uploads
    requires SwapVerdict(s, s.calls[c]) == KeyHeld && s.uploads[s.calls[c].u].recorded.None?
    ensures Step(Step(s, Swap(c, true)), FetchWinner(c, true)) ==
      s.(calls := s.calls[c := s.calls[c].(phase := Returned(None), verdict := KeyHeld)])
  {
    hide SwapVerdict, Record;
    var s1 := Settle(s, c, Lost, KeyHeld);
    assert Step(s, Swap(c, true)) == s1;
    assert At(s1, c, Returned(None)).calls == s.calls[c := s.calls[c].(phase := Returned(None), verdict := KeyHeld)];
  }

  /** One retry after the other, each by the next call. */
  function Retries(s: State, u: UploadId, key: string, first: nat, fates: seq<Fate>): State {
    if fates == [] then s
    else Alone(Retries(s, u, key, first, fates[..|fates| - 1]), first + |fates| - 1, u, key, fates[|fates| - 1])
  }

  /** Ids that are fresh, and different from one another. */
  predicate FreshFates(s: State, fates: seq<Fate>) {
    && (forall i :: 0 <= i < |fates| ==> Smooth(s, fates[i]))
    && (forall i, j :: 0 <= i < j < |fates| ==> fates[i].version != fates[j].version && fates[i].file != fates[j].file)
  }

  predicate Differs(fates: seq<Fate>, file: FileId, version: VersionId) {
    forall i :: 0 <= i < |fates| ==> fates[i].version != version && fates[i].file != file
  }

  /** Nothing but versions and calls has been added: one version for each of the fates. */
  ghost predicate Piled(s: State, s': State, first: nat, fates: seq<Fate>) {
    && s' == s.(versions := s'.versions, calls := s'.calls)
    && s'.versions.Keys == s.versions.Keys + (set i | 0 <= i < |fates| :: fates[i].version)
    && (forall file, version :: FreshIds(s, file, version) && Differs(fates, file, version) ==>
      FreshIds(s', file, version))
    && (forall c :: c in s'.calls ==> c < first + |fates|)
  }

  lemma PiledMore(s: State, t: State, s': State, first: nat, fates: seq<Fate>, last: Fate)
    requires Piled(s, t, first, fates) && first + |fates| in s'.calls
    requires s' == t.(versions := t.versions[last.version := Version(last.file, first + |fates|)],
                      calls := t.calls[first + |fates| := s'.calls[first + |fates|]])
    ensures Piled(s, s', first, fates + [last])
  {
    var all := fates + [last];
    forall file, version | FreshIds(s, file, version) && Differs(all, file, version)
      ensures FreshIds(s', file, version)
    {
      assert forall i :: 0 <= i < |fates| ==> all[i] == fates[i];
      assert all[|fates|] == last;
      assert Differs(fates, file, version);
    }
    var versions := set i | 0 <= i < |fates| :: fates[i].version;
    assert (set i | 0 <= i < |all| :: all[i].version) == versions + {last.version} by {
      assert all[|fates|] == last;
      assert forall i :: 0 <= i < |fates| ==> all[i] == fates[i];
    }
  }

  /** Retries one after the other, never overlapping, pile up one orphaned version each. */
  lemma {:induction false} RetriesPileUp(s: State, u: UploadId, key: string, first: nat, fates: seq<Fate>)
    requires StuckOn(s, u, key) && FreshFates(s, fates) && forall c :: c in s.calls ==> c < first
    ensures Piled(s, Retries(s, u, key, first, fates), first, fates)
  {
    hide Alone, Piled, StuckOn, Smooth;
    if fates == [] {
      NothingPiled(s, first);
    } else {
      var front, last := fates[..|fates| - 1], fates[|fates| - 1];
      var t := Retries(s, u, key, first, front);
      RetriesPileUp(s, u, key, first, front);
      StillStuck(s, t, u, key, first, front, last);
      StuckRetry(t, first + |front|, u, key, last);
      assert fates == front + [last];
      PiledMore(s, t, Alone(t, first + |front|, u, key, last), first, front, last);
    }
  }

  lemma NothingPiled(s: State, first: nat)
    requires forall c :: c in s.calls ==> c < first
    ensures Piled(s, s, first, [])
  {
  }

  lemma StillStuck(s: State, t: State, u: UploadId, key: string, first: nat, fates: seq<Fate>, last: Fate)
    requires Piled(s, t, first, fates) && StuckOn(s, u, key) && Smooth(s, last)
    requires forall i :: 0 <= i < |fates| ==> fates[i].version != last.version && fates[i].file != last.file
    ensures StuckOn(t, u, key) && Smooth(t, last) && first + |fates| !in t.calls
  {
    assert Differs(fates, last.file, last.version);
  }

  // ---------------------------------------------------------------- runs

  ghost predicate Reached(s: State) {
    exists acts :: Exec(EMPTY, acts) == s
  }

  lemma ReachStep(s: State, a: Action)
    requires Reached(s)
    ensures Reached(Step(s, a))
  {
    hide Step;
    var acts :| Exec(EMPTY, acts) == s;
    assert (acts + [a])[..|acts|] == acts;
    assert Exec(EMPTY, acts + [a]) == Step(s, a);
  }

  const ALICE := UserId("alice")
  const KEY := "k"
  const ROW := Upload(ALICE, true, None, None)

  function TwoRows(u: UploadId, v: UploadId): State {
    EMPTY.(uploads := map[u := ROW][v := ROW], issued := {u, v})
  }

  lemma TwoRowsReached(u: UploadId, v: UploadId)
    requires u != v
    ensures Reached(TwoRows(u, v))
  {
    assert Exec(EMPTY, []) == EMPTY;
    hide Reached;
    ReachStep(EMPTY, NewUpload(u, ALICE, None));
    var s1 := EMPTY.(uploads := map[u := ROW], issued := {u});
    assert Step(EMPTY, NewUpload(u, ALICE, None)) == s1;
    ReachStep(s1, NewUpload(v, ALICE, None));
    assert Step(s1, NewUpload(v, ALICE, None)) == TwoRows(u, v);
  }

  /** The first upload has completed under the key. */
  function FirstDone(u: UploadId, v: UploadId, pair: Pair): State {
    TwoRows(u, v).(
      uploads := map[u := ROW.(inProgress := false, recorded := Some(pair))][v := ROW], keys := map[(ALICE, KEY) := u],
      versions := map[pair.version := Version(pair.file, 0)], log := map[u := [pair]],
      calls := map[0 := Call(u, KEY, ROW, Returned(Some(pair)), Some(pair), Won)])
  }

  lemma FirstDoneReached(u: UploadId, v: UploadId, pair: Pair)
    requires u != v
    ensures Reached(FirstDone(u, v, pair))
  {
    var s0 := TwoRows(u, v);
    TwoRowsReached(u, v);
    PassesKey(s0, 0, u, KEY, true);
    AloneWins(s0, 0, u, KEY, pair);
    RecordsFirst(u, v, pair);
    hide Reached, Step;
    ReachStep(s0, Load(0, u, KEY));
    ReachStep(Step(s0, Load(0, u, KEY)), CheckKey(0, true));
    var s1 := WithCall(s0, 0, u, KEY);
    ReachStep(s1, Create(0, pair.file, pair.version));
    ReachStep(Step(s1, Create(0, pair.file, pair.version)), Swap(0, true));
  }

  lemma RecordsFirst(u: UploadId, v: UploadId, pair: Pair)
    requires u != v
    ensures Record(Make(WithCall(TwoRows(u, v), 0, u, KEY), 0, pair), 0, pair) == FirstDone(u, v, pair)
  {
    var s := Record(Make(WithCall(TwoRows(u, v), 0, u, KEY), 0, pair), 0, pair);
    var t := FirstDone(u, v, pair);
    assert [] + [pair] == [pair];
    assert s.uploads == t.uploads;
    assert s.calls == t.calls && s.keys == t.keys && s.versions == t.versions && s.log == t.log;
  }

  /** A shared key mixes uploads up: the call for the second returns the first one's file. */
  lemma SharedKeyMixesUploads(u: UploadId, v: UploadId, pair: Pair)
    requires u != v
    ensures exists s, c :: Reached(s) && c in s.calls && s.calls[c].u == v && s.calls[c].phase == Returned(Some(pair))
              && LogOf(s, v) == [] && LogOf(s, u) == [pair]
  {
    var s := FirstDone(u, v, pair);
    FirstDoneReached(u, v, pair);
    hide Reached;
    ReachStep(s, Load(1, v, KEY));
    var s1 := s.(calls := s.calls[1 := Call(v, KEY, ROW, Loaded, None, Pending)]);
    assert Step(s, Load(1, v, KEY)) == s1;
    ReachStep(s1, CheckKey(1, true));
    var s2 := Step(s1, CheckKey(1, true));
    assert s2 == At(s1, 1, Returned(Some(pair)));
    assert s2.calls[1].u == v && LogOf(s2, v) == [] && LogOf(s2, u) == [pair];
  }

  /** The first upload has completed, a retry under its key has loaded the row, and the row is deleted. */
  function Forgotten(u: UploadId, v: UploadId, pair: Pair): State {
    var s, done := FirstDone(u, v, pair), ROW.(inProgress := false, recorded := Some(pair));
    s.(uploads := map[v := ROW], keys := map[], calls := s.calls[1 := Call(u, KEY, done, Loaded, None, Pending)])
  }

  lemma ForgottenReached(u: UploadId, v: UploadId, pair: Pair)
    requires u != v
    ensures Reached(Forgotten(u, v, pair))
  {
    hide Reached;
    var s := FirstDone(u, v, pair);
    FirstDoneReached(u, v, pair);
    ReachStep(s, Load(1, u, KEY));
    var s1 := Step(s, Load(1, u, KEY));
    ReachStep(s1, DeleteUploads({u}));
    assert s1.uploads - {u} == map[v := ROW];
    assert DoDelete(s1, {u}).keys == map[];
    assert s1.calls == Forgotten(u, v, pair).calls;
  }

  /** The row of a completed upload can go while its file lives on; a retry under its key finds
      nothing then. */
  lemma DeletedRowIsForgotten(u: UploadId, v: UploadId, pair: Pair)
    requires u != v
    ensures exists s :: Reached(s) && pair.file !in s.purged && LogOf(s, u) == [pair] && s.calls.Keys == {0, 1} &&
              CompleteResults.SameKey(s.calls[0], s.calls[1]) &&
              s.calls[0].verdict == Won && s.calls[0].phase == Returned(Some(pair)) &&
              Step(s, CheckKey(1, true)) == At(s, 1, Returned(None))
  {
    hide Reached;
    var s := Forgotten(u, v, pair);
    ForgottenReached(u, v, pair);
    assert Earlier(s, s.calls[1]) == None;
    assert Step(s, CheckKey(1, true)) == At(s, 1, Returned(None));
  }

  /** And once that file is purged, the second upload is stuck on the key. */
  lemma StuckHappens(u: UploadId, v: UploadId, pair: Pair)
    requires u != v
    ensures exists s :: Reached(s) && StuckOn(s, v, KEY)
  {
    var s := FirstDone(u, v, pair);
    FirstDoneReached(u, v, pair);
    hide Reached;
    ReachStep(s, Purge(pair.file));
    assert StuckOn(Step(s, Purge(pair.file)), v, KEY);
  }

  /** Two overlapping calls can both create a version, and one is orphaned. */
  lemma OverlapOrphansAVersion(u: UploadId, v: UploadId, p: Pair, q: Pair)
    requires u != v && p.version != q.version && p.file != q.file
    ensures exists s :: Reached(s) && LogOf(s, u) == [p] && s.calls.Keys == {0, 1} && s.calls[1].u == u &&
              s.versions == map[p.version := Version(p.file, 0), q.version := Version(q.file, 1)]
  {
    var s0 := TwoRows(u, v);
    TwoRowsReached(u, v);
    BothPass(s0, u);
    var s1 := WithCall(WithCall(s0, 0, u, ""), 1, u, "");
    BothCreate(s1, u, p, q);
    hide Step, Reached;
    var s2 := Step(Step(Step(s1, Create(0, p.file, p.version)), Create(1, q.file, q.version)), Swap(0, true));
    ReachStep(s1, Create(0, p.file, p.version));
    ReachStep(Step(s1, Create(0, p.file, p.version)), Create(1, q.file, q.version));
    ReachStep(Step(Step(s1, Create(0, p.file, p.version)), Create(1, q.file, q.version)), Swap(0, true));
  }

  lemma BothPass(s: State, u: UploadId)
    requires Reached(s) && s.calls == map[] && u in s.uploads && s.uploads[u].inProgress
    ensures Reached(WithCall(WithCall(s, 0, u, ""), 1, u, ""))
  {
    var s1 := WithCall(s, 0, u, "");
    PassesKey(s, 0, u, "", true);
    PassesKey(s1, 1, u, "", true);
    hide Step, Reached;
    ReachStep(s, Load(0, u, ""));
    ReachStep(Step(s, Load(0, u, "")), CheckKey(0, true));
    ReachStep(s1, Load(1, u, ""));
    ReachStep(Step(s1, Load(1, u, "")), CheckKey(1, true));
  }

  lemma BothCreate(s: State, u: UploadId, p: Pair, q: Pair)
    requires u in s.uploads && s.uploads[u] == ROW && s.versions == map[] && s.purged == {} && LogOf(s, u) == []
    requires s.calls == map[0 := Call(u, "", ROW, Passed, None, Pending), 1 := Call(u, "", ROW, Passed, None, Pending)]
    requires p.version != q.version && p.file != q.file
    ensures var s' := Step(Step(Step(s, Create(0, p.file, p.version)), Create(1, q.file, q.version)), Swap(0, true));
      && LogOf(s', u) == [p] && s'.versions == map[p.version := Version(p.file, 0), q.version := Version(q.file, 1)]
      && s'.calls.Keys == {0, 1} && s'.calls[1].u == u
  {
    var s1 := Make(s, 0, p);
    assert FreshIds(s, p.file, p.version);
    assert Step(s, Create(0, p.file, p.version)) == s1;
    var s2 := Make(s1, 1, q);
    assert FreshIds(s1, q.file, q.version);
    assert Step(s1, Create(1, q.file, q.version)) == s2;
    assert Step(s2, Swap(0, true)) == Record(s2, 0, p);
  }
}
