/**
 Retrying a dead event: any number of concurrent calls, each of which loads the row, flips it from
 dead to retried, republishes, and undoes the flip if the republish failed. Steps of different
 calls interleave freely.
 */
module DeadLetters {

  datatype Status = Dead | Retried

  /** Where a call is. The revert is unconditional in the code: it does not look at the status. */
  datatype Phase = Loaded | Flipped | Failed | Finished

  datatype State = State(status: Status, calls: map<nat, Phase>, published: nat, revertFailed: bool)

  const INITIAL := State(Dead, map[], 0, false)

  datatype Action =
    | Load(c: nat)                       // GetDeadEvent
    | Mark(c: nat)                       // UPDATE ... WHERE status = 'dead'
    | Publish(c: nat, ok: bool)          // PublishRaw
    | Revert(c: nat, ok: bool)           // UPDATE ... SET status = 'dead'
    | Abandon(c: nat)                    // the call gives up before flipping anything

  function Step(s: State, a: Action): State {
    match a
    case Load(c) =>
      if c in s.calls then s else s.(calls := s.calls[c := Loaded])
    case Mark(c) =>
      if c !in s.calls || s.calls[c] != Loaded then s
      else if s.status == Dead then s.(status := Retried, calls := s.calls[c := Flipped])
      else s.(calls := s.calls[c := Finished])
    case Publish(c, ok) =>
      if c !in s.calls || s.calls[c] != Flipped then s
      else if ok then s.(published := s.published + 1, calls := s.calls[c := Finished])
      else s.(calls := s.calls[c := Failed])
    case Revert(c, ok) =>
      if c !in s.calls || s.calls[c] != Failed then s
      else if ok then s.(status := Dead, calls := s.calls[c := Finished])
      else s.(revertFailed := true, calls := s.calls[c := Finished])
    case Abandon(c) =>
      if c !in s.calls || s.calls[c] != Loaded then s else s.(calls := s.calls[c := Finished])
  }

  function Exec(s: State, acts: seq<Action>): State {
    if acts == [] then s else Step(Exec(s, acts[..|acts| - 1]), acts[|acts| - 1])
  }

  predicate Owns(s: State, c: nat) {
    c in s.calls && (s.calls[c] == Flipped || s.calls[c] == Failed)
  }

  ghost predicate Owned(s: State) {
    exists c :: Owns(s, c)
  }

  /** At most one call is between its flip and its end; while one is, the row is retried and nothing
      has been republished; and a retried row without such a call was republished, or is stuck. */
  ghost predicate Inv(s: State) {
    && (forall c, d :: Owns(s, c) && Owns(s, d) ==> c == d)
    && (Owned(s) ==> s.status == Retried && s.published == 0 && !s.revertFailed)
    && (s.status == Dead ==> s.published == 0 && !s.revertFailed)
    && (s.status == Retried ==> Owned(s) || s.published == 1 || s.revertFailed)
    && s.published <= 1
    && (s.revertFailed ==> s.published == 0)
  }

  lemma StepKeepsInv(s: State, a: Action)
    requires Inv(s)
    ensures Inv(Step(s, a))
  {
    var s' := Step(s, a);
    forall d | d != a.c ensures Owns(s', d) == Owns(s, d) {}
    assert Owns(s, a.c) ==> Owned(s);
    assert Owns(s', a.c) ==> Owned(s');
    if Owned(s) {
      var c :| Owns(s, c);
      if c != a.c { assert Owns(s', c); }
    }
    if Owned(s') {
      var c :| Owns(s', c);
      if c != a.c { assert Owns(s, c); }
    }
  }

  lemma {:induction false} RunKeepsInv(acts: seq<Action>)
    ensures Inv(Exec(INITIAL, acts))
  {
    if acts != [] {
      RunKeepsInv(acts[..|acts| - 1]);
      StepKeepsInv(Exec(INITIAL, acts[..|acts| - 1]), acts[|acts| - 1]);
    }
  }

  predicate Quiet(s: State) {
    forall c :: c in s.calls ==> s.calls[c] == Finished
  }

  /** Whatever the interleaving: at most one republish ever succeeds; and when no call is in flight,
      the row is retried exactly when it was republished once, if and only if no revert has failed. */
  lemma RepublishedAtMostOnce(acts: seq<Action>)
    ensures var s := Exec(INITIAL, acts);
      && s.published <= 1
      && (Quiet(s) ==> ((s.status == Retried <==> s.published == 1) <==> !s.revertFailed))
  {
    RunKeepsInv(acts);
  }

  /** Settled: no call can change the row any more. */
  ghost predicate Settled(s: State) {
    s.status == Retried && !Owned(s)
  }

  lemma {:induction false} SettledForGood(s: State, more: seq<Action>)
    requires Settled(s)
    ensures Settled(Exec(s, more)) && Exec(s, more).published == s.published
  {
    if more != [] {
      SettledForGood(s, more[..|more| - 1]);
      var t, a := Exec(s, more[..|more| - 1]), more[|more| - 1];
      assert !Owns(t, a.c);
      forall d ensures !Owns(Step(t, a), d) {
        assert !Owns(t, d);
      }
    }
  }

  /** Once republished, the row is retried for good and every later call is turned away. */
  lemma RepublishIsFinal(acts: seq<Action>, more: seq<Action>)
    requires Exec(INITIAL, acts).published == 1
    ensures var s := Exec(Exec(INITIAL, acts), more); s.status == Retried && s.published == 1
  {
    RunKeepsInv(acts);
    SettledForGood(Exec(INITIAL, acts), more);
  }

  /** A failed revert strands the row: retried, with nothing published, for good. */
  lemma FailedRevertStrands(acts: seq<Action>, more: seq<Action>)
    requires Exec(INITIAL, acts).revertFailed
    ensures var s := Exec(Exec(INITIAL, acts), more); s.status == Retried && s.published == 0
  {
    RunKeepsInv(acts);
    SettledForGood(Exec(INITIAL, acts), more);
  }

  /** It happens: one call whose republish and revert both fail. */
  lemma StrandingRun(c: nat)
    ensures var s := Exec(INITIAL, [Load(c), Mark(c), Publish(c, false), Revert(c, false)]);
      Quiet(s) && s.revertFailed && s.status == Retried && s.published == 0
  {
    FourSteps(INITIAL, c, false, false);
  }

  // ---------------------------------------------------------------- one call, uninterrupted

  datatype Response = Republished | AlreadyRetried | RepublishFailed

  class Handler {
    var row: Status
    var published: nat
    var calls: map<nat, Phase>
    var revertFailed: bool

    function Snapshot(): State
      reads this
    {
      State(row, calls, published, revertFailed)
    }

    /** MarkRetried: the conditional flip, and whether it changed the row. */
    method MarkRetried(c: nat) returns (flipped: bool)
      requires c in calls && calls[c] == Loaded
      modifies this`row, this`calls
      ensures Snapshot() == Step(old(Snapshot()), Mark(c))
      ensures flipped <==> old(row) == Dead
    {
      flipped := row == Dead;
      if flipped { row := Retried; }
      calls := calls[c := if flipped then Flipped else Finished];
    }

    /** Retry: load, flip, republish, and undo the flip when the republish failed. */
    method Retry(c: nat, publishOk: bool, revertOk: bool) returns (r: Response)
      requires c !in calls
      modifies this
      ensures old(row) == Retried ==> r == AlreadyRetried && row == Retried && published == old(published)
      ensures old(row) == Dead && publishOk ==> r == Republished && row == Retried && published == old(published) + 1
      ensures old(row) == Dead && !publishOk ==>
        r == RepublishFailed && published == old(published) && (row == Dead <==> revertOk)
      ensures Snapshot() == Exec(old(Snapshot()), [Load(c), Mark(c), Publish(c, publishOk), Revert(c, revertOk)])
    {
      ghost var s := Snapshot();
      FourSteps(s, c, publishOk, revertOk);
      calls := calls[c := Loaded];
      var flipped := MarkRetried(c);
      if !flipped { return AlreadyRetried; }
      if publishOk {
        published := published + 1;
        calls := calls[c := Finished];
        return Republished;
      }
      calls := calls[c := Failed];
      if revertOk { row := Dead; } else { revertFailed := true; }
      calls := calls[c := Finished];
      return RepublishFailed;
    }
  }

  lemma FourSteps(s: State, c: nat, publishOk: bool, revertOk: bool)
    ensures Exec(s, [Load(c), Mark(c), Publish(c, publishOk), Revert(c, revertOk)]) ==
      Step(Step(Step(Step(s, Load(c)), Mark(c)), Publish(c, publishOk)), Revert(c, revertOk))
  {
    var a := [Load(c), Mark(c), Publish(c, publishOk), Revert(c, revertOk)];
    assert a[..3] == [Load(c), Mark(c), Publish(c, publishOk)];
    assert a[..3][..2] == [Load(c), Mark(c)];
    assert a[..3][..2][..1] == [Load(c)];
    assert Exec(s, [Load(c)]) == Step(Exec(s, [Load(c)][..0]), Load(c)) == Step(s, Load(c));
    assert Exec(s, [Load(c), Mark(c)]) == Step(Exec(s, [Load(c)]), Mark(c));
  }
}
