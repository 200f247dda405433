/**
 The upload service's completion as it runs: methods that read and write the tables, proved to take
 the steps of CompleteRace.
 */
module CompleteService {
  import opened Entities
  import opened CompleteRace
  import opened CompleteOrphans
  import opened CompleteTargets

  class Service {
    var uploads: map<UploadId, Upload>
    var keys: map<(UserId, string), UploadId>
    var versions: map<VersionId, Version>
    var purged: set<FileId>
    var calls: map<nat, Call>
    ghost var issued: set<UploadId>
    ghost var log: map<UploadId, seq<Pair>>

    ghost function Snapshot(): State
      reads this
    {
      State(uploads, keys, versions, purged, calls, issued, log)
    }

    method SetPhase(c: nat, phase: Phase)
      requires c in calls
      modifies this`calls
      ensures Snapshot() == At(old(Snapshot()), c, phase)
    {
      calls := calls[c := calls[c].(phase := phase)];
    }

    method SetVerdict(c: nat, phase: Phase, verdict: Verdict)
      requires c in calls
      modifies this`calls
      ensures Snapshot() == Settle(old(Snapshot()), c, phase, verdict)
    {
      calls := calls[c := calls[c].(phase := phase, verdict := verdict)];
    }

    /** Under a key, the earlier result if there is one. */
    method GetByIdempotencyKey(user: UserId, key: string) returns (found: Option<Pair>)
      ensures key != "" ==> forall call: Call :: call.seen.user == user && call.key == key ==>
        found == Earlier(Snapshot(), call)
    {
      if (user, key) !in keys || keys[(user, key)] !in uploads { return None; }
      return uploads[keys[(user, key)]].recorded;
    }

    /** Another upload of the user has the key: the unique index would be violated. */
    method ViolatesIndex(call: Call) returns (taken: bool)
      ensures taken == KeyTaken(Snapshot(), call)
    {
      var k := (call.seen.user, call.key);
      taken := call.key != "" && k in keys && keys[k] != call.u;
    }

    /** The file repository's part: a version of the target, or of a new file. */
    method CreateVersion(c: nat, file: FileId, version: VersionId) returns (made: Option<Pair>)
      requires InPhase(Snapshot(), c, Passed) && FreshIds(Snapshot(), file, version)
      modifies this`versions, this`calls
      ensures Snapshot() == Step(old(Snapshot()), Create(c, file, version))
      ensures c in calls && calls[c].u == old(calls)[c].u
      ensures calls[c].phase == if made.None? then Returned(None) else Created(made.value)
      ensures var target := old(calls)[c].seen.target;
        made == if target.Some? && target.value in purged then None
                else Some(Pair(if target.Some? then target.value else file, version))
      ensures versions == if made.None? then old(versions) else old(versions)[version := Version(made.value.file, c)]
    {
      var target := calls[c].seen.target;
      if target.Some? && target.value in purged {
        SetPhase(c, Returned(None));
        return None;
      }
      var pair := Pair(if target.Some? then target.value else file, version);
      versions := versions[version := Version(pair.file, c)];
      calls := calls[c := calls[c].(phase := Created(pair), made := Some(pair))];
      return Some(pair);
    }

    /** The compare-and-swap; its verdict, as the database has it. */
    method CompareAndSwap(c: nat, answered: bool) returns (won: bool)
      requires c in calls && calls[c].phase.Created?
      modifies this`uploads, this`keys, this`log, this`calls
      ensures Snapshot() == DoSwap(old(Snapshot()), c, answered)
      ensures won <==> answered && SwapVerdict(old(Snapshot()), old(calls)[c]) == Won
      ensures c in calls && calls[c].u == old(calls)[c].u && (calls[c].phase.Lost? || calls[c].phase.Returned?)
    {
      var call := calls[c];
      var pair := call.phase.pair;
      if !answered {
        SetVerdict(c, Returned(None), Failed);
        return false;
      }
      if call.u !in uploads || !uploads[call.u].inProgress { // no row affected
        SetVerdict(c, Lost, if call.u !in uploads then RowGone else AlreadyDone);
        return false;
      }
      var taken := ViolatesIndex(call);
      if taken {
        SetVerdict(c, Lost, KeyHeld);
        return false;
      }
      if pair.file in purged {
        SetVerdict(c, Returned(None), FileGone);
        return false;
      }
      uploads := uploads[call.u := uploads[call.u].(inProgress := false, recorded := Some(pair))];
      if call.key != "" { keys := keys[(call.seen.user, call.key) := call.u]; }
      log := log[call.u := LogOf(Snapshot(), call.u) + [pair]];
      SetVerdict(c, Returned(Some(pair)), Won);
      return true;
    }

    /** Load the row, look the key up, and stop unless the upload was in progress. */
    method Begin(c: nat, u: UploadId, key: string, answered: bool)
      requires c !in calls && u in uploads
      modifies this`calls
      ensures Snapshot() == Step(Step(old(Snapshot()), Load(c, u, key)), CheckKey(c, answered))
      ensures c in calls && calls[c].u == u && (calls[c].phase.Passed? || calls[c].phase.Returned?)
    {
      calls := calls[c := Call(u, key, uploads[u], Loaded, None, Pending)];
      var call := calls[c];
      if key != "" && answered {
        var found := GetByIdempotencyKey(call.seen.user, key);
        if found.Some? {
          SetPhase(c, Returned(found));
          return;
        }
      }
      SetPhase(c, if call.seen.inProgress then Passed else Returned(None));
    }

    /** Swap, and read the winner's result after losing. */
    method Finish(c: nat, swapped: bool, fetched: bool)
      requires c in calls && calls[c].phase.Created?
      modifies this
      ensures Snapshot() == Step(Step(old(Snapshot()), Swap(c, swapped)), FetchWinner(c, fetched))
      ensures c in calls && calls[c].u == old(calls)[c].u && calls[c].phase.Returned?
    {
      hide DoSwap;
      var won := CompareAndSwap(c, swapped);
      var u := calls[c].u;
      if calls[c].phase.Lost? {
        SetPhase(c, Returned(if fetched && u in uploads then uploads[u].recorded else None));
      }
    }

    /** Service.CompleteUpload, uninterrupted. */
    method CompleteUpload(c: nat, u: UploadId, key: string, fate: Fate) returns (r: Option<Pair>)
      requires c !in calls && u in uploads && FreshIds(Snapshot(), fate.file, fate.version)
      modifies this
      ensures Snapshot() == Alone(old(Snapshot()), c, u, key, fate)
      ensures c in calls && calls[c].u == u && calls[c].phase == Returned(r)
      ensures old(Inv(Snapshot())) ==> r == old(Answer(Snapshot(), u, key, fate))
    {
      hide Step, Inv, Answer;
      if Inv(Snapshot()) { AloneAnswers(Snapshot(), c, u, key, fate); }
      BeginShape(Snapshot(), c, u, key, fate.lookup);
      Begin(c, u, key, fate.lookup);
      if calls[c].phase.Passed? {
        if fate.acceptable {
          var made := CreateVersion(c, fate.file, fate.version);
          if made.Some? {
            Finish(c, fate.swap, fate.fetch);
            return calls[c].phase.result;
          }
        } else {
          RejectShape(Snapshot(), c);
          SetPhase(c, Returned(None));
        }
      }
      StaysReturned(Snapshot(), c, fate);
      return calls[c].phase.result;
    }
  }

  lemma BeginShape(s: State, c: nat, u: UploadId, key: string, answered: bool)
    requires c !in s.calls && u in s.uploads
    ensures var s' := Step(Step(s, Load(c, u, key)), CheckKey(c, answered));
      s'.versions == s.versions && s'.purged == s.purged
  {
    hide Earlier;
  }
}
