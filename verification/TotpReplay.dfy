/**
 One-time codes: a code is checked against the three time steps around the clock, and the step it
 matched is burned in Redis for a while. Reading the clock and burning are one instant; times are
 milliseconds. The code of a step (HMAC) is an arbitrary function.
 */
module TotpReplay {
  import opened Entities

  const PERIOD := 30      // seconds
  const SKEW := 1
  const LIFETIME := PERIOD * (SKEW + 2) * 1000

  /** Go's integer division truncates toward zero. */
  function GoDiv(a: int, b: int): int
    requires b > 0
  {
    if a >= 0 then a / b else -((-a) / b)
  }

  /** now.Unix() / 30; Unix() rounds down to whole seconds. */
  function CurrentStep(now: int): int { GoDiv(now / 1000, PERIOD) }

  /** The step a code matches at a time: the first of the window whose code it is. */
  function Matched(code: int -> string, given: string, now: int): Option<int> {
    var c := CurrentStep(now);
    if code(c - 1) == given then Some(c - 1)
    else if code(c) == given then Some(c)
    else if code(c + 1) == given then Some(c + 1)
    else None
  }

  /** verifyTOTP's search; a secret that does not decode has no codes. */
  method VerifyTotp(codes: Option<int -> string>, given: string, now: int) returns (step: int, ok: bool)
    ensures codes.None? ==> !ok
    ensures codes.Some? ==> (if ok then Some(step) else None) == Matched(codes.value, given, now)
    ensures ok ==> -SKEW <= step - CurrentStep(now) <= SKEW && codes.value(step) == given
    ensures codes.Some? && !ok ==> forall s :: -SKEW <= s - CurrentStep(now) <= SKEW ==> codes.value(s) != given
  {
    if codes.None? { return 0, false; }
    var current := CurrentStep(now);
    var delta := -SKEW;
    while delta <= SKEW
      invariant -SKEW <= delta <= SKEW + 1
      invariant forall s :: current - SKEW <= s < current + delta ==> codes.value(s) != given
    {
      var s := current + delta;
      if codes.value(s) == given { return s, true; }
      delta := delta + 1;
    }
    return 0, false;
  }

  // ---------------------------------------------------------------- burning

  /** An attempt by a user; the SetNX may fail, with or without having stored the key. */
  datatype Redis = Answered | Failed(landed: bool)
  datatype Attempt = Attempt(user: string, codes: Option<int -> string>, given: string, now: int, redis: Redis)

  /** Burned (user, step) pairs and when each key expires. */
  type Burned = map<(string, int), int>

  predicate IsBurned(b: Burned, user: string, step: int, now: int) {
    (user, step) in b && now < b[(user, step)]
  }

  function MatchedBy(a: Attempt): Option<int> {
    if a.codes.None? then None else Matched(a.codes.value, a.given, a.now)
  }

  /** The step the attempt is accepted for, if it is. */
  function Accepts(b: Burned, a: Attempt): Option<int> {
    var m := MatchedBy(a);
    if m.Some? && a.redis.Answered? && !IsBurned(b, a.user, m.value, a.now) then m else None
  }

  function Burn(lifetime: nat, b: Burned, a: Attempt): Burned {
    var m := MatchedBy(a);
    if m.None? || IsBurned(b, a.user, m.value, a.now) || a.redis == Failed(false) then b
    else b[(a.user, m.value) := a.now + lifetime]
  }

  class Service {
    var burned: Burned

    /** verifyTOTPOnce: true when the code is accepted. */
    method VerifyOnce(a: Attempt) returns (accepted: bool)
      modifies this
      ensures accepted <==> Accepts(old(burned), a).Some?
      ensures burned == Burn(LIFETIME, old(burned), a)
      ensures MatchedBy(a).None? ==> !accepted && burned == old(burned)
      ensures MatchedBy(a).Some? ==>
        var key := (a.user, MatchedBy(a).value);
        var free := key !in old(burned) || old(burned)[key] <= a.now;
        && (accepted <==> free && a.redis == Answered)
        && burned == if free && a.redis != Failed(false) then old(burned)[key := a.now + 90_000] else old(burned)
    {
      var step, ok := VerifyTotp(a.codes, a.given, a.now);
      if !ok { return false; }
      var unburned := !IsBurned(burned, a.user, step, a.now);
      if unburned && a.redis != Failed(false) { burned := burned[(a.user, step) := a.now + LIFETIME]; }
      return a.redis.Answered? && unburned;
    }
  }

  // ---------------------------------------------------------------- runs

  function Run(lifetime: nat, attempts: seq<Attempt>): Burned {
    if attempts == [] then map[]
    else Burn(lifetime, Run(lifetime, attempts[..|attempts| - 1]), attempts[|attempts| - 1])
  }

  /** What the i-th attempt was accepted for. */
  function AcceptedAt(lifetime: nat, attempts: seq<Attempt>, i: nat): Option<int>
    requires i < |attempts|
  {
    Accepts(Run(lifetime, attempts[..i]), attempts[i])
  }

  predicate Monotone(attempts: seq<Attempt>) {
    forall i, j :: 0 <= i < j < |attempts| ==> attempts[i].now <= attempts[j].now
  }

  /** The clock is not before 1970. */
  predicate AfterEpoch(attempts: seq<Attempt>) {
    forall i :: 0 <= i < |attempts| ==> attempts[i].now >= 0
  }

  /** Two attempts of one user accepted for one step. */
  ghost predicate Replayed(lifetime: nat, attempts: seq<Attempt>) {
    exists i, j :: 0 <= i < j < |attempts| && attempts[i].user == attempts[j].user
      && AcceptedAt(lifetime, attempts, i).Some? &&
        AcceptedAt(lifetime, attempts, i) == AcceptedAt(lifetime, attempts, j)
  }

  /** When a step begins and ends to be acceptable. From step 2 on, and up to step -2, that takes 90
      seconds, from one period before its own to one period after; but truncation makes step 0 nearly
      twice as long, and the steps next to it are acceptable for 119 seconds. */
  function Opens(step: int): int { (if step > 1 then 30 * (step - 1) else 30 * step - 59) * 1000 }
  function Closes(step: int): int { (if step < -1 then 30 * step + 31 else 30 * (step + 2)) * 1000 }

  lemma SecondsOfStep(second: int)
    ensures var c := GoDiv(second, PERIOD);
      && (c > 0 ==> 30 * c <= second < 30 * c + 30) && (c == 0 ==> -30 < second < 30) &&
        (c < 0 ==> 30 * c - 30 < second <= 30 * c)
  {
  }

  lemma StepWindow(a: Attempt, step: int)
    requires MatchedBy(a) == Some(step)
    ensures Opens(step) <= a.now < Closes(step)
  {
    SecondsOfStep(a.now / 1000);
  }

  /** And at every such time a code that belongs to this step alone is matched with it. */
  lemma StepMatches(a: Attempt, step: int)
    requires Opens(step) <= a.now < Closes(step)
    requires a.codes.Some? && a.codes.value(step) == a.given && forall other :: other != step ==>
      a.codes.value(other) != a.given
    ensures MatchedBy(a) == Some(step)
  {
    SecondsOfStep(a.now / 1000);
  }

  /** The burn of an accepted attempt lasts its full lifetime, whatever comes later. */
  lemma {:induction false} BurnLasts(lifetime: nat, attempts: seq<Attempt>, i: nat, n: nat)
    requires Monotone(attempts) && i < n <= |attempts| && AcceptedAt(lifetime, attempts, i).Some?
    ensures var k, b := (attempts[i].user, AcceptedAt(lifetime, attempts, i).value), Run(lifetime, attempts[..n]);
      k in b && b[k] >= attempts[i].now + lifetime
  {
    assert attempts[..n][..n - 1] == attempts[..n - 1];
    if n > i + 1 { BurnLasts(lifetime, attempts, i, n - 1); }
  }

  /** Two times at which one step can be accepted although the burn of the first is over: a step next
      to 0, and at least 90 of its 119 seconds apart. The earlier time is then before 1970. */
  predicate Stretch(first: int, last: int) {
    first + LIFETIME <= last && exists step :: -1 <= step <= 1 && Opens(step) <= first && last < Closes(step)
  }

  lemma StretchIsBeforeEpoch(first: int, last: int)
    requires Stretch(first, last)
    ensures -89000 <= first < 0 && last < 90000
  {
  }

  predicate NoStretch(attempts: seq<Attempt>) {
    forall i, j :: 0 <= i < j < |attempts| ==> !Stretch(attempts[i].now, attempts[j].now)
  }

  lemma ReplayIsStretched(lifetime: nat, attempts: seq<Attempt>, i: nat, j: nat)
    requires lifetime >= LIFETIME && Monotone(attempts) && i < j < |attempts| && attempts[i].user == attempts[j].user
    requires AcceptedAt(lifetime, attempts, i).Some? &&
      AcceptedAt(lifetime, attempts, i) == AcceptedAt(lifetime, attempts, j)
    ensures Stretch(attempts[i].now, attempts[j].now)
  {
    BurnLasts(lifetime, attempts, i, j);
    var step := AcceptedAt(lifetime, attempts, i).value;
    StepWindow(attempts[i], step);
    StepWindow(attempts[j], step);
    assert -1 <= step <= 1;
  }

  /** No (user, step) pair is accepted twice over any run, unless two attempts are so placed around the
      beginning of 1970. */
  lemma NoReplayOutsideStretch(lifetime: nat, attempts: seq<Attempt>)
    requires lifetime >= LIFETIME && Monotone(attempts) && NoStretch(attempts)
    ensures !Replayed(lifetime, attempts)
  {
    forall i, j | 0 <= i < j < |attempts| && attempts[i].user == attempts[j].user
        && AcceptedAt(lifetime, attempts, i).Some? &&
          AcceptedAt(lifetime, attempts, i) == AcceptedAt(lifetime, attempts, j)
      ensures false
    {
      ReplayIsStretched(lifetime, attempts, i, j);
    }
  }

  /** The condition on the times is exact: attempts at two times can replay a step exactly when they are
      so placed. */
  lemma ReplayTimesExact(first: int, last: int, user: string)
    requires first <= last
    ensures (exists a: Attempt, b: Attempt :: a.now == first && b.now == last && Replayed(LIFETIME, [a, b])) <==>
      Stretch(first, last)
  {
    if a: Attempt, b: Attempt :| a.now == first && b.now == last && Replayed(LIFETIME, [a, b]) {
      var i, j :| 0 <= i < j < 2 && [a, b][i].user == [a, b][j].user && AcceptedAt(LIFETIME, [a, b], i).Some?
        && AcceptedAt(LIFETIME, [a, b], i) == AcceptedAt(LIFETIME, [a, b], j);
      ReplayIsStretched(LIFETIME, [a, b], i, j);
    }
    if Stretch(first, last) {
      var step :| -1 <= step <= 1 && Opens(step) <= first && last < Closes(step);
      var code := (n: int) => if n == step then "x" else "";
      var a := Attempt(user, Some(code), "x", first, Answered);
      var b := a.(now := last);
      StepMatches(a, step);
      StepMatches(b, step);
      TwoAttempts(LIFETIME, a, b, step);
    }
  }

  /** From 1970 on no (user, step) pair is accepted twice over any run. */
  lemma NoReplay(lifetime: nat, attempts: seq<Attempt>)
    requires lifetime >= LIFETIME && Monotone(attempts) && AfterEpoch(attempts)
    ensures !Replayed(lifetime, attempts)
  {
    NoReplayOutsideStretch(lifetime, attempts);
  }

  /** So a code is accepted a second time only as the code of another step. */
  lemma SameCodeTwice(attempts: seq<Attempt>, i: nat, j: nat)
    requires Monotone(attempts) && AfterEpoch(attempts) && i < j < |attempts|
    requires attempts[i].user == attempts[j].user && attempts[i].codes == attempts[j].codes
    requires AcceptedAt(LIFETIME, attempts, i).Some? && AcceptedAt(LIFETIME, attempts, j).Some?
    requires attempts[i].given == attempts[j].given
    ensures var s, t := AcceptedAt(LIFETIME, attempts, i).value, AcceptedAt(LIFETIME, attempts, j).value;
      s != t && attempts[i].codes.value(s) == attempts[i].codes.value(t)
  {
    NoReplay(LIFETIME, attempts);
  }

  /** The lifetime is tight: with any shorter one, a code whose two predecessors differ from it can
      be used at both ends of its window. */
  lemma ShorterLifetimeReplays(lifetime: nat, user: string, code: int -> string, step: int)
    requires lifetime < LIFETIME && step >= 1
    requires code(step - 2) != code(step) && code(step - 1) != code(step)
    ensures exists attempts :: Monotone(attempts) && AfterEpoch(attempts) && Replayed(lifetime, attempts)
  {
    var first := Attempt(user, Some(code), code(step), (step - 1) * 30000, Answered);
    var last := first.(now := first.now + LIFETIME - 1);
    assert CurrentStep(first.now) == step - 1 && CurrentStep(last.now) == step + 1;
    TwoAttempts(lifetime, first, last, step);
  }

  /** So 90 seconds is exactly the lifetime that rules replays out on every run. */
  lemma LifetimeIsExact(lifetime: nat, user: string, code: int -> string, step: int)
    requires step >= 1 && code(step - 2) != code(step) && code(step - 1) != code(step)
    ensures (forall attempts :: Monotone(attempts) && AfterEpoch(attempts) ==> !Replayed(lifetime, attempts)) <==>
      lifetime >= LIFETIME
  {
    if lifetime < LIFETIME {
      ShorterLifetimeReplays(lifetime, user, code, step);
    } else {
      forall attempts | Monotone(attempts) && AfterEpoch(attempts) ensures !Replayed(lifetime, attempts) {
        NoReplay(lifetime, attempts);
      }
    }
  }

  lemma TwoAttempts(lifetime: nat, first: Attempt, last: Attempt, step: int)
    requires first.user == last.user && first.now + lifetime <= last.now && first.redis == last.redis == Answered
    requires MatchedBy(first) == MatchedBy(last) == Some(step)
    ensures Monotone([first, last]) && Replayed(lifetime, [first, last])
  {
    var run := [first, last];
    assert run[..0] == [] && run[..1] == [first];
    assert run[..1][..0] == [];
    assert AcceptedAt(lifetime, run, 0) == Some(step);
    assert Run(lifetime, run[..1]) == Burn(lifetime, map[], first);
    assert AcceptedAt(lifetime, run, 1) == Some(step);
  }
}
