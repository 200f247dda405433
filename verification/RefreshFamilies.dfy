/**
 Refresh-token rotation. Each step is one transaction on `refresh_tokens`; token hashes and family
 ids are fresh when issued. `issued` and `closed` are history: every token ever issued with its
 family, and the families that were revoked.
 */
module RefreshFamilies {
  import opened Entities

  datatype FamilyId = FamilyId(id: string)
  datatype TokenHash = TokenHash(hex: string)

  datatype Token = Token(user: UserId, family: FamilyId, used: bool, expiresAt: int)
  datatype ResetToken = ResetToken(user: UserId, used: bool, expiresAt: int)

  datatype State = State(
    tokens: map<TokenHash, Token>,
    resets: map<TokenHash, ResetToken>,
    issued: map<TokenHash, FamilyId>,
    owners: map<FamilyId, UserId>,
    closed: set<FamilyId>)

  const EMPTY := State(map[], map[], map[], map[], {})

  datatype Action =
    | Login(user: UserId, family: FamilyId, hash: TokenHash, expiresAt: int)
    | Rotate(presented: TokenHash, next: TokenHash, now: int, expiresAt: int)
    | Logout(presented: TokenHash)
    | IssueReset(user: UserId, hash: TokenHash, expiresAt: int)
    | ResetPassword(hash: TokenHash, now: int)

  function FamilyRows(s: State, family: FamilyId): set<TokenHash> {
    set h | h in s.tokens && s.tokens[h].family == family
  }

  function Close(s: State, family: FamilyId): State {
    s.(tokens := s.tokens - FamilyRows(s, family), closed := s.closed + {family})
  }

  /** Whether presenting h at now rotates: the row is there, unused and not expired. */
  predicate Rotates(s: State, h: TokenHash, now: int) {
    h in s.tokens && !s.tokens[h].used && now <= s.tokens[h].expiresAt
  }

  predicate ResetAccepted(s: State, h: TokenHash, now: int) {
    h in s.resets && !s.resets[h].used && now <= s.resets[h].expiresAt
  }

  /** The presented token is spent, and a successor takes its place. */
  function HandOn(s: State, presented: TokenHash, next: TokenHash, expiresAt: int): State
    requires presented in s.tokens
  {
    var row := s.tokens[presented];
    s.(tokens := s.tokens[presented := row.(used := true)][next := Token(row.user, row.family, false, expiresAt)],
       issued := s.issued[next := row.family])
  }

  function Step(s: State, a: Action): State {
    match a
    case Login(user, family, hash, expiresAt) =>
      if family in s.owners || hash in s.issued then s
      else s.(tokens := s.tokens[hash := Token(user, family, false, expiresAt)],
              issued := s.issued[hash := family], owners := s.owners[family := user])
    case Rotate(presented, next, now, expiresAt) =>
      if presented !in s.tokens then s
      else
        var row := s.tokens[presented];
        if row.used then Close(s, row.family) // reuse: the whole family is revoked
        else if now > row.expiresAt || next in s.issued then s
        else HandOn(s, presented, next, expiresAt)
    case Logout(presented) =>
      if presented in s.tokens then Close(s, s.tokens[presented].family) else s
    case IssueReset(user, hash, expiresAt) =>
      if hash in s.resets then s else s.(resets := s.resets[hash := ResetToken(user, false, expiresAt)])
    case ResetPassword(hash, now) =>
      if !ResetAccepted(s, hash, now) then s
      else
        var user := s.resets[hash].user;
        s.(resets := s.resets[hash := s.resets[hash].(used := true)],
           tokens := s.tokens - (set h | h in s.tokens && s.tokens[h].user == user),
           closed := s.closed + (set f | f in s.owners && s.owners[f] == user))
  }

  function Exec(s: State, acts: seq<Action>): State {
    if acts == [] then s else Step(Exec(s, acts[..|acts| - 1]), acts[|acts| - 1])
  }

  // ---------------------------------------------------------------- what every run keeps

  /** h is an unused token of the family. */
  predicate Unused(s: State, f: FamilyId, h: TokenHash) {
    h in s.tokens && s.tokens[h].family == f && !s.tokens[h].used
  }

  /** Rows carry the family and user they were issued with, and an issued token is gone from the
      table exactly when its family was closed. */
  ghost predicate Recorded(s: State) {
    && (forall h :: h in s.issued ==> s.issued[h] in s.owners && (h in s.tokens <==> s.issued[h] !in s.closed))
    && (forall h :: h in s.tokens ==> h in s.issued && s.issued[h] == s.tokens[h].family)
    && (forall h :: h in s.tokens ==> s.owners[s.tokens[h].family] == s.tokens[h].user)
    && s.closed <= s.owners.Keys
  }

  /** Every family holds at most one unused token, and an open one holds one. */
  ghost predicate OneUnused(s: State) {
    && (forall f, g, h :: Unused(s, f, g) && Unused(s, f, h) ==> g == h)
    && (forall f :: f in s.owners && f !in s.closed ==> exists h :: Unused(s, f, h))
  }

  ghost predicate Inv(s: State) { Recorded(s) && OneUnused(s) }

  /** What a step may do to the history. */
  ghost predicate Extends(s: State, s': State) {
    && s.closed <= s'.closed
    && forall h :: h in s.issued ==> h in s'.issued && s'.issued[h] == s.issued[h]
  }

  lemma CloseKeepsRecorded(s: State, family: FamilyId)
    requires Recorded(s) && family in s.owners
    ensures Recorded(Close(s, family)) && Extends(s, Close(s, family))
  {
  }

  lemma LoginKeepsRecorded(s: State, a: Action)
    requires Recorded(s) && a.Login?
    ensures Recorded(Step(s, a)) && Extends(s, Step(s, a))
  {
  }

  lemma HandOnKeepsRecorded(s: State, presented: TokenHash, next: TokenHash, expiresAt: int)
    requires Recorded(s) && presented in s.tokens && next !in s.issued
    ensures var s' := HandOn(s, presented, next, expiresAt);
      Recorded(s') && Extends(s, s')
  {
  }

  lemma RotateKeepsRecorded(s: State, a: Action)
    requires Recorded(s) && a.Rotate?
    ensures Recorded(Step(s, a)) && Extends(s, Step(s, a))
  {
    hide Close, Recorded;
    if a.presented in s.tokens {
      FamilyIsOwned(s, a.presented);
      CloseKeepsRecorded(s, s.tokens[a.presented].family);
      if a.next !in s.issued { HandOnKeepsRecorded(s, a.presented, a.next, a.expiresAt); }
    }
  }

  lemma FamilyIsOwned(s: State, h: TokenHash)
    requires Recorded(s) && h in s.tokens
    ensures s.tokens[h].family in s.owners
  {
  }

  lemma ResetKeepsRecorded(s: State, a: Action)
    requires Recorded(s) && a.ResetPassword?
    ensures Recorded(Step(s, a)) && Extends(s, Step(s, a))
  {
  }

  lemma StepKeepsRecorded(s: State, a: Action)
    requires Recorded(s)
    ensures Recorded(Step(s, a)) && Extends(s, Step(s, a))
  {
    match a
    case Login(_, _, _, _) => LoginKeepsRecorded(s, a);
    case Rotate(_, _, _, _) => RotateKeepsRecorded(s, a);
    case Logout(presented) => if presented in s.tokens { CloseKeepsRecorded(s, s.tokens[presented].family); }
    case IssueReset(_, _, _) =>
    case ResetPassword(_, _) => ResetKeepsRecorded(s, a);
  }

  /** A new unused token of a family, replacing its old one if it had one. */
  lemma IssueKeepsOneUnused(s: State, s': State, family: FamilyId, newest: TokenHash)
    requires OneUnused(s) && s'.owners.Keys == s.owners.Keys + {family} && s'.closed == s.closed
    requires forall f, h :: Unused(s', f, h) <==> (f != family && Unused(s, f, h)) || (f == family && h == newest)
    ensures OneUnused(s')
  {
    forall f | f in s'.owners && f !in s'.closed ensures exists h :: Unused(s', f, h) {
      if f == family {
        assert Unused(s', f, newest);
      } else {
        var h :| Unused(s, f, h);
        assert Unused(s', f, h);
      }
    }
  }

  lemma LoginKeepsOneUnused(s: State, a: Action)
    requires Inv(s) && a.Login?
    ensures OneUnused(Step(s, a))
  {
    if a.family !in s.owners && a.hash !in s.issued {
      hide OneUnused;
      IssueKeepsOneUnused(s, Step(s, a), a.family, a.hash);
    }
  }

  lemma RotationKeepsOneUnused(s: State, a: Action)
    requires Inv(s) && a.Rotate? && Rotates(s, a.presented, a.now) && a.next !in s.issued
    ensures OneUnused(Step(s, a))
  {
    var s', family := Step(s, a), s.tokens[a.presented].family;
    assert Unused(s, family, a.presented);
    forall f, h ensures Unused(s', f, h) <==> (f != family && Unused(s, f, h)) || (f == family && h == a.next) {
      if h != a.presented && h != a.next { assert Unused(s', f, h) == Unused(s, f, h); }
    }
    IssueKeepsOneUnused(s, s', family, a.next);
  }

  /** Deleting all rows of the families that are closed leaves the other families alone. */
  lemma ClosingKeepsOneUnused(s: State, s': State)
    requires Inv(s) && Recorded(s') && s'.owners == s.owners && s'.issued == s.issued && s.closed <= s'.closed
    requires forall h :: h in s'.tokens ==> h in s.tokens && s'.tokens[h] == s.tokens[h]
    ensures OneUnused(s')
  {
    forall f, h ensures Unused(s', f, h) <==> Unused(s, f, h) && f !in s'.closed {}
    forall f | f in s'.owners && f !in s'.closed ensures exists h :: Unused(s', f, h) {
      var h :| Unused(s, f, h);
      assert Unused(s', f, h);
    }
  }

  lemma StepKeepsInv(s: State, a: Action)
    requires Inv(s)
    ensures Inv(Step(s, a))
  {
    hide OneUnused;
    StepKeepsRecorded(s, a);
    match a
    case Login(_, _, _, _) => LoginKeepsOneUnused(s, a);
    case Rotate(presented, next, now, _) =>
      if Rotates(s, presented, now) && next !in s.issued { RotationKeepsOneUnused(s, a); }
      else { ClosingKeepsOneUnused(s, Step(s, a)); }
    case _ => ClosingKeepsOneUnused(s, Step(s, a));
  }

  lemma {:induction false} RunKeepsInv(s: State, acts: seq<Action>)
    requires Inv(s)
    ensures Inv(Exec(s, acts)) && Extends(s, Exec(s, acts))
  {
    if acts != [] {
      var t, a := Exec(s, acts[..|acts| - 1]), acts[|acts| - 1];
      RunKeepsInv(s, acts[..|acts| - 1]);
      StepKeepsInv(t, a);
      StepKeepsRecorded(t, a);
    }
  }

  /** In every state of every run a family that was never revoked has exactly one unused token, and
      a revoked one has no tokens at all. */
  lemma ExactlyOneUnused(acts: seq<Action>, f: FamilyId)
    requires f in Exec(EMPTY, acts).owners
    ensures var s := Exec(EMPTY, acts);
      if f in s.closed then forall h :: h in s.tokens ==> s.tokens[h].family != f
      else exists h :: Unused(s, f, h) && forall g :: Unused(s, f, g) ==> g == h
  {
    RunKeepsInv(EMPTY, acts);
    var s := Exec(EMPTY, acts);
    if f !in s.closed {
      var h :| Unused(s, f, h);
    }
  }

  // ---------------------------------------------------------------- revocation is for good

  /** No token ever issued in a closed family can rotate again, whatever happens next. */
  lemma ClosedNeverRotates(s: State, more: seq<Action>, h: TokenHash, now: int)
    requires Inv(s) && h in s.issued && s.issued[h] in s.closed
    ensures !Rotates(Exec(s, more), h, now)
  {
    RunKeepsInv(s, more);
  }

  /** The family of h cannot be used again after the step a, by any run and at any time. */
  ghost predicate EndsFamily(s: State, a: Action, family: FamilyId) {
    forall more: seq<Action>, h, now ::
      h in s.issued && s.issued[h] == family ==> !Rotates(Exec(Step(s, a), more), h, now)
  }

  lemma ClosingEndsFamily(s: State, a: Action, family: FamilyId)
    requires Inv(s) && family in Step(s, a).closed
    ensures EndsFamily(s, a, family)
  {
    StepKeepsInv(s, a);
    StepKeepsRecorded(s, a);
    forall more: seq<Action>, h, now | h in s.issued && s.issued[h] == family
      ensures !Rotates(Exec(Step(s, a), more), h, now)
    {
      ClosedNeverRotates(Step(s, a), more, h, now);
    }
  }

  /** Presenting a token that was already rotated away ends its family, for the thief and the victim
      alike; so does presenting one whose row is already gone. */
  lemma ReuseEndsFamily(acts: seq<Action>, spent: TokenHash, next: TokenHash, at: int, expiresAt: int)
    requires var s := Exec(EMPTY, acts); spent in s.issued && (spent in s.tokens ==> s.tokens[spent].used)
    ensures var s := Exec(EMPTY, acts); EndsFamily(s, Rotate(spent, next, at, expiresAt), s.issued[spent])
  {
    RunKeepsInv(EMPTY, acts);
    var s := Exec(EMPTY, acts);
    ClosingEndsFamily(s, Rotate(spent, next, at, expiresAt), s.issued[spent]);
  }

  /** Logging out with any token of a family, current or old, ends the family. */
  lemma LogoutEndsFamily(acts: seq<Action>, presented: TokenHash)
    requires presented in Exec(EMPTY, acts).issued
    ensures var s := Exec(EMPTY, acts); EndsFamily(s, Logout(presented), s.issued[presented])
  {
    RunKeepsInv(EMPTY, acts);
    var s := Exec(EMPTY, acts);
    ClosingEndsFamily(s, Logout(presented), s.issued[presented]);
  }

  /** A password reset ends every family of the user, and the reset token works once. */
  lemma ResetEndsEveryFamily(acts: seq<Action>, reset: TokenHash, at: int, family: FamilyId)
    requires var s := Exec(EMPTY, acts);
      ResetAccepted(s, reset, at) && family in s.owners && s.owners[family] == s.resets[reset].user
    ensures EndsFamily(Exec(EMPTY, acts), ResetPassword(reset, at), family)
    ensures forall now :: !ResetAccepted(Step(Exec(EMPTY, acts), ResetPassword(reset, at)), reset, now)
  {
    RunKeepsInv(EMPTY, acts);
    ClosingEndsFamily(Exec(EMPTY, acts), ResetPassword(reset, at), family);
  }

  /** A rotation hands the family on: the new token becomes its one unused token, for the same user. */
  lemma RotationHandsOn(acts: seq<Action>, h: TokenHash, next: TokenHash, now: int, expiresAt: int)
    requires var s := Exec(EMPTY, acts); Rotates(s, h, now) && next !in s.issued
    ensures var s, s' := Exec(EMPTY, acts), Step(Exec(EMPTY, acts), Rotate(h, next, now, expiresAt));
      && next in s'.tokens && s'.tokens[next] == Token(s.tokens[h].user, s.tokens[h].family, false, expiresAt)
      && forall g :: Unused(s', s.tokens[h].family, g) <==> g == next
  {
    RunKeepsInv(EMPTY, acts);
    StepKeepsInv(Exec(EMPTY, acts), Rotate(h, next, now, expiresAt));
    assert Unused(Step(Exec(EMPTY, acts), Rotate(h, next, now, expiresAt)), Exec(EMPTY, acts).tokens[h].family, next);
  }

  // ---------------------------------------------------------------- what each transaction touches

  /** Row by row: a rotation spends the presented row and adds one, reuse and logout delete the rows of one
      family, a reset those of one user, and nothing else is ever touched. */
  lemma {:induction false} RowsTouched(s: State, a: Action)
    ensures var t := Step(s, a);
      match a
      case Login(user, family, hash, expiresAt) =>
        t.resets == s.resets && t.tokens == if family in s.owners || hash in s.issued then s.tokens
                                            else s.tokens[hash := Token(user, family, false, expiresAt)]
      case Rotate(h, next, now, expiresAt) =>
        && t.resets == s.resets
        && if h !in s.tokens then t.tokens == s.tokens
           else if s.tokens[h].used then
             t.tokens == map k | k in s.tokens && s.tokens[k].family != s.tokens[h].family :: s.tokens[k]
           else if s.tokens[h].expiresAt < now || next in s.issued then t.tokens == s.tokens
           else t.tokens == s.tokens[h := Token(s.tokens[h].user, s.tokens[h].family, true, s.tokens[h].expiresAt)]
                                    [next := Token(s.tokens[h].user, s.tokens[h].family, false, expiresAt)]
      case Logout(h) =>
        && t.resets == s.resets
        && t.tokens == if h !in s.tokens then s.tokens
                       else map k | k in s.tokens && s.tokens[k].family != s.tokens[h].family :: s.tokens[k]
      case IssueReset(user, hash, expiresAt) =>
        && t.tokens == s.tokens
        && t.resets == if hash in s.resets then s.resets else s.resets[hash := ResetToken(user, false, expiresAt)]
      case ResetPassword(hash, now) =>
        if hash in s.resets && !s.resets[hash].used && now <= s.resets[hash].expiresAt then
          && t.resets == s.resets[hash := ResetToken(s.resets[hash].user, true, s.resets[hash].expiresAt)]
          && t.tokens == map k | k in s.tokens && s.tokens[k].user != s.resets[hash].user :: s.tokens[k]
        else t == s
  {
  }

  // ---------------------------------------------------------------- the repository

  datatype Outcome = Ok(user: UserId) | Invalid

  class Repository {
    var tokens: map<TokenHash, Token>
    var resets: map<TokenHash, ResetToken>
    ghost var issued: map<TokenHash, FamilyId>
    ghost var owners: map<FamilyId, UserId>
    ghost var closed: set<FamilyId>

    ghost function Snapshot(): State
      reads this
    {
      State(tokens, resets, issued, owners, closed)
    }

    constructor ()
      ensures Snapshot() == EMPTY
    {
      tokens, resets, issued, owners, closed := map[], map[], map[], map[], {};
    }

    /** A login inserts the first token of a new family. */
    method CreateRefreshFamily(user: UserId, family: FamilyId, hash: TokenHash, expiresAt: int)
      requires Inv(Snapshot()) && family !in owners && hash !in issued
      modifies this
      ensures Inv(Snapshot()) && Snapshot() == Step(old(Snapshot()), Login(user, family, hash, expiresAt))
    {
      StepKeepsInv(Snapshot(), Login(user, family, hash, expiresAt));
      tokens := tokens[hash := Token(user, family, false, expiresAt)];
      issued, owners := issued[hash := family], owners[family := user];
    }

    /** One transaction; reuse deletes the family's rows, an expired token changes nothing. */
    method RotateRefreshToken(presented: TokenHash, next: TokenHash, now: int, expiresAt: int) returns (r: Outcome)
      requires Inv(Snapshot()) && next !in issued
      modifies this
      ensures Inv(Snapshot()) && Snapshot() == Step(old(Snapshot()), Rotate(presented, next, now, expiresAt))
      ensures r.Ok? <==> old(presented in tokens && !tokens[presented].used) && now <= old(tokens)[presented].expiresAt
      ensures r.Ok? ==> r.user == old(tokens)[presented].user
    {
      StepKeepsInv(Snapshot(), Rotate(presented, next, now, expiresAt));
      if presented !in tokens { return Invalid; }
      var row := tokens[presented];
      if row.used {
        tokens := tokens - (set h | h in tokens && tokens[h].family == row.family);
        closed := closed + {row.family};
        return Invalid;
      }
      if now > row.expiresAt { return Invalid; }
      tokens := tokens[presented := row.(used := true)];
      tokens := tokens[next := Token(row.user, row.family, false, expiresAt)];
      issued := issued[next := row.family];
      return Ok(row.user);
    }

    /** Logout; a token that matches nothing counts as revoked already. */
    method RevokeFamilyByTokenHash(presented: TokenHash) returns (r: Outcome)
      requires Inv(Snapshot())
      modifies this
      ensures Inv(Snapshot()) && Snapshot() == Step(old(Snapshot()), Logout(presented))
      ensures r == if old(presented in tokens) then Ok(old(tokens)[presented].user) else Invalid
    {
      StepKeepsInv(Snapshot(), Logout(presented));
      if presented !in tokens { return Invalid; }
      var row := tokens[presented];
      tokens := tokens - (set h | h in tokens && tokens[h].family == row.family);
      closed := closed + {row.family};
      return Ok(row.user);
    }

    /** Consumes the reset token and deletes every refresh token of its user. */
    method ResetUserPassword(hash: TokenHash, now: int) returns (r: Outcome)
      requires Inv(Snapshot())
      modifies this
      ensures Inv(Snapshot()) && Snapshot() == Step(old(Snapshot()), ResetPassword(hash, now))
      ensures r.Ok? <==> old(hash in resets && !resets[hash].used) && now <= old(resets)[hash].expiresAt
      ensures r.Ok? ==> r.user == old(resets)[hash].user
      ensures r.Ok? ==> forall h :: h in tokens ==> tokens[h].user != r.user
    {
      StepKeepsInv(Snapshot(), ResetPassword(hash, now));
      if hash !in resets { return Invalid; }
      var row := resets[hash];
      if row.used || now > row.expiresAt { return Invalid; }
      resets := resets[hash := row.(used := true)];
      tokens := tokens - (set h | h in tokens && tokens[h].user == row.user);
      closed := closed + (set f | f in owners && owners[f] == row.user);
      return Ok(row.user);
    }
  }
}
