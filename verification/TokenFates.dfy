/** What a caller of the token service is told, from the events of the run alone: when a token was
    issued and until when it is valid, and what ended it. */
module TokenFates {
  import opened Prelude
  import opened RefreshTokens

  // ------------------------------------------------------------------------- issued and ended

  /** The event, with that outcome, issues the token: by a login, or by the rotation of another one. */
  predicate IssuesBy(e: Event, outcome: Outcome, hash: Hash) {
    match e
    case Login(_, newHash, _) => newHash == hash && outcome.Issued?
    case Rotate(_, newHash, _, _) => newHash == hash && outcome.Rotated?
    case Logout(_, _) => false
  }

  /** The event ends the token: it is the token's own rotation or logout, or it detects reuse of some
      token of the same owner. */
  predicate EndsBy(e: Event, outcome: Outcome, hash: Hash, owner: UserId) {
    || (e.Rotate? && e.hash == hash && outcome.Rotated?)
    || (e.Logout? && e.hash == hash && outcome.LoggedOut?)
    || (e.Rotate? && outcome == ReuseDetected(owner))
  }

  ghost predicate Issues(run: seq<Event>, i: int, hash: Hash) {
    0 <= i < |run| && IssuesBy(run[i], OutcomeAt(run, i), hash)
  }

  ghost predicate Ends(run: seq<Event>, i: int, hash: Hash, owner: UserId) {
    0 <= i < |run| && EndsBy(run[i], OutcomeAt(run, i), hash, owner)
  }

  ghost predicate IsIssuedBefore(run: seq<Event>, n: nat, hash: Hash) {
    exists i :: i < n && Issues(run, i, hash)
  }

  /** The token issued by event i is ended by some event before number n. */
  ghost predicate IsEndedBefore(run: seq<Event>, i: int, n: nat, hash: Hash, owner: UserId) {
    exists k :: i < k < n && Ends(run, k, hash, owner)
  }

  /** Event k, before number n, is the first to end the token issued by event i. */
  ghost predicate IsFirstEnd(run: seq<Event>, i: int, k: int, n: nat, hash: Hash, owner: UserId) {
    i < k < n && Ends(run, k, hash, owner) && forall j | i < j < k :: !Ends(run, j, hash, owner)
  }

  /** Whose the token is. */
  function Owner(e: Event, outcome: Outcome): UserId {
    match outcome
    case Issued(userId) => userId
    case Rotated(userId) => userId
    case _ => ""
  }

  /** Until when the token is valid that the event issues. */
  function Expiry(e: Event): int {
    if e.Logout? then 0 else e.expiresAt
  }

  // --------------------------------------------------------------------- what the table remembers

  lemma FoundAt(rows: seq<Row>, id: nat)
    requires HashesAreUnique(rows) && id < |rows|
    ensures Find(rows, rows[id].hash) == Some(id)
  {
  }

  /** A step ends a token that is in the table, or leaves it as it is. */
  lemma KnownToken(rows: seq<Row>, e: Event, hash: Hash)
    requires Inv(rows) && Find(rows, hash).Some?
    ensures
      var (rows', outcome) := Step(rows, e);
      var id := Find(rows, hash).value;
      && Find(rows', hash) == Some(id)
      && rows'[id].userId == rows[id].userId && rows'[id].expiresAt == rows[id].expiresAt
      && rows'[id].revokedAt ==
           if rows[id].revokedAt == None && EndsBy(e, outcome, hash, rows[id].userId) then Some(e.now)
           else rows[id].revokedAt
  {
    var id := Find(rows, hash).value;
    StepKeepsInv(rows, e);
    StepContinues(rows, e);
    FoundAt(Step(rows, e).0, id);
    RevokedByStep(rows, e, id);
  }

  lemma RevokedByStep(rows: seq<Row>, e: Event, id: nat)
    requires HashesAreUnique(rows) && id < |rows|
    ensures
      var (rows', outcome) := Step(rows, e);
      |rows'| >= |rows| && rows'[id].revokedAt ==
        if rows[id].revokedAt == None && EndsBy(e, outcome, rows[id].hash, rows[id].userId) then Some(e.now)
        else rows[id].revokedAt
  {
    match e
    case Login(_, _, _) =>
    case Rotate(hash, _, _, _) => if hash == rows[id].hash { FoundAt(rows, id); }
    case Logout(hash, _) => if hash == rows[id].hash { FoundAt(rows, id); }
  }

  /** A token that is not in the table gets there exactly by being issued. */
  lemma NewToken(rows: seq<Row>, e: Event, hash: Hash)
    requires Inv(rows) && Find(rows, hash) == None
    ensures
      var (rows', outcome) := Step(rows, e);
      var found := Find(rows', hash);
      && (found.Some? <==> IssuesBy(e, outcome, hash))
      && (found.Some? ==>
            rows'[found.value].userId == Owner(e, outcome) && rows'[found.value].expiresAt == Expiry(e)
            && rows'[found.value].revokedAt == None)
  {
    if IssuesBy(e, Step(rows, e).1, hash) {
      StepKeepsInv(rows, e);
      IssuedRow(rows, e);
      FoundAt(Step(rows, e).0, |rows|);
    } else {
      NoOtherHashes(rows, e, hash);
    }
  }

  lemma IssuedRow(rows: seq<Row>, e: Event)
    requires Step(rows, e).1.Issued? || Step(rows, e).1.Rotated?
    ensures
      var (rows', outcome) := Step(rows, e);
      && !e.Logout? && |rows'| == |rows| + 1
      && rows'[|rows|] == NewRow(Owner(e, outcome), e.newHash, Expiry(e))
  {
  }

  lemma NoOtherHashes(rows: seq<Row>, e: Event, hash: Hash)
    requires Find(rows, hash) == None && !IssuesBy(e, Step(rows, e).1, hash)
    ensures Find(Step(rows, e).0, hash) == None
  {
    var rows' := Step(rows, e).0;
    forall i | 0 <= i < |rows'|
      ensures rows'[i].hash != hash
    {
      assert i < |rows| ==> rows'[i].hash == rows[i].hash;
    }
  }

  /** The row of a token tells which event issued it, to whom and until when, and when it was ended. */
  ghost predicate Tells(run: seq<Event>, n: nat, row: Row, i: int) {
    && i < n && Issues(run, i, row.hash)
    && row.userId == Owner(run[i], OutcomeAt(run, i)) && row.expiresAt == Expiry(run[i])
    && (row.revokedAt == None <==> !IsEndedBefore(run, i, n, row.hash, row.userId))
    && (row.revokedAt.Some? ==> exists k ::
          IsFirstEnd(run, i, k, n, row.hash, row.userId) && !run[k].Login? && row.revokedAt == Some(run[k].now))
  }

  lemma {:induction false} TableTellsTheRun(run: seq<Event>, n: nat, hash: Hash)
    requires n <= |run|
    ensures TableTells(run, After(run[..n]), n, hash)
    decreases n
  {
    if n == 0 {
      assert run[..0] == [];
    } else {
      TableTellsTheRun(run, n - 1, hash);
      TablesAreChains(run[..n - 1]);
      TableTellsOneMore(run, After(run[..n - 1]), n, hash);
      assert run[..n][..n - 1] == run[..n - 1];
    }
  }

  /** What the rows say about a hash is what the events before number n say. */
  ghost predicate TableTells(run: seq<Event>, rows: seq<Row>, n: nat, hash: Hash) {
    match Find(rows, hash)
    case None => !IsIssuedBefore(run, n, hash)
    case Some(id) => exists i :: Tells(run, n, rows[id], i)
  }

  lemma TableTellsOneMore(run: seq<Event>, rows: seq<Row>, n: nat, hash: Hash)
    requires 0 < n <= |run| && rows == After(run[..n - 1])
    requires Inv(rows) && TableTells(run, rows, n - 1, hash)
    ensures TableTells(run, Step(rows, run[n - 1]).0, n, hash)
  {
    if Find(rows, hash).Some? {
      KnownTokenTells(run, rows, n, hash);
    } else {
      NewTokenTells(run, rows, n, hash);
    }
  }

  lemma KnownTokenTells(run: seq<Event>, rows: seq<Row>, n: nat, hash: Hash)
    requires 0 < n <= |run| && rows == After(run[..n - 1])
    requires Inv(rows) && TableTells(run, rows, n - 1, hash) && Find(rows, hash).Some?
    ensures TableTells(run, Step(rows, run[n - 1]).0, n, hash)
  {
    KnownToken(rows, run[n - 1], hash);
    var id := Find(rows, hash).value;
    var i :| Tells(run, n - 1, rows[id], i);
    TellsOneMore(run, n, rows[id], Step(rows, run[n - 1]).0[id], i);
  }

  lemma NewTokenTells(run: seq<Event>, rows: seq<Row>, n: nat, hash: Hash)
    requires 0 < n <= |run| && rows == After(run[..n - 1])
    requires Inv(rows) && TableTells(run, rows, n - 1, hash) && Find(rows, hash) == None
    ensures TableTells(run, Step(rows, run[n - 1]).0, n, hash)
  {
    var rows' := Step(rows, run[n - 1]).0;
    NewToken(rows, run[n - 1], hash);
    assert Issues(run, n - 1, hash) == IssuesBy(run[n - 1], Step(rows, run[n - 1]).1, hash);
    if Find(rows', hash).Some? {
      assert Tells(run, n, rows'[Find(rows', hash).value], n - 1);
    }
  }

  lemma TellsOneMore(run: seq<Event>, n: nat, row: Row, row': Row, i: int)
    requires 0 < n <= |run| && Tells(run, n - 1, row, i)
    requires row'.hash == row.hash && row'.userId == row.userId && row'.expiresAt == row.expiresAt
    requires row'.revokedAt ==
      if row.revokedAt == None && Ends(run, n - 1, row.hash, row.userId) then Some(run[n - 1].now)
      else row.revokedAt
    ensures Tells(run, n, row', i)
  {
    if row.revokedAt == None && Ends(run, n - 1, row.hash, row.userId) {
      assert IsFirstEnd(run, i, n - 1, n, row.hash, row.userId);
    } else if row.revokedAt.Some? {
      var k :| IsFirstEnd(run, i, k, n - 1, row.hash, row.userId) && row.revokedAt == Some(run[k].now);
      assert IsFirstEnd(run, i, k, n, row.hash, row.userId);
    }
  }

  /** A hash is issued at most once. */
  lemma {:induction false} IssuedOnce(run: seq<Event>, i: int, j: int, hash: Hash)
    requires Issues(run, i, hash) && Issues(run, j, hash)
    ensures i == j
  {
    if i < j {
      TableTellsTheRun(run, j, hash);
    } else if j < i {
      TableTellsTheRun(run, i, hash);
    }
  }

  // --------------------------------------------------------------------- what callers are told

  /** Rotation: event n presents a token.  It is unknown exactly if it was never issued.  Otherwise,
      with i the event that issued it: it is taken for reuse exactly if some event since ended it; it
      has expired exactly if it was not ended and its time is not later than now; and it is rotated,
      unless the new hash is taken, exactly if it was not ended and its time is later than now. */
  lemma {:induction false} FateOfRotation(run: seq<Event>, n: nat)
    requires n < |run| && run[n].Rotate?
    ensures OutcomeAt(run, n) == InvalidToken <==> !IsIssuedBefore(run, n, run[n].hash)
    ensures forall i | i < n && Issues(run, i, run[n].hash) ::
      var owner := Owner(run[i], OutcomeAt(run, i));
      var ended := IsEndedBefore(run, i, n, run[n].hash, owner);
      && (OutcomeAt(run, n) == ReuseDetected(owner) <==> ended)
      && (OutcomeAt(run, n) == Expired <==> !ended && run[i].expiresAt <= run[n].now)
      && (OutcomeAt(run, n) == Rotated(owner)
          <==> !ended && run[i].expiresAt > run[n].now && !IsIssuedBefore(run, n, run[n].newHash))
      && (OutcomeAt(run, n) == HashTaken
          <==> !ended && run[i].expiresAt > run[n].now && IsIssuedBefore(run, n, run[n].newHash))
  {
    TableTellsTheRun(run, n, run[n].hash);
    TableTellsTheRun(run, n, run[n].newHash);
    forall i | i < n && Issues(run, i, run[n].hash)
      ensures Find(After(run[..n]), run[n].hash).Some?
      ensures Tells(run, n, After(run[..n])[Find(After(run[..n]), run[n].hash).value], i)
    {
      var j :| Tells(run, n, After(run[..n])[Find(After(run[..n]), run[n].hash).value], j);
      IssuedOnce(run, i, j, run[n].hash);
    }
  }

  /** Logout: a token is logged out exactly if it was issued and not ended since, expired or not. */
  lemma {:induction false} FateOfLogout(run: seq<Event>, n: nat)
    requires n < |run| && run[n].Logout?
    ensures OutcomeAt(run, n).LoggedOut? || OutcomeAt(run, n) == NothingToRevoke
    ensures !IsIssuedBefore(run, n, run[n].hash) ==> OutcomeAt(run, n) == NothingToRevoke
    ensures forall i | i < n && Issues(run, i, run[n].hash) ::
      var owner := Owner(run[i], OutcomeAt(run, i));
      OutcomeAt(run, n) == LoggedOut(owner) <==> !IsEndedBefore(run, i, n, run[n].hash, owner)
  {
    TableTellsTheRun(run, n, run[n].hash);
    forall i | i < n && Issues(run, i, run[n].hash)
      ensures Find(After(run[..n]), run[n].hash).Some?
      ensures Tells(run, n, After(run[..n])[Find(After(run[..n]), run[n].hash).value], i)
    {
      var j :| Tells(run, n, After(run[..n])[Find(After(run[..n]), run[n].hash).value], j);
      IssuedOnce(run, i, j, run[n].hash);
    }
  }

  /** Login and registration issue a token exactly if its hash was never issued before. */
  lemma {:induction false} FateOfLogin(run: seq<Event>, n: nat)
    requires n < |run| && run[n].Login?
    ensures OutcomeAt(run, n) == Issued(run[n].userId) <==> !IsIssuedBefore(run, n, run[n].newHash)
    ensures OutcomeAt(run, n) == HashTaken <==> IsIssuedBefore(run, n, run[n].newHash)
  {
    TableTellsTheRun(run, n, run[n].newHash);
  }
}
