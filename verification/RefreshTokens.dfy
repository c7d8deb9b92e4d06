/** TokenService: refresh tokens with rotation and reuse detection over a growing table of linked
    rows.

    A row's id is its position.  A raw token stands for its hash, which is unique in the table; times
    are integers.  Transactions are serial.  Step is total and says what the caller is told. */
module RefreshTokens {
  import opened Prelude

  type UserId = string
  type Hash = string

  datatype Row = Row(
    userId: UserId,
    hash: Hash,
    expiresAt: int,
    revokedAt: Option<int>,
    replacedBy: Option<nat>)

  datatype Event =
    | Login(userId: UserId, newHash: Hash, expiresAt: int)   // login or registration
    | Rotate(hash: Hash, newHash: Hash, expiresAt: int, now: int)
    | Logout(hash: Hash, now: int)

  datatype Outcome =
    | Issued(userId: UserId)
    | Rotated(userId: UserId)
    | LoggedOut(userId: UserId)
    | ReuseDetected(userId: UserId)
    | InvalidToken
    | Expired
    | NothingToRevoke
    | HashTaken   // the unique constraint on token_hash refuses the new row

  /** select ... where token_hash = hash */
  function Find(rows: seq<Row>, hash: Hash): (id: Option<nat>)
    ensures id.Some? ==> id.value < |rows| && rows[id.value].hash == hash
    ensures id.None? ==> forall i | 0 <= i < |rows| :: rows[i].hash != hash
  {
    if rows == [] then None
    else if rows[|rows| - 1].hash == hash then Some(|rows| - 1)
    else Find(rows[..|rows| - 1], hash)
  }

  /** update ... set revoked_at = now where user_id = userId and revoked_at is null */
  function RevokeAll(rows: seq<Row>, userId: UserId, now: int): (rows': seq<Row>)
    ensures |rows'| == |rows|
  {
    seq(|rows|, i requires 0 <= i < |rows| =>
      if rows[i].userId == userId && rows[i].revokedAt == None
      then rows[i].(revokedAt := Some(now)) else rows[i])
  }

  function NewRow(userId: UserId, hash: Hash, expiresAt: int): Row {
    Row(userId, hash, expiresAt, None, None)
  }

  function StepLogin(rows: seq<Row>, userId: UserId, newHash: Hash, expiresAt: int): (seq<Row>, Outcome) {
    if Find(rows, newHash).Some? then (rows, HashTaken)
    else (rows + [NewRow(userId, newHash, expiresAt)], Issued(userId))
  }

  function StepRotate(rows: seq<Row>, hash: Hash, newHash: Hash, expiresAt: int, now: int): (seq<Row>, Outcome) {
    match Find(rows, hash)
    case None => (rows, InvalidToken)
    case Some(id) =>
      var row := rows[id];
      if row.revokedAt != None then (RevokeAll(rows, row.userId, now), ReuseDetected(row.userId))
      else if row.expiresAt <= now then (rows, Expired)
      else if Find(rows, newHash).Some? then (rows, HashTaken)
      else
        (rows[id := row.(revokedAt := Some(now), replacedBy := Some(|rows|))]
           + [NewRow(row.userId, newHash, expiresAt)],
         Rotated(row.userId))
  }

  function StepLogout(rows: seq<Row>, hash: Hash, now: int): (seq<Row>, Outcome) {
    match Find(rows, hash)
    case None => (rows, NothingToRevoke)
    case Some(id) =>
      if rows[id].revokedAt != None then (rows, NothingToRevoke)
      else (rows[id := rows[id].(revokedAt := Some(now))], LoggedOut(rows[id].userId))
  }

  function Step(rows: seq<Row>, e: Event): (seq<Row>, Outcome) {
    match e
    case Login(userId, newHash, expiresAt) => StepLogin(rows, userId, newHash, expiresAt)
    case Rotate(hash, newHash, expiresAt, now) => StepRotate(rows, hash, newHash, expiresAt, now)
    case Logout(hash, now) => StepLogout(rows, hash, now)
  }

  function After(run: seq<Event>): seq<Row> {
    if run == [] then [] else Step(After(run[..|run| - 1]), run[|run| - 1]).0
  }

  /** What the caller of event i of the run is told. */
  function OutcomeAt(run: seq<Event>, i: nat): Outcome
    requires i < |run|
  {
    Step(After(run[..i]), run[i]).1
  }

  // ------------------------------------------------------------------------------- the service

  /** The token table behind the service; each method is one committed transaction. */
  class TokenTable {
    var rows: seq<Row>

    constructor ()
      ensures rows == After([])
    {
      rows := [];
    }

    /** session.add and flush; the new id is the next position. */
    method CreateRefreshToken(userId: UserId, newHash: Hash, expiresAt: int) returns (id: Option<nat>)
      modifies this
      ensures rows == Step(old(rows), Login(userId, newHash, expiresAt)).0
      ensures id.Some? <==> Find(old(rows), newHash).None?
      ensures id.Some? ==> id.value == |old(rows)|
    {
      if Find(rows, newHash).Some? {
        return None;
      }
      id := Some(|rows|);
      rows := rows + [NewRow(userId, newHash, expiresAt)];
    }

    method RotateRefreshToken(hash: Hash, newHash: Hash, expiresAt: int, now: int) returns (outcome: Outcome)
      modifies this
      ensures (rows, outcome) == Step(old(rows), Rotate(hash, newHash, expiresAt, now))
    {
      var found := Find(rows, hash);
      if found == None {
        return InvalidToken;
      }
      var row := rows[found.value];
      if row.revokedAt != None {
        rows := RevokeAll(rows, row.userId, now);
        return ReuseDetected(row.userId);
      }
      if row.expiresAt <= now {
        return Expired;
      }
      var newId := CreateRefreshToken(row.userId, newHash, expiresAt);
      if newId == None {
        return HashTaken;
      }
      rows := rows[found.value := row.(revokedAt := Some(now), replacedBy := newId)];
      assert rows == Step(old(rows), Rotate(hash, newHash, expiresAt, now)).0;
      return Rotated(row.userId);
    }

    method RevokeRefreshToken(hash: Hash, now: int) returns (revoked: bool)
      modifies this
      ensures rows == Step(old(rows), Logout(hash, now)).0
      ensures revoked <==> Step(old(rows), Logout(hash, now)).1.LoggedOut?
    {
      var found := Find(rows, hash);
      if found.Some? && rows[found.value].revokedAt == None {
        rows := rows[found.value := rows[found.value].(revokedAt := Some(now))];
        return true;
      }
      return false;
    }
  }

  // -------------------------------------------------------------------------------- the chains

  ghost predicate HashesAreUnique(rows: seq<Row>) {
    forall i, j | 0 <= i < j < |rows| :: rows[i].hash != rows[j].hash
  }

  /** A replaced token is revoked, and its successor is a later token of the same user. */
  ghost predicate LinksGoForward(rows: seq<Row>) {
    forall i | 0 <= i < |rows| && rows[i].replacedBy.Some? ::
      && i < rows[i].replacedBy.value < |rows|
      && rows[rows[i].replacedBy.value].userId == rows[i].userId
      && rows[i].revokedAt.Some?
  }

  ghost predicate NoSharedSuccessors(rows: seq<Row>) {
    forall i, j | 0 <= i < j < |rows| && rows[i].replacedBy.Some? :: rows[i].replacedBy != rows[j].replacedBy
  }

  ghost predicate Inv(rows: seq<Row>) {
    HashesAreUnique(rows) && LinksGoForward(rows) && NoSharedSuccessors(rows)
  }

  lemma AppendKeepsInv(rows: seq<Row>, userId: UserId, hash: Hash, expiresAt: int)
    requires Inv(rows) && Find(rows, hash) == None
    ensures Inv(rows + [NewRow(userId, hash, expiresAt)])
  {
  }

  lemma LinkingKeepsInv(rows: seq<Row>, id: nat, now: int, hash: Hash, expiresAt: int)
    requires Inv(rows) && id < |rows| && rows[id].revokedAt == None && Find(rows, hash) == None
    ensures Inv(rows[id := rows[id].(revokedAt := Some(now), replacedBy := Some(|rows|))]
                + [NewRow(rows[id].userId, hash, expiresAt)])
  {
    var row := rows[id].(revokedAt := Some(now), replacedBy := Some(|rows|));
    var rows' := rows[id := row] + [NewRow(rows[id].userId, hash, expiresAt)];
    assert HashesAreUnique(rows');
    assert LinksGoForward(rows');
    assert NoSharedSuccessors(rows');
  }

  /** Setting revocation times of rows. */
  lemma RevokingKeepsInv(rows: seq<Row>, rows': seq<Row>)
    requires Inv(rows) && |rows'| == |rows|
    requires forall i | 0 <= i < |rows| ::
      rows'[i] == rows[i] || exists time :: rows'[i] == rows[i].(revokedAt := Some(time))
    ensures Inv(rows')
  {
    assert forall i | 0 <= i < |rows| ::
      rows'[i].hash == rows[i].hash && rows'[i].userId == rows[i].userId && rows'[i].replacedBy == rows[i].replacedBy;
  }

  lemma StepKeepsInv(rows: seq<Row>, e: Event)
    requires Inv(rows)
    ensures Inv(Step(rows, e).0)
  {
    match e
    case Login(userId, newHash, expiresAt) =>
      if Find(rows, newHash) == None { AppendKeepsInv(rows, userId, newHash, expiresAt); }
    case Rotate(hash, newHash, expiresAt, now) =>
      var found := Find(rows, hash);
      if found.Some? && rows[found.value].revokedAt == None && Find(rows, newHash) == None {
        LinkingKeepsInv(rows, found.value, now, newHash, expiresAt);
      } else {
        RevokingKeepsInv(rows, Step(rows, e).0);
      }
    case Logout(hash, now) =>
      RevokingKeepsInv(rows, Step(rows, e).0);
  }

  /** Links lead to strictly later tokens of the same user, no two tokens share a successor, and only
      a token that was not replaced can be unrevoked. */
  lemma {:induction false} TablesAreChains(run: seq<Event>)
    ensures Inv(After(run))
    ensures forall i | 0 <= i < |After(run)| && After(run)[i].revokedAt == None :: After(run)[i].replacedBy == None
  {
    if run != [] {
      TablesAreChains(run[..|run| - 1]);
      StepKeepsInv(After(run[..|run| - 1]), run[|run| - 1]);
    }
  }

  /** Following the links from a token: it ends, at a token of the same user. */
  function Tip(rows: seq<Row>, id: nat): (tip: nat)
    requires LinksGoForward(rows) && id < |rows|
    ensures id <= tip < |rows| && rows[tip].replacedBy == None && rows[tip].userId == rows[id].userId
    ensures rows[id].revokedAt == None ==> tip == id
    decreases |rows| - id
  {
    match rows[id].replacedBy
    case None => id
    case Some(next) => Tip(rows, next)
  }

  /** For each token of the table the login it descends from, by the history of the run. */
  function ChainOf(run: seq<Event>): (chain: seq<nat>)
    ensures |chain| == |After(run)|
  {
    if run == [] then []
    else ChainStep(After(run[..|run| - 1]), ChainOf(run[..|run| - 1]), run[|run| - 1])
  }

  /** A login starts a chain of its own; a rotation carries its token's chain on. */
  function ChainStep(rows: seq<Row>, chain: seq<nat>, e: Event): (chain': seq<nat>)
    requires |chain| == |rows|
    ensures |chain'| == |Step(rows, e).0|
  {
    match Step(rows, e).1
    case Issued(_) => chain + [|chain|]
    case Rotated(_) => chain + [chain[Find(rows, e.hash).value]]
    case _ => chain
  }

  /** The logins of a user that neither a logout nor reuse detection has ended. */
  function OpenChains(run: seq<Event>, userId: UserId): set<nat> {
    if run == [] then {}
    else
      OpenStep(After(run[..|run| - 1]), ChainOf(run[..|run| - 1]),
               OpenChains(run[..|run| - 1], userId), run[|run| - 1], userId)
  }

  function OpenStep(rows: seq<Row>, chain: seq<nat>, open: set<nat>, e: Event, userId: UserId): set<nat>
    requires |chain| == |rows|
  {
    match Step(rows, e).1
    case Issued(u) => if u == userId then open + {|rows|} else open
    case LoggedOut(u) => if u == userId then open - {chain[Find(rows, e.hash).value]} else open
    case ReuseDetected(u) => if u == userId then {} else open
    case _ => open
  }

  predicate IsLive(rows: seq<Row>, i: int, userId: UserId) {
    0 <= i < |rows| && rows[i].userId == userId && rows[i].revokedAt == None
  }

  ghost function LiveTokens(rows: seq<Row>, userId: UserId): set<nat> {
    set i | 0 <= i < |rows| && IsLive(rows, i, userId)
  }

  /** ChainOf agrees with the links: a token and its successor belong to the same login, which is
      the user's and no later than the token. */
  ghost predicate ChainsFollowLinks(rows: seq<Row>, chain: seq<nat>)
    requires |chain| == |rows|
  {
    && (forall i | 0 <= i < |rows| && rows[i].replacedBy.Some? && rows[i].replacedBy.value < |rows| ::
          chain[rows[i].replacedBy.value] == chain[i])
    && (forall i | 0 <= i < |rows| :: chain[i] <= i && rows[chain[i]].userId == rows[i].userId)
  }

  /** One live token for each open chain, and none elsewhere. */
  ghost predicate OneTokenPerOpenChain(rows: seq<Row>, chain: seq<nat>, open: set<nat>, userId: UserId)
    requires |chain| == |rows|
  {
    && (forall i | IsLive(rows, i, userId) :: chain[i] in open)
    && (forall c | c in open :: exists i :: IsLive(rows, i, userId) && chain[i] == c)
    && (forall i, j | IsLive(rows, i, userId) && IsLive(rows, j, userId) && i != j :: chain[i] != chain[j])
  }

  lemma RotationFollowsLinks(rows: seq<Row>, chain: seq<nat>, id: nat, now: int, row: Row)
    requires |chain| == |rows| && Inv(rows) && ChainsFollowLinks(rows, chain)
    requires id < |rows| && rows[id].replacedBy == None && row.userId == rows[id].userId && row.replacedBy == None
    ensures ChainsFollowLinks(
      rows[id := rows[id].(revokedAt := Some(now), replacedBy := Some(|rows|))] + [row], chain + [chain[id]])
  {
  }

  lemma LoginFollowsLinks(rows: seq<Row>, chain: seq<nat>, row: Row)
    requires |chain| == |rows| && Inv(rows) && ChainsFollowLinks(rows, chain) && row.replacedBy == None
    ensures ChainsFollowLinks(rows + [row], chain + [|chain|])
  {
  }

  lemma SameLinksFollowed(rows: seq<Row>, rows': seq<Row>, chain: seq<nat>)
    requires |chain| == |rows| == |rows'| && ChainsFollowLinks(rows, chain)
    requires forall i | 0 <= i < |rows| ::
      rows'[i].replacedBy == rows[i].replacedBy && rows'[i].userId == rows[i].userId
    ensures ChainsFollowLinks(rows', chain)
  {
  }

  lemma RevocationFollowsLinks(rows: seq<Row>, chain: seq<nat>, e: Event)
    requires |chain| == |rows| && ChainsFollowLinks(rows, chain)
    requires !e.Login? && !Step(rows, e).1.Rotated?
    ensures ChainsFollowLinks(Step(rows, e).0, ChainStep(rows, chain, e))
  {
    OnlyRevokes(rows, e);
    SameLinksFollowed(rows, Step(rows, e).0, chain);
  }

  /** What is neither a login nor a successful rotation sets revocation times and nothing else. */
  lemma OnlyRevokes(rows: seq<Row>, e: Event)
    requires !e.Login? && !Step(rows, e).1.Rotated?
    ensures
      var rows' := Step(rows, e).0;
      |rows'| == |rows| && forall i | 0 <= i < |rows| :: rows'[i] == rows[i].(revokedAt := rows'[i].revokedAt)
  {
  }

  lemma StepFollowsLinks(rows: seq<Row>, chain: seq<nat>, e: Event)
    requires |chain| == |rows| && Inv(rows) && ChainsFollowLinks(rows, chain)
    ensures ChainsFollowLinks(Step(rows, e).0, ChainStep(rows, chain, e))
  {
    match e
    case Login(userId, newHash, expiresAt) =>
      if Step(rows, e).1.Issued? {
        LoginFollowsLinks(rows, chain, NewRow(userId, newHash, expiresAt));
      }
    case Rotate(hash, newHash, expiresAt, now) =>
      if Step(rows, e).1.Rotated? {
        var id := Find(rows, hash).value;
        RotationFollowsLinks(rows, chain, id, now, NewRow(rows[id].userId, newHash, expiresAt));
      } else {
        RevocationFollowsLinks(rows, chain, e);
      }
    case Logout(_, _) =>
      RevocationFollowsLinks(rows, chain, e);
  }

  lemma {:induction false} ChainsAreLinked(run: seq<Event>)
    ensures ChainsFollowLinks(After(run), ChainOf(run))
  {
    if run != [] {
      ChainsAreLinked(run[..|run| - 1]);
      TablesAreChains(run[..|run| - 1]);
      StepFollowsLinks(After(run[..|run| - 1]), ChainOf(run[..|run| - 1]), run[|run| - 1]);
    }
  }

  lemma LoginOpensChain(rows: seq<Row>, chain: seq<nat>, open: set<nat>, e: Event, userId: UserId)
    requires |chain| == |rows| && Inv(rows) && ChainsFollowLinks(rows, chain)
    requires OneTokenPerOpenChain(rows, chain, open, userId) && e.Login?
    ensures OneTokenPerOpenChain(
      Step(rows, e).0, ChainStep(rows, chain, e), OpenStep(rows, chain, open, e, userId), userId)
  {
    if Step(rows, e).1.Issued? {
      var row := NewRow(e.userId, e.newHash, e.expiresAt);
      if e.userId == userId {
        NewLiveToken(rows, chain, open, row, userId);
      } else {
        OtherUsersToken(rows, chain, open, row, userId);
      }
    }
  }

  lemma NewLiveToken(rows: seq<Row>, chain: seq<nat>, open: set<nat>, row: Row, userId: UserId)
    requires |chain| == |rows| && ChainsFollowLinks(rows, chain)
    requires OneTokenPerOpenChain(rows, chain, open, userId)
    requires row.userId == userId && row.revokedAt == None
    ensures OneTokenPerOpenChain(rows + [row], chain + [|chain|], open + {|rows|}, userId)
  {
    var rows', chain' := rows + [row], chain + [|chain|];
    assert forall i | 0 <= i < |rows| :: IsLive(rows', i, userId) == IsLive(rows, i, userId);
    forall c | c in open + {|rows|}
      ensures exists i :: IsLive(rows', i, userId) && chain'[i] == c
    {
      if c == |rows| {
        assert IsLive(rows', |rows|, userId);
      } else {
        var i :| IsLive(rows, i, userId) && chain[i] == c;
        assert IsLive(rows', i, userId);
      }
    }
  }

  lemma OtherUsersToken(rows: seq<Row>, chain: seq<nat>, open: set<nat>, row: Row, userId: UserId)
    requires |chain| == |rows| && OneTokenPerOpenChain(rows, chain, open, userId)
    requires row.userId != userId
    ensures OneTokenPerOpenChain(rows + [row], chain + [|chain|], open, userId)
  {
    var rows', chain' := rows + [row], chain + [|chain|];
    assert forall i | 0 <= i < |rows| :: IsLive(rows', i, userId) == IsLive(rows, i, userId);
    forall c | c in open
      ensures exists i :: IsLive(rows', i, userId) && chain'[i] == c
    {
      var i :| IsLive(rows, i, userId) && chain[i] == c;
      assert IsLive(rows', i, userId);
    }
  }

  lemma LivenessMoves(rows: seq<Row>, id: nat, now: int, row: Row, userId: UserId)
    requires id < |rows| && rows[id].revokedAt == None && row.userId == rows[id].userId && row.revokedAt == None
    ensures
      var rows' := rows[id := rows[id].(revokedAt := Some(now), replacedBy := Some(|rows|))] + [row];
      && (forall i | 0 <= i < |rows| :: IsLive(rows', i, userId) <==> IsLive(rows, i, userId) && i != id)
      && (IsLive(rows', |rows|, userId) <==> IsLive(rows, id, userId))
  {
  }

  lemma RotationKeepsChain(rows: seq<Row>, chain: seq<nat>, open: set<nat>, e: Event, userId: UserId)
    requires |chain| == |rows| && Inv(rows)
    requires OneTokenPerOpenChain(rows, chain, open, userId) && e.Rotate? && Step(rows, e).1.Rotated?
    ensures OneTokenPerOpenChain(
      Step(rows, e).0, ChainStep(rows, chain, e), OpenStep(rows, chain, open, e, userId), userId)
  {
    var rows', chain' := Step(rows, e).0, ChainStep(rows, chain, e);
    var id := Find(rows, e.hash).value;
    LivenessMoves(rows, id, e.now, NewRow(rows[id].userId, e.newHash, e.expiresAt), userId);
    assert chain'[|rows|] == chain[id];
    forall c | c in open
      ensures exists i :: IsLive(rows', i, userId) && chain'[i] == c
    {
      var i :| IsLive(rows, i, userId) && chain[i] == c;
      if i == id {
        assert IsLive(rows', |rows|, userId);
      } else {
        assert IsLive(rows', i, userId);
      }
    }
  }

  lemma EndingsCloseChains(rows: seq<Row>, chain: seq<nat>, open: set<nat>, e: Event, userId: UserId)
    requires |chain| == |rows| && Inv(rows)
    requires OneTokenPerOpenChain(rows, chain, open, userId) && !e.Login? && !Step(rows, e).1.Rotated?
    ensures OneTokenPerOpenChain(
      Step(rows, e).0, ChainStep(rows, chain, e), OpenStep(rows, chain, open, e, userId), userId)
  {
    assert ChainStep(rows, chain, e) == chain;
    if Step(rows, e).1.LoggedOut? {
      LogoutClosesChain(rows, chain, open, Find(rows, e.hash).value, e.now, userId);
    } else if Step(rows, e).1.ReuseDetected? {
      ReuseClosesChains(rows, chain, open, Step(rows, e).1.userId, e.now, userId);
    }
  }

  lemma LogoutClosesChain(rows: seq<Row>, chain: seq<nat>, open: set<nat>, id: nat, now: int, userId: UserId)
    requires |chain| == |rows| && OneTokenPerOpenChain(rows, chain, open, userId)
    requires id < |rows| && rows[id].revokedAt == None
    ensures OneTokenPerOpenChain(rows[id := rows[id].(revokedAt := Some(now))], chain,
                                 if rows[id].userId == userId then open - {chain[id]} else open, userId)
  {
    var rows' := rows[id := rows[id].(revokedAt := Some(now))];
    assert forall i | 0 <= i < |rows| :: IsLive(rows', i, userId) <==> IsLive(rows, i, userId) && i != id;
    forall c | c in open && (rows[id].userId == userId ==> c != chain[id])
      ensures exists i :: IsLive(rows', i, userId) && chain[i] == c
    {
      var i :| IsLive(rows, i, userId) && chain[i] == c;
      assert IsLive(rows', i, userId);
    }
  }

  lemma ReuseClosesChains(rows: seq<Row>, chain: seq<nat>, open: set<nat>, victim: UserId, now: int, userId: UserId)
    requires |chain| == |rows| && OneTokenPerOpenChain(rows, chain, open, userId)
    ensures OneTokenPerOpenChain(RevokeAll(rows, victim, now), chain, if victim == userId then {} else open, userId)
  {
    var rows' := RevokeAll(rows, victim, now);
    assert forall i | 0 <= i < |rows| :: IsLive(rows', i, userId) <==> IsLive(rows, i, userId) && userId != victim;
    if victim != userId {
      forall c | c in open
        ensures exists i :: IsLive(rows', i, userId) && chain[i] == c
      {
        var i :| IsLive(rows, i, userId) && chain[i] == c;
        assert IsLive(rows', i, userId);
      }
    }
  }

  /** Each open chain has exactly one live token, and every live token is in an open chain. */
  lemma {:induction false} OpenChainsHaveOneToken(run: seq<Event>, userId: UserId)
    ensures OneTokenPerOpenChain(After(run), ChainOf(run), OpenChains(run, userId), userId)
  {
    if run != [] {
      var before, e := run[..|run| - 1], run[|run| - 1];
      OpenChainsHaveOneToken(before, userId);
      ChainsAreLinked(before);
      TablesAreChains(before);
      var rows, chain, open := After(before), ChainOf(before), OpenChains(before, userId);
      if e.Login? {
        LoginOpensChain(rows, chain, open, e, userId);
      } else if Step(rows, e).1.Rotated? {
        RotationKeepsChain(rows, chain, open, e, userId);
      } else {
        EndingsCloseChains(rows, chain, open, e, userId);
      }
    }
  }

  lemma {:induction false} ImageSize(s: set<nat>, chain: seq<nat>, image: set<nat>)
    requires forall i | i in s :: i < |chain| && chain[i] in image
    requires forall c | c in image :: exists i :: i in s && chain[i] == c
    requires forall i, j | i in s && j in s && i != j :: chain[i] != chain[j]
    ensures |s| == |image|
  {
    if s == {} {
      assert image == {};
    } else {
      var i :| i in s;
      ImageSize(s - {i}, chain, image - {chain[i]});
    }
  }

  /** A user has exactly as many unrevoked tokens as logins that neither a logout nor reuse detection
      has ended. */
  lemma LiveTokensCountOpenChains(run: seq<Event>, userId: UserId)
    ensures |LiveTokens(After(run), userId)| == |OpenChains(run, userId)|
  {
    OpenChainsHaveOneToken(run, userId);
    ChainsAreLinked(run);
    forall c | c in OpenChains(run, userId)
      ensures exists i :: i in LiveTokens(After(run), userId) && ChainOf(run)[i] == c
    {
      var i :| IsLive(After(run), i, userId) && ChainOf(run)[i] == c;
      assert i in LiveTokens(After(run), userId);
    }
    ImageSize(LiveTokens(After(run), userId), ChainOf(run), OpenChains(run, userId));
  }

  /** Every token that is not a login's own was issued by rotating an earlier one. */
  ghost predicate HavePredecessors(rows: seq<Row>, chain: seq<nat>)
    requires |chain| == |rows|
  {
    forall i | 0 <= i < |rows| && chain[i] != i :: exists p :: IsPredecessor(rows, p, i)
  }

  ghost predicate IsPredecessor(rows: seq<Row>, p: int, i: nat) {
    0 <= p < i && p < |rows| && rows[p].replacedBy == Some(i)
  }

  lemma PredecessorsStay(rows: seq<Row>, chain: seq<nat>, e: Event)
    requires |chain| == |rows| && Inv(rows) && HavePredecessors(rows, chain)
    ensures HavePredecessors(Step(rows, e).0, ChainStep(rows, chain, e))
  {
    var rows', chain' := Step(rows, e).0, ChainStep(rows, chain, e);
    StepContinues(rows, e);
    forall i | 0 <= i < |rows'| && chain'[i] != i
      ensures exists p :: IsPredecessor(rows', p, i)
    {
      if i < |rows| {
        var p :| IsPredecessor(rows, p, i);
        assert IsPredecessor(rows', p, i);
      } else {
        assert IsPredecessor(rows', Find(rows, e.hash).value, i);
      }
    }
  }

  lemma {:induction false} TokensHavePredecessors(run: seq<Event>)
    ensures HavePredecessors(After(run), ChainOf(run))
  {
    if run != [] {
      TokensHavePredecessors(run[..|run| - 1]);
      TablesAreChains(run[..|run| - 1]);
      PredecessorsStay(After(run[..|run| - 1]), ChainOf(run[..|run| - 1]), run[|run| - 1]);
    }
  }

  lemma {:induction false} SameTip(rows: seq<Row>, chain: seq<nat>, i: nat)
    requires |chain| == |rows| && LinksGoForward(rows) && ChainsFollowLinks(rows, chain)
    requires HavePredecessors(rows, chain) && i < |rows|
    ensures Tip(rows, chain[i]) == Tip(rows, i)
  {
    if chain[i] != i {
      var p :| IsPredecessor(rows, p, i);
      SameTip(rows, chain, p);
    }
  }

  /** Following the links from the login of an open chain, or from any token of it, leads to the
      chain's one unrevoked token. */
  lemma {:induction false} LinksLeadToTheLiveToken(run: seq<Event>, userId: UserId, i: nat)
    requires i < |ChainOf(run)| && ChainOf(run)[i] in OpenChains(run, userId)
    ensures LinksGoForward(After(run)) && IsLive(After(run), Tip(After(run), i), userId)
  {
    TablesAreChains(run);
    ChainsAreLinked(run);
    TokensHavePredecessors(run);
    OpenChainsHaveOneToken(run, userId);
    var live :| IsLive(After(run), live, userId) && ChainOf(run)[live] == ChainOf(run)[i];
    SameTip(After(run), ChainOf(run), live);
    SameTip(After(run), ChainOf(run), i);
  }

  // ----------------------------------------------------------------- what never happens again

  /** rows' continues rows: nothing is deleted, and neither a revocation nor a link is ever changed
      or taken back. */
  ghost predicate Continues(rows: seq<Row>, rows': seq<Row>) {
    && |rows| <= |rows'|
    && forall i | 0 <= i < |rows| ::
         && rows'[i].hash == rows[i].hash && rows'[i].userId == rows[i].userId
         && rows'[i].expiresAt == rows[i].expiresAt
         && (rows[i].revokedAt.Some? ==> rows'[i].revokedAt == rows[i].revokedAt)
         && (rows[i].replacedBy.Some? ==> rows'[i].replacedBy == rows[i].replacedBy)
  }

  lemma StepContinues(rows: seq<Row>, e: Event)
    requires Inv(rows)
    ensures Continues(rows, Step(rows, e).0)
  {
    if e.Rotate? && Step(rows, e).1.Rotated? {
      var id := Find(rows, e.hash).value;
      RotationContinues(rows, id, e.now, NewRow(rows[id].userId, e.newHash, e.expiresAt));
    } else if !e.Login? {
      OnlyRevokes(rows, e);
    }
  }

  lemma RotationContinues(rows: seq<Row>, id: nat, now: int, row: Row)
    requires LinksGoForward(rows) && id < |rows| && rows[id].revokedAt == None
    ensures Continues(rows, rows[id := rows[id].(revokedAt := Some(now), replacedBy := Some(|rows|))] + [row])
  {
  }

  /** A revocation time once set is never changed or cleared, in any continuation of any run. */
  lemma {:induction false} RevocationIsForever(run: seq<Event>, more: seq<Event>)
    ensures Continues(After(run), After(run + more))
    decreases |more|
  {
    if more == [] {
      assert run + more == run;
    } else {
      var longer := run + more;
      assert longer[..|longer| - 1] == run + more[..|more| - 1];
      RevocationIsForever(run, more[..|more| - 1]);
      TablesAreChains(run + more[..|more| - 1]);
      StepContinues(After(run + more[..|more| - 1]), more[|more| - 1]);
    }
  }

  lemma FoundTokenStays(rows: seq<Row>, rows': seq<Row>, hash: Hash)
    requires Continues(rows, rows') && HashesAreUnique(rows') && Find(rows, hash).Some?
    ensures Find(rows', hash) == Find(rows, hash)
  {
  }

  /** Each raw token is rotated successfully at most once in a run; presenting it again is taken for
      reuse. */
  lemma RotationHappensOnce(run: seq<Event>, i: nat, j: nat)
    requires i < j < |run| && run[i].Rotate? && run[j].Rotate? && run[i].hash == run[j].hash
    requires OutcomeAt(run, i).Rotated?
    ensures OutcomeAt(run, j) == ReuseDetected(OutcomeAt(run, i).userId)
  {
    var before, after, later := After(run[..i]), After(run[..i + 1]), After(run[..j]);
    assert run[..i + 1][..i] == run[..i];
    assert run[..j] == run[..i + 1] + run[i + 1..j];
    RevocationIsForever(run[..i + 1], run[i + 1..j]);
    TablesAreChains(run[..i]);
    TablesAreChains(run[..i + 1]);
    TablesAreChains(run[..j]);
    StepContinues(before, run[i]);
    FoundTokenStays(before, after, run[i].hash);
    FoundTokenStays(after, later, run[i].hash);
  }

  ghost predicate NoLiveToken(rows: seq<Row>, userId: UserId) {
    forall i | 0 <= i < |rows| && rows[i].userId == userId :: rows[i].revokedAt.Some?
  }

  lemma StaysWithoutTokens(rows: seq<Row>, e: Event, userId: UserId)
    requires NoLiveToken(rows, userId) && Step(rows, e).1 != Issued(userId)
    ensures NoLiveToken(Step(rows, e).0, userId)
    ensures Step(rows, e).1 != Rotated(userId)
  {
  }

  /** Reuse detection revokes every token of the user at once and leaves other users' tokens alone. */
  lemma ReuseRevokesTheUser(rows: seq<Row>, e: Event, userId: UserId)
    requires Step(rows, e).1 == ReuseDetected(userId)
    ensures NoLiveToken(Step(rows, e).0, userId)
    ensures |Step(rows, e).0| == |rows|
    ensures forall i | 0 <= i < |rows| && rows[i].userId != userId :: Step(rows, e).0[i] == rows[i]
  {
  }

  lemma {:induction false} NoTokensUntilLogin(run: seq<Event>, i: nat, j: nat, userId: UserId)
    requires i < j <= |run| && OutcomeAt(run, i) == ReuseDetected(userId)
    requires forall k | i < k < j :: OutcomeAt(run, k) != Issued(userId)
    ensures NoLiveToken(After(run[..j]), userId)
    decreases j
  {
    var before, last := run[..j - 1], run[j - 1];
    assert run[..j][..j - 1] == before && run[..j][j - 1] == last;
    if j == i + 1 {
      ReuseRevokesTheUser(After(before), last, userId);
    } else {
      NoTokensUntilLogin(run, i, j - 1, userId);
      assert OutcomeAt(run, j - 1) != Issued(userId);
      StaysWithoutTokens(After(before), last, userId);
    }
  }

  /** After reuse is detected no rotation for that user succeeds until a new login or registration. */
  lemma NoRotationAfterReuse(run: seq<Event>, i: nat, j: nat, userId: UserId)
    requires i < j < |run| && OutcomeAt(run, i) == ReuseDetected(userId)
    requires forall k | i < k < j :: OutcomeAt(run, k) != Issued(userId)
    ensures OutcomeAt(run, j) != Rotated(userId)
  {
    NoTokensUntilLogin(run, i, j, userId);
  }
}
