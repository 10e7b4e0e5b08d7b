/** Whole histories of logins, refreshes, replays, logouts and cleanups.

    The scheme is refresh token rotation as described in section 4.14.2 of RFC 9700.
 */
module TokenRuns {
  import opened Wrappers
  import opened RefreshTokens

  /** `rotations` lists the raw tokens that were rotated successfully, oldest first. */
  datatype World = World(now: int, db: Db, rotations: seq<Jwt>)

  datatype Step =
    | LoginStep(person: nat, org: nat, isMember: bool, signing: Signing, family: nat)
    | RefreshStep(raw: Jwt, listed: nat, signing: Signing)
    | LogoutStep(raw: Jwt)
    | CleanupStep

  datatype Event = Event(at: int, step: Step)

  /** No token was signed for this person and organization in the second of the signing. */
  predicate SignsAnew(db: Db, person: nat, org: nat, signing: Signing) {
    Sign(person, org, signing) !in db.minted
  }

  /** The clock does not go back, a family id is drawn once, and no two tokens are signed for one person and
      organization in one second. */
  ghost predicate Enabled(w: World, e: Event) {
    && Ticks(w, e)
    && match e.step
       case LoginStep(person, org, isMember, signing, _) => isMember ==> SignsAnew(w.db, person, org, signing)
       case RefreshStep(raw, listed, signing) =>
         Refresh(w.db, e.at, raw, listed, signing).1.Rotated? ==> SignsAnew(w.db, raw.person, raw.org, signing)
       case _ => true
  }

  /** The clock does not go back, and a family id is drawn once. */
  ghost predicate Ticks(w: World, e: Event) {
    && w.now <= e.at
    && match e.step
       case LoginStep(_, _, _, signing, family) => e.at <= signing.at && family !in w.db.families
       case RefreshStep(_, _, signing) => e.at <= signing.at
       case _ => true
  }

  function Apply(w: World, e: Event): World {
    match e.step
    case LoginStep(person, org, isMember, signing, family) =>
      World(signing.at, IssueSession(w.db, e.at, person, org, isMember, signing, family), w.rotations)
    case RefreshStep(raw, listed, signing) =>
      var (db, result) := Refresh(w.db, e.at, raw, listed, signing);
      World(signing.at, db, if result.Rotated? then w.rotations + [raw] else w.rotations)
    case LogoutStep(raw) => World(e.at, Logout(w.db, e.at, raw), w.rotations)
    case CleanupStep => World(e.at, Cleanup(w.db, e.at), w.rotations)
  }

  function Run(w: World, events: seq<Event>): World
    decreases |events|
  {
    if events == [] then w else Run(Apply(w, events[0]), events[1..])
  }

  ghost predicate IsRun(w: World, events: seq<Event>)
    decreases |events|
  {
    events == [] || (Enabled(w, events[0]) && IsRun(Apply(w, events[0]), events[1..]))
  }

  function Initial(now: int): World {
    World(now, Db([], {}, {}), [])
  }

  // ---------------------------------------------------------------------------------------------
  // Invariant
  // ---------------------------------------------------------------------------------------------

  /** A row agrees with the signed token it stores, and a revoked row says when and why. */
  predicate RowOk(db: Db, now: int, token: Token) {
    && token.hash in db.minted && token.family in db.families
    && token.hash.person == token.person
    && token.expiresAt == token.lastUsedAt + WEEK
    && (token.revokedAt.Some? <==> token.reason.Some?)
    && (token.revokedAt.Some? ==> token.hash.second <= token.revokedAt.value / SECOND && token.revokedAt.value <= now)
    && (token.reason == Some(ROTATED) ==> token.scannable)
  }

  /** Two rows store different tokens, and rows of one family belong to one session of one person, of
      which at most one row is active. */
  predicate PairOk(a: Token, b: Token) {
    && a.hash != b.hash
    && (a.family == b.family ==>
          && a.person == b.person && a.issuedAt == b.issuedAt
          && (!IsActive(a) || !IsActive(b)))
  }

  ghost predicate RowsOk(db: Db, now: int) {
    && (forall i :: 0 <= i < |db.tokens| ==> RowOk(db, now, db.tokens[i]))
    && (forall i, j :: 0 <= i < |db.tokens| && 0 <= j < |db.tokens| && i != j ==> PairOk(db.tokens[i], db.tokens[j]))
  }

  predicate Stored(tokens: seq<Token>, raw: Jwt) {
    exists i :: 0 <= i < |tokens| && tokens[i].hash == raw
  }

  /** Every token whose signature still verifies has its row, active or revoked. */
  ghost predicate Retained(db: Db, now: int) {
    && (forall raw :: raw in db.minted ==> raw.second <= now / SECOND)
    && (forall raw :: raw in db.minted && Verifies(db.minted, raw, now) ==> Stored(db.tokens, raw))
  }

  /** A raw token is rotated at most once, and any row left of it says so. */
  ghost predicate RotatedOnce(w: World) {
    && (forall m, n :: 0 <= m < n < |w.rotations| ==> w.rotations[m] != w.rotations[n])
    && (forall n :: 0 <= n < |w.rotations| ==> w.rotations[n] in w.db.minted)
    && (forall n, i :: 0 <= n < |w.rotations| && 0 <= i < |w.db.tokens| && w.db.tokens[i].hash == w.rotations[n]
          ==> w.db.tokens[i].reason == Some(ROTATED))
  }

  ghost predicate Inv(w: World) {
    RowsOk(w.db, w.now) && Retained(w.db, w.now) && RotatedOnce(w)
  }

  // ---------------------------------------------------------------------------------------------
  // Every change to the table is one of three kinds
  // ---------------------------------------------------------------------------------------------

  /** Some active rows become revoked at `at`; nothing else about any row changes. */
  ghost predicate RevokesSome(before: seq<Token>, after: seq<Token>, at: int) {
    && |after| == |before|
    && forall i :: 0 <= i < |before| ==>
         || after[i] == before[i]
         || (IsActive(before[i]) && exists reason :: after[i] == Revoked(before[i], at, reason))
  }

  lemma LaterRowsOk(db: Db, now: int, later: int)
    requires RowsOk(db, now) && now <= later
    ensures RowsOk(db, later)
  {
  }

  lemma LaterRetained(db: Db, now: int, later: int)
    requires Retained(db, now) && now <= later
    ensures Retained(db, later)
  {
    forall raw | raw in db.minted && Verifies(db.minted, raw, later)
      ensures Stored(db.tokens, raw)
    {
      assert Verifies(db.minted, raw, now);
    }
  }

  /** `scannedOnly` tells that a row revoked as ROTATED here was matched by a scan. */
  lemma RevokingKeepsRows(db: Db, after: seq<Token>, now: int, at: int)
    requires RowsOk(db, now) && now <= at && RevokesSome(db.tokens, after, at)
    requires forall raw :: raw in db.minted ==> raw.second <= now / SECOND
    requires forall i :: 0 <= i < |after| && after[i].reason == Some(ROTATED) ==> after[i].scannable
    ensures RowsOk(db.(tokens := after), at)
  {
    forall i | 0 <= i < |after|
      ensures RowOk(db, at, after[i])
    {
      assert RowOk(db, now, db.tokens[i]);
    }
    forall i, j | 0 <= i < |after| && 0 <= j < |after| && i != j
      ensures PairOk(after[i], after[j])
    {
      assert PairOk(db.tokens[i], db.tokens[j]);
    }
  }

  lemma RevokingKeepsRetained(db: Db, after: seq<Token>, now: int, at: int)
    requires Retained(db, now) && now <= at && RevokesSome(db.tokens, after, at)
    ensures Retained(db.(tokens := after), at)
  {
    LaterRetained(db, now, at);
    forall raw | Stored(db.tokens, raw)
      ensures Stored(after, raw)
    {
      var i :| 0 <= i < |db.tokens| && db.tokens[i].hash == raw;
      assert after[i].hash == raw;
    }
  }

  /** Adding the row of a newly signed token to a family that has no active row. */
  lemma AddingKeepsRows(db: Db, at: int, signedAt: int, token: Token, families: set<nat>)
    requires RowsOk(db, at) && Retained(db, at) && token.hash !in db.minted
    requires token.hash.person == token.person && token.hash.second == signedAt / SECOND && at <= signedAt
    requires token.family in families && db.families <= families
    requires IsActive(token) && token.reason.None? && token.expiresAt == token.lastUsedAt + WEEK
    requires forall i :: 0 <= i < |db.tokens| && db.tokens[i].family == token.family ==>
               db.tokens[i].person == token.person && db.tokens[i].issuedAt == token.issuedAt && !IsActive(db.tokens[i])
    ensures var db' := Db(db.tokens + [token], db.minted + {token.hash}, families);
            RowsOk(db', signedAt) && Retained(db', signedAt)
  {
    var db' := Db(db.tokens + [token], db.minted + {token.hash}, families);
    forall i | 0 <= i < |db'.tokens|
      ensures RowOk(db', signedAt, db'.tokens[i])
    {
      if i < |db.tokens| {
        assert RowOk(db, at, db.tokens[i]);
      }
    }
    forall i, j | 0 <= i < |db'.tokens| && 0 <= j < |db'.tokens| && i != j
      ensures PairOk(db'.tokens[i], db'.tokens[j])
    {
      if i < |db.tokens| && j < |db.tokens| {
        assert PairOk(db.tokens[i], db.tokens[j]);
      } else {
        assert RowOk(db, at, db.tokens[if i < j then i else j]);
      }
    }
    forall raw | raw in db'.minted && Verifies(db'.minted, raw, signedAt)
      ensures Stored(db'.tokens, raw)
    {
      if raw == token.hash {
        assert db'.tokens[|db.tokens|].hash == raw;
      } else {
        assert Verifies(db.minted, raw, at);
        var i :| 0 <= i < |db.tokens| && db.tokens[i].hash == raw;
        assert db'.tokens[i].hash == raw;
      }
    }
  }

  // ---------------------------------------------------------------------------------------------
  // Steps
  // ---------------------------------------------------------------------------------------------

  lemma LoginKeepsInv(w: World, e: Event)
    requires Inv(w) && Enabled(w, e) && e.step.LoginStep?
    ensures Inv(Apply(w, e))
  {
    var LoginStep(person, org, isMember, signing, family) := e.step;
    LaterRowsOk(w.db, w.now, e.at);
    LaterRetained(w.db, w.now, e.at);
    if isMember {
      var token := Token(person, Sign(person, org, signing), signing.scannable, e.at, e.at, e.at + WEEK, None, None,
                         family);
      forall i | 0 <= i < |w.db.tokens|
        ensures w.db.tokens[i].family != family
      {
        assert RowOk(w.db, w.now, w.db.tokens[i]);
      }
      AddingKeepsRows(w.db, e.at, signing.at, token, w.db.families + {family});
    } else {
      LaterRowsOk(w.db, e.at, signing.at);
      LaterRetained(w.db, e.at, signing.at);
    }
  }

  lemma LogoutKeepsInv(w: World, e: Event)
    requires Inv(w) && Enabled(w, e) && e.step.LogoutStep?
    ensures Inv(Apply(w, e))
  {
    LaterRowsOk(w.db, w.now, e.at);
    LaterRetained(w.db, w.now, e.at);
    var db' := Logout(w.db, e.at, e.step.raw);
    if db' != w.db {
      var found := FindMatch(w.db.tokens, e.step.raw.person, true, false, e.step.raw).value;
      assert db'.tokens[found] == Revoked(w.db.tokens[found], e.at, LOGGED_OUT);
      RevokeOneKeeps(w, db'.tokens, e.at, found, LOGGED_OUT);
    }
  }

  lemma RevokeOneKeeps(w: World, after: seq<Token>, at: int, i: nat, reason: Reason)
    requires Inv(w) && w.now <= at && i < |w.db.tokens| && IsActive(w.db.tokens[i])
    requires after == w.db.tokens[i := Revoked(w.db.tokens[i], at, reason)]
    requires reason == ROTATED ==> w.db.tokens[i].scannable
    ensures RevokesSome(w.db.tokens, after, at)
    ensures RowsOk(w.db.(tokens := after), at) && Retained(w.db.(tokens := after), at)
    ensures RotatedOnce(w.(db := w.db.(tokens := after)))
  {
    assert forall k :: 0 <= k < |after| && after[k].reason == Some(ROTATED) ==> after[k].scannable by {
      assert forall k :: 0 <= k < |after| ==> RowOk(w.db, w.now, w.db.tokens[k]);
    }
    RevokingKeepsRows(w.db, after, w.now, at);
    RevokingKeepsRetained(w.db, after, w.now, at);
    assert RowOk(w.db, w.now, w.db.tokens[i]);
  }

  lemma ReuseKeepsInv(w: World, at: int, person: nat, family: nat)
    requires Inv(w) && w.now <= at
    ensures var after := RevokeOnReuse(w.db.tokens, person, family, at);
            && RevokesSome(w.db.tokens, after, at)
            && RowsOk(w.db.(tokens := after), at) && Retained(w.db.(tokens := after), at)
            && RotatedOnce(w.(db := w.db.(tokens := after)))
  {
    var after := RevokeOnReuse(w.db.tokens, person, family, at);
    assert forall k :: 0 <= k < |after| ==> RowOk(w.db, w.now, w.db.tokens[k]);
    assert RevokesSome(w.db.tokens, after, at);
    RevokingKeepsRows(w.db, after, w.now, at);
    RevokingKeepsRetained(w.db, after, w.now, at);
  }

  lemma RotateKeepsInv(w: World, e: Event, i: nat)
    requires Inv(w) && Ticks(w, e) && e.step.RefreshStep?
    requires SignsAnew(w.db, e.step.raw.person, e.step.raw.org, e.step.signing)
    requires i < |w.db.tokens| && IsActive(w.db.tokens[i]) && w.db.tokens[i].scannable
    requires w.db.tokens[i].hash == e.step.raw && w.db.tokens[i].person == e.step.raw.person
    ensures Inv(World(e.step.signing.at, Rotate(w.db, e.at, i, e.step.raw, e.step.signing), w.rotations + [e.step.raw]))
  {
    var signing, raw := e.step.signing, e.step.raw;
    var mid := w.db.tokens[i := Revoked(w.db.tokens[i], e.at, ROTATED)];
    RevokeOneKeeps(w, mid, e.at, i, ROTATED);
    var revoked := w.db.(tokens := mid);
    var next := Rotate(w.db, e.at, i, raw, signing).tokens[|mid|];
    forall k | 0 <= k < |mid| && mid[k].family == next.family
      ensures mid[k].person == next.person && mid[k].issuedAt == next.issuedAt && !IsActive(mid[k])
    {
      if k != i {
        assert PairOk(w.db.tokens[k], w.db.tokens[i]);
      }
    }
    AddingKeepsRows(revoked, e.at, signing.at, next, w.db.families);
    var w' := World(signing.at, Rotate(w.db, e.at, i, raw, signing), w.rotations + [raw]);
    assert RowOk(w.db, w.now, w.db.tokens[i]);
    assert forall n :: 0 <= n < |w.rotations| ==> w.rotations[n] != raw;
    assert forall k :: 0 <= k < |mid| && k != i ==> mid[k].hash != raw by {
      assert forall k :: 0 <= k < |mid| && k != i ==> PairOk(w.db.tokens[k], w.db.tokens[i]);
    }
    assert forall k :: 0 <= k < |mid| ==> w'.db.tokens[k] == mid[k];
  }

  lemma RefreshKeepsInv(w: World, e: Event)
    requires Inv(w) && Enabled(w, e) && e.step.RefreshStep?
    ensures Inv(Apply(w, e))
  {
    var RefreshStep(raw, listed, signing) := e.step;
    var (db', result) := Refresh(w.db, e.at, raw, listed, signing);
    match result {
      case Rotated(_) =>
        RotateKeepsInv(w, e, FindMatch(w.db.tokens, raw.person, true, true, raw).value);
      case Expired =>
        var i := FindMatch(w.db.tokens, raw.person, true, true, raw).value;
        RevokeOneKeeps(w, db'.tokens, e.at, i, FORCE_REVOKE);
        LaterRowsOk(db', e.at, signing.at);
        LaterRetained(db', e.at, signing.at);
      case Reused =>
        var m := FindMatch(w.db.tokens, raw.person, false, true, raw).value;
        var first := FirstListed(w.db.tokens, raw.person, listed, m);
        ReuseKeepsInv(w, e.at, raw.person, w.db.tokens[first].family);
        LaterRowsOk(db', e.at, signing.at);
        LaterRetained(db', e.at, signing.at);
      case _ =>
        LaterRowsOk(w.db, w.now, signing.at);
        LaterRetained(w.db, w.now, signing.at);
    }
  }

  lemma RowAdded(db: Db, tokens: seq<Token>, token: Token, now: int)
    requires RowsOk(db.(tokens := tokens), now) && RowOk(db, now, token)
    requires forall other :: other in tokens ==> PairOk(other, token) && PairOk(token, other)
    ensures RowsOk(db.(tokens := tokens + [token]), now)
  {
    hide PairOk;
  }

  lemma FrontKept(db: Db, now: int)
    requires RowsOk(db, now) && db.tokens != []
    ensures var init, last := db.tokens[..|db.tokens| - 1], db.tokens[|db.tokens| - 1];
      && RowsOk(db.(tokens := init), now) && RowOk(db, now, last)
      && forall other :: other in init ==> PairOk(other, last) && PairOk(last, other)
  {
    hide PairOk;
  }

  lemma {:induction false} WithoutKeepsRows(db: Db, now: int, cutoff: int)
    requires RowsOk(db, now)
    ensures RowsOk(db.(tokens := Without(db.tokens, cutoff)), now)
    decreases |db.tokens|
  {
    hide RowsOk, RowOk, PairOk, IsStale;
    if db.tokens == [] {
      WithoutNothing(cutoff);
      assert db.(tokens := []) == db;
    } else {
      var init, last := db.tokens[..|db.tokens| - 1], db.tokens[|db.tokens| - 1];
      FrontKept(db, now);
      WithoutKeepsRows(db.(tokens := init), now, cutoff);
      var kept := Without(init, cutoff);
      if IsStale(last, cutoff) {
        assert kept + [] == kept;
      } else {
        RowAdded(db, kept, last, now);
      }
    }
  }

  /** A token that still verifies was signed at most seven days ago, so its row was revoked at most seven days ago. */
  lemma StaleTokensDoNotVerify(db: Db, now: int, at: int)
    requires RowsOk(db, now) && Retained(db, at) && now <= at
    ensures Retained(db.(tokens := Without(db.tokens, at - RETENTION)), at)
  {
    var kept := Without(db.tokens, at - RETENTION);
    forall raw | raw in db.minted && Verifies(db.minted, raw, at)
      ensures Stored(kept, raw)
    {
      var i :| 0 <= i < |db.tokens| && db.tokens[i].hash == raw;
      assert RowOk(db, now, db.tokens[i]);
      assert db.tokens[i] in kept;
    }
  }

  /** Cleaning up after thirty days drops no row of a token that still verifies after its seven. */
  lemma CleanupKeepsInv(w: World, e: Event)
    requires Inv(w) && Enabled(w, e) && e.step.CleanupStep?
    ensures Inv(Apply(w, e))
  {
    var kept := Without(w.db.tokens, e.at - RETENTION);
    LaterRowsOk(w.db, w.now, e.at);
    LaterRetained(w.db, w.now, e.at);
    WithoutKeepsRows(w.db, e.at, e.at - RETENTION);
    StaleTokensDoNotVerify(w.db, w.now, e.at);
    hide RowsOk, Retained, Verifies;
    forall i | 0 <= i < |kept|
      ensures kept[i] in w.db.tokens
    {
      assert kept[i] in kept;
    }
  }

  lemma StepKeepsInv(w: World, e: Event)
    requires Inv(w) && Enabled(w, e)
    ensures Inv(Apply(w, e))
  {
    match e.step {
      case LoginStep(_, _, _, _, _) => LoginKeepsInv(w, e);
      case RefreshStep(_, _, _) => RefreshKeepsInv(w, e);
      case LogoutStep(_) => LogoutKeepsInv(w, e);
      case CleanupStep => CleanupKeepsInv(w, e);
    }
  }

  lemma {:induction false} RunKeepsInv(w: World, events: seq<Event>)
    requires Inv(w) && IsRun(w, events)
    ensures Inv(Run(w, events))
    decreases |events|
  {
    if events != [] {
      StepKeepsInv(w, events[0]);
      RunKeepsInv(Apply(w, events[0]), events[1..]);
    }
  }

  /** What holds of every history that starts from an empty table. */
  lemma SessionsAreSound(now: int, events: seq<Event>)
    requires IsRun(Initial(now), events)
    ensures Inv(Run(Initial(now), events))
  {
    RunKeepsInv(Initial(now), events);
  }

  // ---------------------------------------------------------------------------------------------
  // Revocation is final
  // ---------------------------------------------------------------------------------------------

  /** Wherever a revoked token still has a row, the row is the one it had. */
  ghost predicate KeepsRevoked(before: seq<Token>, after: seq<Token>) {
    forall i, j :: 0 <= i < |before| && 0 <= j < |after| && !IsActive(before[i]) && after[j].hash == before[i].hash ==>
      after[j] == before[i]
  }

  ghost predicate Distinct(tokens: seq<Token>) {
    forall i, j :: 0 <= i < |tokens| && 0 <= j < |tokens| && i != j ==> tokens[i].hash != tokens[j].hash
  }

  /** Revoking rows, and adding a row for a new token, leaves revoked rows alone. */
  lemma RevokingKeepsRevoked(before: seq<Token>, revoked: seq<Token>, at: int, added: seq<Token>)
    requires Distinct(before) && RevokesSome(before, revoked, at)
    requires forall k, i :: 0 <= k < |added| && 0 <= i < |before| ==> added[k].hash != before[i].hash
    ensures KeepsRevoked(before, revoked + added)
  {
    forall i, j | 0 <= i < |before| && 0 <= j < |revoked + added| && !IsActive(before[i])
                  && (revoked + added)[j].hash == before[i].hash
      ensures (revoked + added)[j] == before[i]
    {
    }
  }

  lemma RefreshKeepsRevoked(w: World, e: Event)
    requires Inv(w) && Enabled(w, e) && e.step.RefreshStep? && Distinct(w.db.tokens)
    requires forall i :: 0 <= i < |w.db.tokens| ==> w.db.tokens[i].hash in w.db.minted
    ensures KeepsRevoked(w.db.tokens, Apply(w, e).db.tokens)
  {
    var RefreshStep(raw, listed, signing) := e.step;
    var (db', result) := Refresh(w.db, e.at, raw, listed, signing);
    if result.Rotated? || result.Expired? {
      var i := FindMatch(w.db.tokens, raw.person, true, true, raw).value;
      var revoked := db'.tokens[..|w.db.tokens|];
      assert revoked[i] == Revoked(w.db.tokens[i], e.at, if result.Expired? then FORCE_REVOKE else ROTATED);
      assert RevokesSome(w.db.tokens, revoked, e.at);
      assert db'.tokens == revoked + db'.tokens[|w.db.tokens|..];
      RevokingKeepsRevoked(w.db.tokens, revoked, e.at, db'.tokens[|w.db.tokens|..]);
    } else if result.Reused? {
      var m := FindMatch(w.db.tokens, raw.person, false, true, raw).value;
      var first := FirstListed(w.db.tokens, raw.person, listed, m);
      ReuseKeepsInv(w, e.at, raw.person, w.db.tokens[first].family);
      RevokingKeepsRevoked(w.db.tokens, db'.tokens, e.at, []);
      assert db'.tokens + [] == db'.tokens;
    }
  }

  lemma StepKeepsRevoked(w: World, e: Event)
    requires Inv(w) && Enabled(w, e)
    ensures KeepsRevoked(w.db.tokens, Apply(w, e).db.tokens)
  {
    assert forall i, j :: 0 <= i < |w.db.tokens| && 0 <= j < |w.db.tokens| && i != j ==>
             PairOk(w.db.tokens[i], w.db.tokens[j]);
    assert forall i :: 0 <= i < |w.db.tokens| ==> RowOk(w.db, w.now, w.db.tokens[i]);
    match e.step {
      case LoginStep(_, _, _, _, _) =>
      case RefreshStep(_, _, _) => RefreshKeepsRevoked(w, e);
      case LogoutStep(_) =>
      case CleanupStep =>
        assert forall j :: 0 <= j < |Apply(w, e).db.tokens| ==> Apply(w, e).db.tokens[j] in w.db.tokens;
    }
  }

  /** No row of a token is ever lost and made again, and no revoked row is revived or given another
      reason, in any history. */
  lemma {:induction false} RevocationIsFinal(w: World, events: seq<Event>, token: Token)
    requires Inv(w) && IsRun(w, events)
    requires !IsActive(token) && token.hash in w.db.minted
    requires forall i :: 0 <= i < |w.db.tokens| && w.db.tokens[i].hash == token.hash ==> w.db.tokens[i] == token
    ensures forall i :: 0 <= i < |Run(w, events).db.tokens| && Run(w, events).db.tokens[i].hash == token.hash ==>
              Run(w, events).db.tokens[i] == token
    decreases |events|
  {
    if events != [] {
      var w' := Apply(w, events[0]);
      StepKeepsInv(w, events[0]);
      StepKeepsRevoked(w, events[0]);
      StepAddsOnlyNew(w, events[0]);
      RevocationIsFinal(w', events[1..], token);
    }
  }

  lemma StepAddsOnlyNew(w: World, e: Event)
    requires Inv(w) && Enabled(w, e)
    ensures var w' := Apply(w, e);
            && w.db.minted <= w'.db.minted
            && forall j :: 0 <= j < |w'.db.tokens| && w'.db.tokens[j].hash in w.db.minted ==>
                 Stored(w.db.tokens, w'.db.tokens[j].hash)
  {
    var before, after := w.db.tokens, Apply(w, e).db.tokens;
    forall j | 0 <= j < |after| && after[j].hash in w.db.minted
      ensures Stored(before, after[j].hash)
    {
      if e.step.CleanupStep? {
        assert after[j] in before;
      } else if j < |before| {
        assert before[j].hash == after[j].hash;
      }
    }
  }

  // ---------------------------------------------------------------------------------------------
  // Expiry
  // ---------------------------------------------------------------------------------------------

  /** A row can only have expired while its signature still verifies if the signing happened in a later
      second than the one the row was dated by. */
  lemma ExpiredMeansSignedLate(w: World, at: int, raw: Jwt, listed: nat, signing: Signing)
    requires Inv(w) && Refresh(w.db, at, raw, listed, signing).1 == Expired
    ensures var i := FindMatch(w.db.tokens, raw.person, true, true, raw).value;
            w.db.tokens[i].lastUsedAt / SECOND < raw.second
  {
    var i := FindMatch(w.db.tokens, raw.person, true, true, raw).value;
    assert RowOk(w.db, w.now, w.db.tokens[i]);
  }

  // ---------------------------------------------------------------------------------------------
  // Reuse
  // ---------------------------------------------------------------------------------------------

  /** Replaying a token that was rotated, at any later moment at which its signature still verifies, is
      recognized as reuse: cleanup has not yet dropped its row. */
  lemma ReplayIsRecognized(w: World, at: int, raw: Jwt, listed: nat, signing: Signing)
    requires Inv(w) && w.now <= at && raw in w.rotations && Verifies(w.db.minted, raw, at)
    ensures Refresh(w.db, at, raw, listed, signing).1 == Reused
  {
    LaterRetained(w.db, w.now, at);
    var n :| 0 <= n < |w.rotations| && w.rotations[n] == raw;
    var i :| 0 <= i < |w.db.tokens| && w.db.tokens[i].hash == raw;
    assert RowOk(w.db, w.now, w.db.tokens[i]);
    assert forall j :: 0 <= j < |w.db.tokens| && j != i ==> PairOk(w.db.tokens[j], w.db.tokens[i]);
    assert IsMatch(w.db.tokens[i], raw.person, false, true, raw);
  }

  /** Reuse ends the session of the replayed token exactly when the session had ended before, or the
      revoked row listed first is of the same session, or is of a session that has ended. */
  lemma ReuseEndsSessionIff(w: World, at: int, raw: Jwt, listed: nat, signing: Signing)
    requires Inv(w) && Refresh(w.db, at, raw, listed, signing).1 == Reused
    ensures var person, tokens := raw.person, w.db.tokens;
            var m := FindMatch(tokens, person, false, true, raw).value;
            var replayed := tokens[m].family;
            var first := tokens[FirstListed(tokens, person, listed, m)].family;
            !HasActive(Refresh(w.db, at, raw, listed, signing).0.tokens, replayed)
            <==> !HasActive(tokens, replayed) || first == replayed || !HasActive(tokens, first)
  {
    var person, tokens := raw.person, w.db.tokens;
    var m := FindMatch(tokens, person, false, true, raw).value;
    var replayed := tokens[m].family;
    var first := tokens[FirstListed(tokens, person, listed, m)].family;
    assert Refresh(w.db, at, raw, listed, signing).0.tokens == RevokeOnReuse(tokens, person, first, at);
    assert forall i :: 0 <= i < |tokens| && tokens[i].family == replayed ==> tokens[i].person == person by {
      assert forall i :: 0 <= i < |tokens| && i != m ==> PairOk(tokens[i], tokens[m]);
    }
    FamilyEndsIff(tokens, person, first, replayed, at);
  }

  lemma FamilyEndsIff(tokens: seq<Token>, person: nat, first: nat, replayed: nat, at: int)
    requires forall i :: 0 <= i < |tokens| && tokens[i].family == replayed ==> tokens[i].person == person
    ensures !HasActive(RevokeOnReuse(tokens, person, first, at), replayed)
       <==> !HasActive(tokens, replayed) || first == replayed || !HasActive(tokens, first)
  {
    var after := RevokeOnReuse(tokens, person, first, at);
    if HasActive(tokens, replayed) && first != replayed && HasActive(tokens, first) {
      var i :| 0 <= i < |tokens| && InFamily(tokens[i], replayed);
      assert InFamily(after[i], replayed);
    } else {
      assert forall i :: 0 <= i < |tokens| ==> !InFamily(after[i], replayed) by {
        assert !HasActive(tokens, replayed) ==> forall i :: 0 <= i < |tokens| ==> !InFamily(tokens[i], replayed);
      }
    }
  }

  // ---------------------------------------------------------------------------------------------
  // Two signings in one second
  // ---------------------------------------------------------------------------------------------

  lemma MintedIsStored(w: World, at: int, raw: Jwt)
    requires Inv(w) && w.now <= at && raw in w.db.minted && raw.second == at / SECOND
    ensures Stored(w.db.tokens, raw)
  {
    assert Verifies(w.db.minted, raw, w.now);
  }

  /** No active row stores the token of a revoked row: what was revoked stays out of use. */
  ghost predicate StaysRevoked(tokens: seq<Token>) {
    forall i, j :: 0 <= i < |tokens| && 0 <= j < |tokens| && IsActive(tokens[i]) && !IsActive(tokens[j]) ==>
      tokens[i].hash != tokens[j].hash
  }

  /** From now on nothing that was or will be revoked comes back into use. */
  ghost predicate RevocationHolds(w: World) {
    forall events :: IsRun(w, events) ==> StaysRevoked(Run(w, events).db.tokens)
  }

  lemma SoundMeansRevocationHolds(w: World)
    requires Inv(w)
    ensures RevocationHolds(w)
  {
    forall events | IsRun(w, events) ensures StaysRevoked(Run(w, events).db.tokens) {
      RunKeepsInv(w, events);
      hide RowOk;
      var tokens := Run(w, events).db.tokens;
      forall i, j | 0 <= i < |tokens| && 0 <= j < |tokens| && IsActive(tokens[i]) && !IsActive(tokens[j])
        ensures tokens[i].hash != tokens[j].hash
      {
        assert PairOk(tokens[i], tokens[j]);
      }
    }
  }

  /** Of two rows that store one token, one can be revoked while the other stays in use: at once, or by a logout. */
  lemma TwinOutlives(w: World, k: nat, n: nat)
    requires k < n < |w.db.tokens| && w.db.tokens[k].hash == w.db.tokens[n].hash && IsActive(w.db.tokens[n])
    requires var raw := w.db.tokens[n].hash;
      raw.person == w.db.tokens[k].person == w.db.tokens[n].person && Verifies(w.db.minted, raw, w.now)
    ensures !RevocationHolds(w)
  {
    var tokens, raw := w.db.tokens, w.db.tokens[n].hash;
    if !IsActive(tokens[k]) {
      NoStep(w);
      assert !StaysRevoked(Run(w, []).db.tokens);
    } else {
      var e := Event(w.now, LogoutStep(raw));
      var found := FindMatch(tokens, raw.person, true, false, raw);
      assert IsMatch(tokens[n], raw.person, true, false, raw);
      var after := Apply(w, e).db.tokens;
      assert after == tokens[found.value := Revoked(tokens[found.value], w.now, LOGGED_OUT)];
      assert !StaysRevoked(after) by {
        var left := if found.value == n then k else n;
        assert IsActive(after[left]) && !IsActive(after[found.value]);
      }
      NoStep(Apply(w, e));
      FirstStep(w, e, []);
      assert IsRun(w, [e] + []) && !StaysRevoked(Run(w, [e] + []).db.tokens);
    }
  }

  /** After a rotation revoked tokens stay out of use in every later state exactly when the new token is signed in a
      second in which none was signed for the person and organization. */
  lemma RotationIsSafeIff(w: World, e: Event)
    requires Inv(w) && Ticks(w, e) && e.step.RefreshStep?
    requires Refresh(w.db, e.at, e.step.raw, e.step.listed, e.step.signing).1.Rotated?
    ensures SignsAnew(w.db, e.step.raw.person, e.step.raw.org, e.step.signing) <==> RevocationHolds(Apply(w, e))
  {
    var raw, signing := e.step.raw, e.step.signing;
    var signed := Sign(raw.person, raw.org, signing);
    if signed !in w.db.minted {
      StepKeepsInv(w, e);
      SoundMeansRevocationHolds(Apply(w, e));
    } else {
      MintedIsStored(w, signing.at, signed);
      var k :| 0 <= k < |w.db.tokens| && w.db.tokens[k].hash == signed;
      assert RowOk(w.db, w.now, w.db.tokens[k]);
      TwinOutlives(Apply(w, e), k, |w.db.tokens|);
    }
  }

  /** The same of the login of a member. */
  lemma LoginIsSafeIff(w: World, e: Event)
    requires Inv(w) && Ticks(w, e) && e.step.LoginStep? && e.step.isMember
    ensures SignsAnew(w.db, e.step.person, e.step.org, e.step.signing) <==> RevocationHolds(Apply(w, e))
  {
    var signed := Sign(e.step.person, e.step.org, e.step.signing);
    if signed !in w.db.minted {
      StepKeepsInv(w, e);
      SoundMeansRevocationHolds(Apply(w, e));
    } else {
      MintedIsStored(w, e.step.signing.at, signed);
      var k :| 0 <= k < |w.db.tokens| && w.db.tokens[k].hash == signed;
      assert RowOk(w.db, w.now, w.db.tokens[k]);
      TwinOutlives(Apply(w, e), k, |w.db.tokens|);
    }
  }

  /** A refresh hands back the very token it was given exactly when it is signed in the second in which that was signed,
      and then the token can be rotated once more. */
  lemma SameSecondReturnsTheToken(w: World, at: int, raw: Jwt, listed: nat, signing: Signing)
    requires Inv(w) && w.now <= at <= signing.at && Refresh(w.db, at, raw, listed, signing).1.Rotated?
    ensures var (db, result) := Refresh(w.db, at, raw, listed, signing);
      && (result == Rotated(raw) <==> signing.at / SECOND == raw.second)
      && (result == Rotated(raw) && signing.scannable ==>
            forall later, listed', signing' :: later <= at + WEEK && Verifies(db.minted, raw, later)
              ==> Refresh(db, later, raw, listed', signing').1.Rotated?)
  {
    var (db, result) := Refresh(w.db, at, raw, listed, signing);
    var i := FindMatch(w.db.tokens, raw.person, true, true, raw).value;
    if result == Rotated(raw) && signing.scannable {
      var n := |w.db.tokens|;
      assert forall k :: 0 <= k < n && k != i ==> PairOk(w.db.tokens[k], w.db.tokens[i]);
      assert forall k :: 0 <= k < n ==> !IsMatch(db.tokens[k], raw.person, true, true, raw);
      assert RowOk(w.db, w.now, w.db.tokens[i]);
      FirstMatch(db.tokens, n, raw.person, true, true, raw);
    }
  }

  /** It takes a login and a refresh within one second. */
  lemma LoginAndRefreshInOneSecond(at: int, later: int, person: nat, org: nat, family: nat)
    requires at <= later && at / SECOND == later / SECOND
    ensures var w := Apply(Initial(at), Event(at, LoginStep(person, org, true, Signing(at, true), family)));
      var raw := Sign(person, org, Signing(at, true));
      var (db, first) := Refresh(w.db, later, raw, 0, Signing(later, true));
      && Enabled(Initial(at), Event(at, LoginStep(person, org, true, Signing(at, true), family)))
      && first == Rotated(raw) && Refresh(db, later, raw, 0, Signing(later, true)).1 == Rotated(raw)
  {
    var e := Event(at, LoginStep(person, org, true, Signing(at, true), family));
    var w := Apply(Initial(at), e);
    var raw := Sign(person, org, Signing(at, true));
    LoginKeepsInv(Initial(at), e);
    FirstMatch(w.db.tokens, 0, person, true, true, raw);
    SameSecondReturnsTheToken(w, later, raw, 0, Signing(later, true));
  }

  // ---------------------------------------------------------------------------------------------
  // Two sessions
  // ---------------------------------------------------------------------------------------------

  /** Person 7 logs in twice and refreshes each session once, a second apart. */
  const TWO_ROTATED_SESSIONS := [
    Event(0, LoginStep(7, 1, true, Signing(0, true), 100)),
    Event(1000, LoginStep(7, 1, true, Signing(1000, true), 200)),
    Event(2000, RefreshStep(Jwt(7, 1, 0), 0, Signing(2000, true))),
    Event(3000, RefreshStep(Jwt(7, 1, 1), 0, Signing(3000, true)))]

  lemma FirstStep(w: World, e: Event, rest: seq<Event>)
    ensures Run(w, [e] + rest) == Run(Apply(w, e), rest)
    ensures IsRun(w, [e] + rest) <==> Enabled(w, e) && IsRun(Apply(w, e), rest)
  {
    assert ([e] + rest)[1..] == rest;
  }

  lemma NoStep(w: World)
    ensures Run(w, []) == w && IsRun(w, [])
  {
  }

  lemma {:induction false} FirstMatch(tokens: seq<Token>, i: nat, person: nat, active: bool, needsPrefix: bool,
                                      raw: Jwt)
    requires i < |tokens| && IsMatch(tokens[i], person, active, needsPrefix, raw)
    requires forall j :: 0 <= j < i ==> !IsMatch(tokens[j], person, active, needsPrefix, raw)
    ensures FindMatch(tokens, person, active, needsPrefix, raw) == Some(i)
  {
    if i < |tokens| - 1 {
      FirstMatch(tokens[..|tokens| - 1], i, person, active, needsPrefix, raw);
    }
  }

  lemma LoginAdds(w: World, at: int, family: nat)
    ensures var raw := Jwt(7, 1, at / SECOND);
      Apply(w, Event(at, LoginStep(7, 1, true, Signing(at, true), family)))
      == World(at, Db(w.db.tokens + [Token(7, raw, true, at, at, at + WEEK, None, None, family)],
                      w.db.minted + {raw}, w.db.families + {family}), w.rotations)
  {
  }

  lemma RefreshReplaces(w: World, at: int, raw: Jwt, i: nat)
    requires Verifies(w.db.minted, raw, at) && raw.person == 7 && raw.org == 1
    requires FindMatch(w.db.tokens, 7, true, true, raw) == Some(i) && w.db.tokens[i].expiresAt >= at
    ensures var e := Event(at, RefreshStep(raw, 0, Signing(at, true)));
      && Apply(w, e).now == at && Apply(w, e).db == Rotate(w.db, at, i, raw, Signing(at, true))
      && (Enabled(w, e) <==> w.now <= at && Jwt(7, 1, at / SECOND) !in w.db.minted)
  {
  }

  /** Two logins of person 7, each opening a session. */
  function TwoSessions(): World {
    World(1000, Db([Token(7, Jwt(7, 1, 0), true, 0, 0, WEEK, None, None, 100),
                    Token(7, Jwt(7, 1, 1), true, 1000, 1000, 1000 + WEEK, None, None, 200)],
                   {} + {Jwt(7, 1, 0)} + {Jwt(7, 1, 1)}, {} + {100} + {200}), [])
  }

  lemma TwoLogins(rest: seq<Event>)
    ensures var e1, e2 := TWO_ROTATED_SESSIONS[0], TWO_ROTATED_SESSIONS[1];
      && Run(Initial(0), [e1] + ([e2] + rest)) == Run(TwoSessions(), rest)
      && (IsRun(Initial(0), [e1] + ([e2] + rest)) <==> IsRun(TwoSessions(), rest))
  {
    hide Run, IsRun;
    var e1, e2 := TWO_ROTATED_SESSIONS[0], TWO_ROTATED_SESSIONS[1];
    LoginAdds(Initial(0), 0, 100);
    LoginAdds(Apply(Initial(0), e1), 1000, 200);
    assert Apply(Apply(Initial(0), e1), e2) == TwoSessions();
    FirstStep(Initial(0), e1, [e2] + rest);
    FirstStep(Apply(Initial(0), e1), e2, rest);
  }

  lemma TwoRotatedSessions() returns (w: World)
    ensures IsRun(Initial(0), TWO_ROTATED_SESSIONS) && Run(Initial(0), TWO_ROTATED_SESSIONS) == w
    ensures w.now == 3000 && Jwt(7, 1, 0) in w.db.minted && Jwt(7, 1, 4) !in w.db.minted
    ensures w.db.tokens == [Token(7, Jwt(7, 1, 0), true, 0, 0, WEEK, Some(2000), Some(ROTATED), 100),
                            Token(7, Jwt(7, 1, 1), true, 1000, 1000, 1000 + WEEK, Some(3000), Some(ROTATED), 200),
                            Token(7, Jwt(7, 1, 2), true, 0, 2000, 2000 + WEEK, None, None, 100),
                            Token(7, Jwt(7, 1, 3), true, 1000, 3000, 3000 + WEEK, None, None, 200)]
  {
    hide Apply, FindMatch, Run, IsRun;
    var e3, e4 := TWO_ROTATED_SESSIONS[2], TWO_ROTATED_SESSIONS[3];
    assert TWO_ROTATED_SESSIONS == [TWO_ROTATED_SESSIONS[0]] + ([TWO_ROTATED_SESSIONS[1]] + ([e3] + ([e4] + [])));
    var w2 := TwoSessions();
    var a1, b1 := w2.db.tokens[0], w2.db.tokens[1];
    var a2 := Token(7, Jwt(7, 1, 2), true, 0, 2000, 2000 + WEEK, None, None, 100);
    FirstMatch(w2.db.tokens, 0, 7, true, true, Jwt(7, 1, 0));
    RefreshReplaces(w2, 2000, Jwt(7, 1, 0), 0);
    var w3 := Apply(w2, e3);
    assert w3.db.tokens == [Revoked(a1, 2000, ROTATED), b1, a2];
    FirstMatch(w3.db.tokens, 1, 7, true, true, Jwt(7, 1, 1));
    RefreshReplaces(w3, 3000, Jwt(7, 1, 1), 1);
    w := Apply(w3, e4);
    NoStep(w);
    FirstStep(w3, e4, []);
    FirstStep(w2, e3, [e4] + []);
    TwoLogins([e3] + ([e4] + []));
  }

  /** With two open sessions it depends on which revoked row comes first: here the replay of a token of
      the first session ends the second one and leaves the first open. */
  lemma ReuseCanEndTheOtherSession()
    ensures var w := Run(Initial(0), TWO_ROTATED_SESSIONS);
            var (db, result) := Refresh(w.db, 4000, Jwt(7, 1, 0), 1, Signing(4000, true));
            && IsRun(Initial(0), TWO_ROTATED_SESSIONS)
            && result == Reused && HasActive(db.tokens, 100) && !HasActive(db.tokens, 200)
  {
    var w := TwoRotatedSessions();
    var tokens := w.db.tokens;
    hide Run, IsRun, FindMatch;
    FirstMatch(tokens, 0, 7, false, true, Jwt(7, 1, 0));
    assert FindMatch(tokens, 7, true, true, Jwt(7, 1, 0)) == None;
    assert InFamily(tokens[3], 200);
    var after := RevokeFamily(tokens, 200, 4000);
    assert InFamily(after[2], 100);
  }
}
