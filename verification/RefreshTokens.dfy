/** Sessions: issuing refresh tokens, rotating them, detecting reuse, logging out and cleaning up.

    A signed token says for whom and in which second it was signed and nothing else, so two signings for one
    person and organization in one second yield one token. Comparing a raw token with a stored hash is comparing
    tokens. Instants are milliseconds.
 */
module RefreshTokens {
  import opened Wrappers

  const SECOND := 1_000
  const WEEK_SECONDS := 604_800
  const WEEK := 604_800_000
  const RETENTION := 2_592_000_000

  datatype Reason = ROTATED | LOGGED_OUT | ROTATION_ABUSE | FORCE_REVOKE

  /** A row of the token table. `scannable` tells whether the hash starts with $2b$; refreshing skips
      rows whose hash does not. */
  datatype Token = Token(person: nat, hash: Jwt, scannable: bool, issuedAt: int, lastUsedAt: int,
                         expiresAt: int, revokedAt: Option<int>, reason: Option<Reason>, family: nat)

  /** A signed refresh token; `second` is the whole second of its signing. */
  datatype Jwt = Jwt(person: nat, org: nat, second: int)

  /** `minted` remembers every refresh token ever signed and `families` every family id ever drawn. */
  datatype Db = Db(tokens: seq<Token>, minted: set<Jwt>, families: set<nat>)

  /** A signing: the clock reading, and whether the hash of the token will be scannable. */
  datatype Signing = Signing(at: int, scannable: bool)

  function Sign(person: nat, org: nat, signing: Signing): Jwt {
    Jwt(person, org, signing.at / SECOND)
  }

  datatype RefreshResult = Rotated(raw: Jwt) | BadJwt | Reused | NoMatch | Expired

  /** Signature times and expiry are whole seconds. */
  predicate Verifies(minted: set<Jwt>, raw: Jwt, now: int) {
    raw in minted && now / SECOND < raw.second + WEEK_SECONDS
  }

  // ---------------------------------------------------------------------------------------------
  // Queries
  // ---------------------------------------------------------------------------------------------

  predicate IsActive(token: Token) {
    token.revokedAt.None?
  }

  predicate InFamily(token: Token, family: nat) {
    token.family == family && IsActive(token)
  }

  predicate OfPerson(token: Token, person: nat) {
    token.person == person && IsActive(token)
  }

  predicate HasActive(tokens: seq<Token>, family: nat) {
    exists i :: 0 <= i < |tokens| && InFamily(tokens[i], family)
  }

  function ActiveInFamily(tokens: seq<Token>, family: nat): (ids: set<nat>)
    ensures forall i :: i in ids <==> 0 <= i < |tokens| && InFamily(tokens[i], family)
  {
    set i: nat | i < |tokens| && InFamily(tokens[i], family)
  }

  lemma ActiveMeansNonempty(tokens: seq<Token>, family: nat)
    ensures HasActive(tokens, family) <==> ActiveInFamily(tokens, family) != {}
  {
    if HasActive(tokens, family) {
      var i :| 0 <= i < |tokens| && InFamily(tokens[i], family);
      assert i in ActiveInFamily(tokens, family);
    } else {
      assert forall i :: i !in ActiveInFamily(tokens, family);
    }
  }

  /** The first row of the person, active or revoked as asked, that a scan matches with `raw`. */
  function FindMatch(tokens: seq<Token>, person: nat, active: bool, needsPrefix: bool, raw: Jwt): (found: Option<nat>)
    ensures found.Some? ==>
              found.value < |tokens| && IsMatch(tokens[found.value], person, active, needsPrefix, raw)
    ensures found.None? ==>
              forall i :: 0 <= i < |tokens| ==> !IsMatch(tokens[i], person, active, needsPrefix, raw)
  {
    if tokens == [] then None
    else
      var earlier := FindMatch(tokens[..|tokens| - 1], person, active, needsPrefix, raw);
      if earlier.Some? then earlier
      else if IsMatch(tokens[|tokens| - 1], person, active, needsPrefix, raw) then Some(|tokens| - 1)
      else None
  }

  predicate IsMatch(token: Token, person: nat, active: bool, needsPrefix: bool, raw: Jwt) {
    token.person == person && IsActive(token) == active && (needsPrefix ==> token.scannable) && token.hash == raw
  }

  // ---------------------------------------------------------------------------------------------
  // Operations on the tables
  // ---------------------------------------------------------------------------------------------

  function Revoked(token: Token, now: int, reason: Reason): Token {
    token.(revokedAt := Some(now), reason := Some(reason))
  }

  function RevokeFamily(tokens: seq<Token>, family: nat, now: int): (revoked: seq<Token>)
    ensures |revoked| == |tokens|
    ensures forall i :: 0 <= i < |tokens| ==>
              revoked[i] == if InFamily(tokens[i], family) then Revoked(tokens[i], now, ROTATION_ABUSE) else tokens[i]
  {
    seq(|tokens|, i requires 0 <= i < |tokens| =>
      if InFamily(tokens[i], family) then Revoked(tokens[i], now, ROTATION_ABUSE) else tokens[i])
  }

  function RevokePerson(tokens: seq<Token>, person: nat, now: int): (revoked: seq<Token>)
    ensures |revoked| == |tokens|
    ensures forall i :: 0 <= i < |tokens| ==>
              revoked[i] == if OfPerson(tokens[i], person) then Revoked(tokens[i], now, ROTATION_ABUSE) else tokens[i]
  {
    seq(|tokens|, i requires 0 <= i < |tokens| =>
      if OfPerson(tokens[i], person) then Revoked(tokens[i], now, ROTATION_ABUSE) else tokens[i])
  }

  function IssueSession(db: Db, now: int, person: nat, org: nat, isMember: bool, signing: Signing, family: nat): Db {
    if !isMember then db
    else
      var raw := Sign(person, org, signing);
      var token := Token(person, raw, signing.scannable, now, now, now + WEEK, None, None, family);
      Db(db.tokens + [token], db.minted + {raw}, db.families + {family})
  }

  /** The revoked row that the database happens to list first among those of the person, if `listed`
      is one; the matched row stands in otherwise. */
  function FirstListed(tokens: seq<Token>, person: nat, listed: nat, matched: nat): (first: nat)
    requires matched < |tokens|
    ensures first < |tokens|
  {
    if listed < |tokens| && tokens[listed].person == person && !IsActive(tokens[listed]) then listed else matched
  }

  /** Reuse revokes the active tokens in the family of the first listed revoked row, or, if that family
      has none, all active tokens of the person. */
  function RevokeOnReuse(tokens: seq<Token>, person: nat, family: nat, now: int): seq<Token> {
    if HasActive(tokens, family) then RevokeFamily(tokens, family, now) else RevokePerson(tokens, person, now)
  }

  function Rotate(db: Db, now: int, i: nat, raw: Jwt, signing: Signing): Db
    requires i < |db.tokens|
  {
    var old_ := db.tokens[i];
    var signed := Sign(raw.person, raw.org, signing);
    var next := Token(old_.person, signed, signing.scannable, old_.issuedAt, now, now + WEEK, None, None,
                      old_.family);
    db.(tokens := db.tokens[i := Revoked(old_, now, ROTATED)] + [next],
        minted := db.minted + {signed})
  }

  function Refresh(db: Db, now: int, raw: Jwt, listed: nat, signing: Signing): (Db, RefreshResult) {
    if !Verifies(db.minted, raw, now) then (db, BadJwt)
    else
      match FindMatch(db.tokens, raw.person, true, true, raw)
      case Some(i) =>
        if db.tokens[i].expiresAt < now then
          (db.(tokens := db.tokens[i := Revoked(db.tokens[i], now, FORCE_REVOKE)]), Expired)
        else (Rotate(db, now, i, raw, signing), Rotated(Sign(raw.person, raw.org, signing)))
      case None =>
        match FindMatch(db.tokens, raw.person, false, true, raw)
        case Some(m) =>
          var family := db.tokens[FirstListed(db.tokens, raw.person, listed, m)].family;
          (db.(tokens := RevokeOnReuse(db.tokens, raw.person, family, now)), Reused)
        case None => (db, NoMatch)
  }

  function Logout(db: Db, now: int, raw: Jwt): Db {
    if !Verifies(db.minted, raw, now) then db
    else match FindMatch(db.tokens, raw.person, true, false, raw)
      case None => db
      case Some(i) => db.(tokens := db.tokens[i := Revoked(db.tokens[i], now, LOGGED_OUT)])
  }

  predicate IsStale(token: Token, cutoff: int) {
    token.revokedAt.Some? && token.revokedAt.value < cutoff
  }

  function Without(tokens: seq<Token>, cutoff: int): (kept: seq<Token>)
    ensures forall token :: token in kept <==> token in tokens && !IsStale(token, cutoff)
  {
    if tokens == [] then []
    else
      var last := tokens[|tokens| - 1];
      Without(tokens[..|tokens| - 1], cutoff) + if IsStale(last, cutoff) then [] else [last]
  }

  lemma WithoutNothing(cutoff: int)
    ensures Without([], cutoff) == []
  {
  }

  lemma WithoutOneMore(tokens: seq<Token>, i: nat, cutoff: int)
    requires i < |tokens|
    ensures Without(tokens[..i + 1], cutoff)
         == Without(tokens[..i], cutoff) + if IsStale(tokens[i], cutoff) then [] else [tokens[i]]
  {
    assert tokens[..i + 1][..i] == tokens[..i];
  }

  function Cleanup(db: Db, now: int): Db {
    db.(tokens := Without(db.tokens, now - RETENTION))
  }

  // ---------------------------------------------------------------------------------------------
  // The service
  // ---------------------------------------------------------------------------------------------

  class AuthService {
    var tokens: seq<Token>
    var minted: set<Jwt>
    var families: set<nat>

    function Tables(): Db
      reads this
    {
      Db(tokens, minted, families)
    }

    constructor ()
      ensures Tables() == Db([], {}, {})
    {
      tokens, minted, families := [], {}, {};
    }

    method Login(now: int, person: nat, org: nat, isMember: bool, signing: Signing, family: nat) returns (ok: bool)
      modifies this
      ensures ok == isMember
      ensures Tables() == IssueSession(old(Tables()), now, person, org, isMember, signing, family)
    {
      if !isMember {
        return false;
      }
      var raw := Sign(person, org, signing);
      minted := minted + {raw};
      families := families + {family};
      tokens := tokens + [Token(person, raw, signing.scannable, now, now, now + WEEK, None, None, family)];
      return true;
    }

    /** Scans the candidates in table order and stops at the first match. */
    method Scan(person: nat, active: bool, needsPrefix: bool, raw: Jwt) returns (found: Option<nat>)
      ensures found == FindMatch(tokens, person, active, needsPrefix, raw)
    {
      for i := 0 to |tokens|
        invariant FindMatch(tokens[..i], person, active, needsPrefix, raw) == None
      {
        assert tokens[..i + 1][..i] == tokens[..i];
        var candidate := tokens[i];
        if candidate.person == person && candidate.revokedAt.None? == active &&
           (candidate.scannable || !needsPrefix) && candidate.hash == raw {
          FindMatchStable(tokens, i + 1, person, active, needsPrefix, raw);
          return Some(i);
        }
      }
      assert tokens[..|tokens|] == tokens;
      return None;
    }

    method RevokeAll(ids: set<nat>, now: int)
      requires forall i :: i in ids ==> i < |tokens|
      modifies this`tokens
      ensures |tokens| == |old(tokens)|
      ensures forall i :: 0 <= i < |tokens| ==>
                tokens[i] == if i in ids then Revoked(old(tokens)[i], now, ROTATION_ABUSE) else old(tokens)[i]
    {
      var left := ids;
      while left != {}
        invariant left <= ids
        invariant |tokens| == |old(tokens)|
        invariant forall i :: 0 <= i < |tokens| ==>
                    tokens[i]
                    == if i in ids - left then Revoked(old(tokens)[i], now, ROTATION_ABUSE) else old(tokens)[i]
        decreases left
      {
        var i :| i in left;
        tokens := tokens[i := tokens[i].(revokedAt := Some(now), reason := Some(ROTATION_ABUSE))];
        left := left - {i};
      }
    }

    method RefreshToken(now: int, raw: Jwt, listed: nat, signing: Signing) returns (result: RefreshResult)
      modifies this`tokens, this`minted
      ensures (Tables(), result) == Refresh(old(Tables()), now, raw, listed, signing)
    {
      if !Verifies(minted, raw, now) {
        return BadJwt;
      }
      var active := Scan(raw.person, true, true, raw);
      if active.None? {
        var revoked := Scan(raw.person, false, true, raw);
        if revoked.None? {
          return NoMatch;
        }
        var first := FirstListed(tokens, raw.person, listed, revoked.value);
        var family := tokens[first].family;
        var toRevoke := ActiveInFamily(tokens, family);
        if toRevoke == {} {
          toRevoke := set i | 0 <= i < |tokens| && OfPerson(tokens[i], raw.person);
        }
        ActiveMeansNonempty(tokens, family);
        RevokeAll(toRevoke, now);
        assert tokens == RevokeOnReuse(old(tokens), raw.person, family, now);
        return Reused;
      }
      var matched := tokens[active.value];
      if matched.expiresAt < now {
        matched := matched.(revokedAt := Some(now));
        matched := matched.(reason := Some(FORCE_REVOKE));
        tokens := tokens[active.value := matched];
        return Expired;
      }
      matched := matched.(revokedAt := Some(now));
      matched := matched.(reason := Some(ROTATED));
      tokens := tokens[active.value := matched];
      var signed := Sign(raw.person, raw.org, signing);
      minted := minted + {signed};
      tokens := tokens + [Token(matched.person, signed, signing.scannable, matched.issuedAt, now, now + WEEK,
                                None, None, matched.family)];
      return Rotated(signed);
    }

    method LogoutToken(now: int, raw: Jwt)
      modifies this`tokens
      ensures Tables() == Logout(old(Tables()), now, raw)
    {
      if !Verifies(minted, raw, now) {
        return;
      }
      var found := Scan(raw.person, true, false, raw);
      if found.Some? {
        var candidate := tokens[found.value];
        candidate := candidate.(revokedAt := Some(now));
        candidate := candidate.(reason := Some(LOGGED_OUT));
        tokens := tokens[found.value := candidate];
      }
    }

    method CleanupRevokedTokens(now: int)
      modifies this`tokens
      ensures Tables() == Cleanup(old(Tables()), now)
    {
      hide Without;
      var cutoff := now - RETENTION;
      var kept: seq<Token> := [];
      WithoutNothing(cutoff);
      for i := 0 to |tokens|
        invariant tokens == old(tokens) && kept == Without(tokens[..i], cutoff)
      {
        WithoutOneMore(tokens, i, cutoff);
        if tokens[i].revokedAt.None? || tokens[i].revokedAt.value >= cutoff {
          kept := kept + [tokens[i]];
        }
      }
      assert tokens[..|tokens|] == tokens;
      tokens := kept;
    }
  }

  /** A match found in a prefix is the match of the whole. */
  lemma {:induction false} FindMatchStable(tokens: seq<Token>, n: nat, person: nat, active: bool, needsPrefix: bool,
                                           raw: Jwt)
    requires n <= |tokens| && FindMatch(tokens[..n], person, active, needsPrefix, raw).Some?
    ensures FindMatch(tokens, person, active, needsPrefix, raw)
         == FindMatch(tokens[..n], person, active, needsPrefix, raw)
  {
    if n == |tokens| {
      assert tokens[..n] == tokens;
    } else {
      assert tokens[..|tokens| - 1][..n] == tokens[..n];
      FindMatchStable(tokens[..|tokens| - 1], n, person, active, needsPrefix, raw);
    }
  }
}
