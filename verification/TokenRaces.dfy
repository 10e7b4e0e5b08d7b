/** Refreshes that read and write in two steps, with anything in between but a cleanup: a refresh matches an active row,
    and later writes it back as rotated and adds the row of the new token; or it recognizes a replay, reads the active
    rows of a family, and later writes them back as revoked. */
module TokenRaces {
  import opened RefreshTokens
  import opened TokenRuns
  import opened Wrappers

  ghost predicate OneActive(tokens: seq<Token>) {
    forall i, j :: 0 <= i < |tokens| && 0 <= j < |tokens| && i != j && tokens[i].family == tokens[j].family ==>
      !IsActive(tokens[i]) || !IsActive(tokens[j])
  }

  /** The second half of a refresh: `row` is row `i` as it was read. */
  function LateRotate(tokens: seq<Token>, now: int, i: nat, row: Token, raw: Jwt, signing: Signing): seq<Token>
    requires i < |tokens|
  {
    tokens[i := Revoked(row, now, ROTATED)]
    + [Token(row.person, Sign(raw.person, raw.org, signing), signing.scannable, row.issuedAt, now, now + WEEK, None,
             None, row.family)]
  }

  /** Written at once, it is the rotation. */
  lemma LateRotateAtOnce(db: Db, now: int, i: nat, raw: Jwt, signing: Signing)
    requires i < |db.tokens|
    ensures LateRotate(db.tokens, now, i, db.tokens[i], raw, signing) == Rotate(db, now, i, raw, signing).tokens
  {
  }

  /** The row as it was read was active, and is otherwise what the row is now. */
  predicate WasActive(row: Token, current: Token) {
    IsActive(row) && current.(revokedAt := row.revokedAt, reason := row.reason) == row
  }

  /** A late rotation leaves at most one active token per family exactly when no other token of the family is active
      at the write, and it leaves revoked rows as they were exactly when nobody revoked the row in between. */
  lemma LateRotationIff(tokens: seq<Token>, now: int, i: nat, row: Token, raw: Jwt, signing: Signing)
    requires OneActive(tokens) && i < |tokens| && WasActive(row, tokens[i])
    ensures var after := LateRotate(tokens, now, i, row, raw, signing);
      && (OneActive(after) <==> forall k :: 0 <= k < |tokens| && k != i ==> !InFamily(tokens[k], row.family))
      && ((forall k :: 0 <= k < |tokens| && !IsActive(tokens[k]) ==> after[k] == tokens[k])
          <==> IsActive(tokens[i]) || tokens[i] == Revoked(row, now, ROTATED))
  {
    var after := LateRotate(tokens, now, i, row, raw, signing);
    assert forall k :: 0 <= k < |tokens| && k != i ==> after[k] == tokens[k];
    assert after[|tokens|].family == row.family && IsActive(after[|tokens|]);
    if k :| 0 <= k < |tokens| && k != i && InFamily(tokens[k], row.family) {
      assert IsActive(after[k]) && after[k].family == after[|tokens|].family;
    }
  }

  /** Two refreshes of one token that both matched its row before either wrote: the first is a rotation like any other,
      and the second leaves two active tokens in the family. */
  lemma TwoRefreshesFork(db: Db, i: nat, raw: Jwt, now: int, signing: Signing, later: int, signing': Signing)
    requires OneActive(db.tokens) && i < |db.tokens| && IsActive(db.tokens[i])
    ensures var first := Rotate(db, now, i, raw, signing).tokens;
      OneActive(first) && !OneActive(LateRotate(first, later, i, db.tokens[i], raw, signing'))
  {
    var tokens, row := db.tokens, db.tokens[i];
    var first := LateRotate(tokens, now, i, row, raw, signing);
    LateRotateAtOnce(db, now, i, raw, signing);
    assert forall k :: 0 <= k < |tokens| && k != i ==> !InFamily(tokens[k], row.family);
    LateRotationIff(tokens, now, i, row, raw, signing);
    assert InFamily(first[|tokens|], row.family);
    LateRotationIff(first, later, i, row, raw, signing');
  }

  /** The second half of the answer to a replay: `ids` are the rows that were read as active, and `rows` what was read
      of them. */
  function LateRevoke(tokens: seq<Token>, now: int, ids: set<nat>, rows: seq<Token>): seq<Token>
    requires |rows| <= |tokens| && forall i :: i in ids ==> i < |rows|
  {
    seq(|tokens|, i requires 0 <= i < |tokens| =>
      if i in ids then Revoked(rows[i], now, ROTATION_ABUSE) else tokens[i])
  }

  /** Written at once, it revokes the family. */
  lemma LateRevokeAtOnce(tokens: seq<Token>, now: int, family: nat)
    ensures LateRevoke(tokens, now, ActiveInFamily(tokens, family), tokens) == RevokeFamily(tokens, family, now)
  {
  }

  /** A late answer to a replay ends the session exactly when every token of the family that is active at the write was
      read, and it leaves revoked rows as they were exactly when nobody revoked what was read in between. */
  lemma LateReuseIff(tokens: seq<Token>, now: int, family: nat, rows: seq<Token>)
    requires |rows| <= |tokens|
    requires forall i :: i in ActiveInFamily(rows, family) ==> WasActive(rows[i], tokens[i])
    ensures var ids := ActiveInFamily(rows, family);
      var after := LateRevoke(tokens, now, ids, rows);
      && (!HasActive(after, family) <==> ActiveInFamily(tokens, family) <= ids)
      && ((forall k :: 0 <= k < |tokens| && !IsActive(tokens[k]) ==> after[k] == tokens[k])
          <==> forall i :: i in ids && !IsActive(tokens[i]) ==> tokens[i] == Revoked(rows[i], now, ROTATION_ABUSE))
  {
    var ids := ActiveInFamily(rows, family);
    var after := LateRevoke(tokens, now, ids, rows);
    if i :| i in ActiveInFamily(tokens, family) && i !in ids {
      assert InFamily(after[i], family);
    }
  }

  /** A rotation between the two halves: the new token stays active, though a replay answered at once, before or after
      the rotation, would have ended the session. */
  lemma RotationEscapesReuse(db: Db, family: nat, i: nat, raw: Jwt, at: int, signing: Signing, later: int)
    requires i < |db.tokens| && InFamily(db.tokens[i], family)
    ensures var rotated := Rotate(db, at, i, raw, signing).tokens;
      && HasActive(LateRevoke(rotated, later, ActiveInFamily(db.tokens, family), db.tokens), family)
      && !HasActive(RevokeFamily(db.tokens, family, later), family)
      && !HasActive(RevokeFamily(rotated, family, later), family)
  {
    var rotated := Rotate(db, at, i, raw, signing).tokens;
    assert InFamily(rotated[|db.tokens|], family);
    var after := LateRevoke(rotated, later, ActiveInFamily(db.tokens, family), db.tokens);
    assert InFamily(after[|db.tokens|], family);
  }
}
