/** How long a session can be refreshed, how long revoked rows are kept, and what every row of the token table tells of
    the requests that wrote it. */
module TokenStory {
  import opened RefreshTokens
  import opened TokenRuns
  import opened Wrappers

  // ---------------------------------------------------------------------------------------------
  // How long a token can be refreshed
  // ---------------------------------------------------------------------------------------------

  lemma OnlyMatch(w: World, i: nat, needsPrefix: bool)
    requires Inv(w) && i < |w.db.tokens| && IsActive(w.db.tokens[i])
    requires needsPrefix ==> w.db.tokens[i].scannable
    ensures var token := w.db.tokens[i];
      token.hash in w.db.minted && token.hash.person == token.person
      && FindMatch(w.db.tokens, token.person, true, needsPrefix, token.hash) == Some(i)
  {
    var token := w.db.tokens[i];
    assert RowOk(w.db, w.now, token);
    assert IsMatch(token, token.person, true, needsPrefix, token.hash);
    var found := FindMatch(w.db.tokens, token.person, true, needsPrefix, token.hash);
    assert found.value != i ==> PairOk(w.db.tokens[found.value], token);
  }

  /** A token in use is rotated up to seven days after the second of its signing, unless its row has expired seven days
      after it was last used; later it does not verify. */
  lemma RefreshableForAWeek(w: World, i: nat, at: int, listed: nat, signing: Signing)
    requires Inv(w) && w.now <= at && i < |w.db.tokens| && IsActive(w.db.tokens[i]) && w.db.tokens[i].scannable
    ensures var token := w.db.tokens[i];
      var result := Refresh(w.db, at, token.hash, listed, signing).1;
      && (result.BadJwt? <==> at / 1000 >= token.hash.second + 7 * 24 * 60 * 60)
      && (result.Expired? <==> at / 1000 < token.hash.second + 7 * 24 * 60 * 60
                               && at > token.lastUsedAt + 7 * 24 * 60 * 60 * 1000)
      && (result.Rotated? <==> at / 1000 < token.hash.second + 7 * 24 * 60 * 60
                               && at <= token.lastUsedAt + 7 * 24 * 60 * 60 * 1000)
  {
    OnlyMatch(w, i, true);
    assert RowOk(w.db, w.now, w.db.tokens[i]);
  }

  /** The event neither presents the token nor replays another one of the person. */
  predicate Spares(w: World, e: Event, raw: Jwt) {
    match e.step
    case RefreshStep(other, listed, signing) =>
      && other != raw
      && (other.person == raw.person ==> Refresh(w.db, e.at, other, listed, signing).1 != Reused)
    case LogoutStep(other) => other != raw
    case _ => true
  }

  ghost predicate AllSpare(w: World, events: seq<Event>, raw: Jwt)
    decreases |events|
  {
    events != [] ==> Spares(w, events[0], raw) && AllSpare(Apply(w, events[0]), events[1..], raw)
  }

  predicate IsRow(tokens: seq<Token>, i: nat, token: Token) {
    i < |tokens| && tokens[i] == token
  }

  lemma SparedByRefresh(w: World, e: Event, i: nat)
    requires Inv(w) && e.step.RefreshStep? && i < |w.db.tokens| && IsActive(w.db.tokens[i])
    requires Spares(w, e, w.db.tokens[i].hash)
    ensures IsRow(Apply(w, e).db.tokens, i, w.db.tokens[i])
  {
    var token := w.db.tokens[i];
    assert RowOk(w.db, w.now, token);
    var raw := e.step.raw;
    var found := FindMatch(w.db.tokens, raw.person, true, true, raw);
    assert found.Some? ==> found.value != i;
    if Refresh(w.db, e.at, raw, e.step.listed, e.step.signing).1 == Reused {
      var m := FindMatch(w.db.tokens, raw.person, false, true, raw).value;
      ReuseSparesOthers(w, e, m, i);
    }
  }

  lemma FamilyIsOfPerson(w: World, i: nat, j: nat)
    requires Inv(w) && i < |w.db.tokens| && j < |w.db.tokens| && w.db.tokens[i].family == w.db.tokens[j].family
    ensures w.db.tokens[i].person == w.db.tokens[j].person
  {
    assert i != j ==> PairOk(w.db.tokens[i], w.db.tokens[j]);
  }

  lemma ReuseSparesOthers(w: World, e: Event, m: nat, i: nat)
    requires Inv(w) && e.step.RefreshStep? && i < |w.db.tokens| && m < |w.db.tokens|
    requires w.db.tokens[m].person == e.step.raw.person != w.db.tokens[i].person
    ensures var first := FirstListed(w.db.tokens, e.step.raw.person, e.step.listed, m);
      RevokeOnReuse(w.db.tokens, e.step.raw.person, w.db.tokens[first].family, e.at)[i] == w.db.tokens[i]
  {
    var first := FirstListed(w.db.tokens, e.step.raw.person, e.step.listed, m);
    hide Inv;
    if w.db.tokens[i].family == w.db.tokens[first].family {
      FamilyIsOfPerson(w, i, first);
    }
  }

  lemma {:induction false} WithoutKeepsActive(tokens: seq<Token>, cutoff: int, token: Token)
    requires token in tokens && IsActive(token)
    ensures token in Without(tokens, cutoff)
  {
  }

  lemma SparedStays(w: World, e: Event, token: Token)
    requires Inv(w) && token in w.db.tokens && IsActive(token) && Spares(w, e, token.hash)
    ensures token in Apply(w, e).db.tokens
  {
    var i :| 0 <= i < |w.db.tokens| && w.db.tokens[i] == token;
    assert RowOk(w.db, w.now, token);
    match e.step {
      case LoginStep(_, _, _, _, _) => assert IsRow(Apply(w, e).db.tokens, i, token);
      case RefreshStep(_, _, _) =>
        SparedByRefresh(w, e, i);
      case LogoutStep(raw) =>
        var found := FindMatch(w.db.tokens, raw.person, true, false, raw);
        assert found.Some? ==> found.value != i;
        assert IsRow(Apply(w, e).db.tokens, i, token);
      case CleanupStep => WithoutKeepsActive(w.db.tokens, e.at - RETENTION, token);
    }
  }

  lemma {:induction false} SparedSurvives(w: World, events: seq<Event>, token: Token)
    requires Inv(w) && IsRun(w, events) && token in w.db.tokens && IsActive(token) && AllSpare(w, events, token.hash)
    ensures Inv(Run(w, events)) && token in Run(w, events).db.tokens
    decreases |events|
  {
    hide Inv, Enabled, Apply, Spares;
    if events != [] {
      SparedStays(w, events[0], token);
      StepKeepsInv(w, events[0]);
      SparedSurvives(Apply(w, events[0]), events[1..], token);
    }
  }

  /** Some events that spare the session, and then a refresh of its token. */
  datatype Round = Round(others: seq<Event>, at: int, listed: nat, signing: Signing)

  function Present(raw: Jwt, round: Round): Event {
    Event(round.at, RefreshStep(raw, round.listed, round.signing))
  }

  function Renewed(raw: Jwt, signing: Signing): Jwt {
    Jwt(raw.person, raw.org, signing.at / 1000)
  }

  /** Each refresh comes at most seven days less a second after the one before. */
  ghost predicate Regular(w: World, raw: Jwt, usedAt: int, rounds: seq<Round>)
    decreases |rounds|
  {
    rounds != [] ==>
      var round := rounds[0];
      var before := Run(w, round.others);
      && IsRun(w, round.others) && AllSpare(w, round.others, raw)
      && Enabled(before, Present(raw, round)) && round.signing.scannable
      && round.at - usedAt <= (7 * 24 * 60 * 60 - 1) * 1000
      && Regular(Apply(before, Present(raw, round)), Renewed(raw, round.signing), round.at, rounds[1..])
  }

  ghost predicate AllRotate(w: World, raw: Jwt, rounds: seq<Round>)
    decreases |rounds|
  {
    rounds != [] ==>
      var round := rounds[0];
      var before := Run(w, round.others);
      && Refresh(before.db, round.at, raw, round.listed, round.signing).1 == Rotated(Renewed(raw, round.signing))
      && AllRotate(Apply(before, Present(raw, round)), Renewed(raw, round.signing), rounds[1..])
  }

  lemma NextToken(w: World, raw: Jwt, round: Round, token: Token)
    requires Inv(w) && token in w.db.tokens && IsActive(token) && token.scannable && token.hash == raw
    requires token.lastUsedAt / 1000 <= raw.second && w.now <= round.at
    requires round.at - token.lastUsedAt <= (7 * 24 * 60 * 60 - 1) * 1000
    ensures Refresh(w.db, round.at, raw, round.listed, round.signing).1 == Rotated(Renewed(raw, round.signing))
    ensures var tokens := Apply(w, Present(raw, round)).db.tokens;
      && tokens != []
      && var next := tokens[|tokens| - 1];
         IsActive(next) && next.scannable == round.signing.scannable && next.hash == Renewed(raw, round.signing)
         && next.lastUsedAt == round.at
  {
    var i :| 0 <= i < |w.db.tokens| && w.db.tokens[i] == token;
    RefreshableForAWeek(w, i, round.at, round.listed, round.signing);
  }

  /** A session whose tokens are presented in time, without a logout or a replay in between, is rotated every time. */
  lemma {:induction false} SessionLasts(w: World, token: Token, rounds: seq<Round>)
    requires Inv(w) && token in w.db.tokens && IsActive(token) && token.scannable
    requires token.lastUsedAt / 1000 <= token.hash.second
    requires Regular(w, token.hash, token.lastUsedAt, rounds)
    ensures AllRotate(w, token.hash, rounds)
    decreases |rounds|
  {
    if rounds != [] {
      hide Inv, Enabled, Apply, Run, IsRun, AllSpare, Refresh;
      var round, raw := rounds[0], token.hash;
      var before := Run(w, round.others);
      SparedSurvives(w, round.others, token);
      PresentIsTimely(before, raw, round);
      NextToken(before, raw, round, token);
      var after := Apply(before, Present(raw, round));
      StepKeepsInv(before, Present(raw, round));
      SessionLasts(after, after.db.tokens[|after.db.tokens| - 1], rounds[1..]);
    }
  }

  lemma PresentIsTimely(w: World, raw: Jwt, round: Round)
    requires Enabled(w, Present(raw, round))
    ensures w.now <= round.at <= round.signing.at
  {
  }

  /** In particular from the login on. */
  lemma LoginLasts(w: World, e: Event, rounds: seq<Round>)
    requires Inv(w) && Enabled(w, e) && e.step.LoginStep? && e.step.isMember && e.step.signing.scannable
    requires var raw := Jwt(e.step.person, e.step.org, e.step.signing.at / 1000);
      Regular(Apply(w, e), raw, e.at, rounds)
    ensures AllRotate(Apply(w, e), Jwt(e.step.person, e.step.org, e.step.signing.at / 1000), rounds)
  {
    StepKeepsInv(w, e);
    var tokens := Apply(w, e).db.tokens;
    hide Inv, Regular, AllRotate;
    SessionLasts(Apply(w, e), tokens[|tokens| - 1], rounds);
  }

  // ---------------------------------------------------------------------------------------------
  // Logout, reuse and cleanup
  // ---------------------------------------------------------------------------------------------

  /** Presenting a token in use to a logout revokes its row and no other, scannable or not. */
  lemma LogoutEndsIt(w: World, i: nat, at: int)
    requires Inv(w) && i < |w.db.tokens| && IsActive(w.db.tokens[i])
    requires at / 1000 < w.db.tokens[i].hash.second + 7 * 24 * 60 * 60
    ensures var token := w.db.tokens[i];
      Logout(w.db, at, token.hash).tokens
      == w.db.tokens[i := token.(revokedAt := Some(at), reason := Some(LOGGED_OUT))]
  {
    OnlyMatch(w, i, false);
  }

  /** What reuse leaves active: the tokens of other persons, and, if the family of the first listed row had a token in
      use, those of other families. What it revokes is marked as abuse. */
  lemma ReuseLeaves(w: World, at: int, raw: Jwt, listed: nat, signing: Signing)
    requires Inv(w) && Refresh(w.db, at, raw, listed, signing).1 == Reused
    ensures var m := FindMatch(w.db.tokens, raw.person, false, true, raw).value;
      var first := w.db.tokens[FirstListed(w.db.tokens, raw.person, listed, m)].family;
      var after := Refresh(w.db, at, raw, listed, signing).0.tokens;
      && |after| == |w.db.tokens|
      && forall i :: 0 <= i < |after| ==>
           var before := w.db.tokens[i];
           var spared := before.person != raw.person || (HasActive(w.db.tokens, first) && before.family != first);
           after[i] == if IsActive(before) && !spared
                       then before.(revokedAt := Some(at), reason := Some(ROTATION_ABUSE)) else before
  {
    var tokens := w.db.tokens;
    var m := FindMatch(tokens, raw.person, false, true, raw).value;
    var listedFirst := FirstListed(tokens, raw.person, listed, m);
    hide Inv, FindMatch;
    forall i | 0 <= i < |tokens| && tokens[i].family == tokens[listedFirst].family
      ensures tokens[i].person == raw.person
    {
      FamilyIsOfPerson(w, i, listedFirst);
    }
  }

  const MONTH := 30 * 24 * 60 * 60 * 1000

  lemma RevokedStaysAWhile(w: World, e: Event, token: Token)
    requires Inv(w) && Enabled(w, e) && token in w.db.tokens && token.revokedAt.Some?
    requires e.at <= token.revokedAt.value + MONTH
    ensures token in Apply(w, e).db.tokens
  {
    var i :| 0 <= i < |w.db.tokens| && w.db.tokens[i] == token;
    match e.step {
      case LoginStep(_, _, _, _, _) => assert IsRow(Apply(w, e).db.tokens, i, token);
      case RefreshStep(_, _, _) =>
        RefreshKeepsRevoked(w, e);
        RefreshKeepsRows(w, e, i);
      case LogoutStep(raw) => assert IsRow(Apply(w, e).db.tokens, i, token);
      case CleanupStep =>
        assert token in Without(w.db.tokens, e.at - RETENTION);
    }
  }

  lemma RefreshKeepsRows(w: World, e: Event, i: nat)
    requires e.step.RefreshStep? && i < |w.db.tokens| && !IsActive(w.db.tokens[i])
    ensures IsRow(Apply(w, e).db.tokens, i, w.db.tokens[i])
  {
  }

  lemma TimeGoesOn(w: World, e: Event)
    requires Enabled(w, e)
    ensures e.at <= Apply(w, e).now
  {
  }

  /** A revoked row is there for thirty days, whatever happens, so that a replay can be recognized. */
  lemma {:induction false} RevokedIsKeptAMonth(w: World, events: seq<Event>, token: Token)
    requires Inv(w) && IsRun(w, events) && token in w.db.tokens && token.revokedAt.Some?
    requires Run(w, events).now <= token.revokedAt.value + MONTH
    ensures token in Run(w, events).db.tokens
    decreases |events|
  {
    hide Inv, Enabled, Apply;
    if events != [] {
      var next := Apply(w, events[0]);
      TimeGoesOn(w, events[0]);
      StepKeepsInv(w, events[0]);
      RunGoesOn(next, events[1..]);
      RevokedStaysAWhile(w, events[0], token);
      RevokedIsKeptAMonth(next, events[1..], token);
    }
  }

  lemma {:induction false} RunGoesOn(w: World, events: seq<Event>)
    requires IsRun(w, events)
    ensures w.now <= Run(w, events).now
    decreases |events|
  {
    if events != [] {
      TimeGoesOn(w, events[0]);
      RunGoesOn(Apply(w, events[0]), events[1..]);
    }
  }

  /** And no cleanup leaves a row that was revoked earlier than that. */
  lemma CleanupGoesBackAMonth(db: Db, at: int)
    ensures forall token :: token in Cleanup(db, at).tokens <==>
              token in db.tokens && (token.revokedAt.Some? ==> at - token.revokedAt.value <= MONTH)
  {
  }

  // ---------------------------------------------------------------------------------------------
  // What a row tells
  // ---------------------------------------------------------------------------------------------

  /** The event is a member's login that opened a session with this row. */
  predicate OpenedByLogin(e: Event, row: Token) {
    && e.step.LoginStep? && e.step.isMember
    && row == Token(e.step.person, Jwt(e.step.person, e.step.org, e.step.signing.at / 1000), e.step.signing.scannable,
                    e.at, e.at, e.at + 7 * 24 * 60 * 60 * 1000, None, None, e.step.family)
  }

  /** The event is a refresh that renewed an active row of the same session with this one. */
  ghost predicate OpenedByRefresh(w: World, e: Event, row: Token) {
    && e.step.RefreshStep?
    && exists old_ :: old_ in w.db.tokens && IsActive(old_) && old_.hash == e.step.raw
         && row == Token(old_.person, Renewed(e.step.raw, e.step.signing), e.step.signing.scannable, old_.issuedAt,
                         e.at, e.at + 7 * 24 * 60 * 60 * 1000, None, None, old_.family)
  }

  /** The event ended the use of a row for the reason that the row gives. */
  predicate ClosedBy(w: World, e: Event, row: Token) {
    row.revokedAt == Some(e.at) &&
    match row.reason
    case None => false
    case Some(LOGGED_OUT) => e.step == LogoutStep(row.hash)
    case Some(ROTATED) => e.step.RefreshStep? && e.step.raw == row.hash && ResultOf(w, e).Rotated?
    case Some(FORCE_REVOKE) => e.step.RefreshStep? && e.step.raw == row.hash && ResultOf(w, e).Expired?
    case Some(ROTATION_ABUSE) => e.step.RefreshStep? && e.step.raw.person == row.person && ResultOf(w, e).Reused?
  }

  function ResultOf(w: World, e: Event): RefreshResult
    requires e.step.RefreshStep?
  {
    Refresh(w.db, e.at, e.step.raw, e.step.listed, e.step.signing).1
  }

  function AsOpened(row: Token): Token {
    row.(revokedAt := None, reason := None)
  }

  /** A step leaves a row, opens it, or closes one that was active. */
  ghost predicate Told(w: World, e: Event, row: Token) {
    || row in w.db.tokens
    || OpenedByLogin(e, row) || OpenedByRefresh(w, e, row)
    || (AsOpened(row) in w.db.tokens && ClosedBy(w, e, row))
  }

  lemma ReuseTells(w: World, e: Event, i: nat)
    requires Inv(w) && e.step.RefreshStep? && ResultOf(w, e) == Reused && i < |Apply(w, e).db.tokens|
    ensures Told(w, e, Apply(w, e).db.tokens[i])
  {
    ReuseLeaves(w, e.at, e.step.raw, e.step.listed, e.step.signing);
    hide Inv;
    if Apply(w, e).db.tokens[i] != w.db.tokens[i] {
      MatchIsActive(w, i);
    }
  }

  lemma RotationTells(w: World, e: Event, i: nat)
    requires Inv(w) && e.step.RefreshStep? && ResultOf(w, e).Rotated? && i < |Apply(w, e).db.tokens|
    ensures Told(w, e, Apply(w, e).db.tokens[i])
  {
    hide Inv, Verifies;
    var raw, tokens, row := e.step.raw, w.db.tokens, Apply(w, e).db.tokens[i];
    var m := FindMatch(tokens, raw.person, true, true, raw).value;
    if i == |tokens| {
      assert tokens[m] in tokens;
    } else if i == m {
      MatchIsActive(w, m);
      assert AsOpened(row) == AsOpened(tokens[m]);
    }
  }

  lemma ExpiryTells(w: World, e: Event, i: nat)
    requires Inv(w) && e.step.RefreshStep? && ResultOf(w, e).Expired? && i < |Apply(w, e).db.tokens|
    ensures Told(w, e, Apply(w, e).db.tokens[i])
  {
    hide Inv, Verifies;
    var raw, row := e.step.raw, Apply(w, e).db.tokens[i];
    var m := FindMatch(w.db.tokens, raw.person, true, true, raw).value;
    if i == m {
      MatchIsActive(w, m);
      assert AsOpened(row) == AsOpened(w.db.tokens[m]);
    }
  }

  lemma RefreshTells(w: World, e: Event, row: Token)
    requires Inv(w) && e.step.RefreshStep? && row in Apply(w, e).db.tokens
    ensures Told(w, e, row)
  {
    hide Inv, ClosedBy, OpenedByRefresh, RevokeOnReuse, Verifies;
    var after := Apply(w, e).db.tokens;
    var i :| 0 <= i < |after| && after[i] == row;
    match ResultOf(w, e) {
      case Reused => ReuseTells(w, e, i);
      case Rotated(_) => RotationTells(w, e, i);
      case Expired => ExpiryTells(w, e, i);
      case _ =>
    }
  }

  lemma MatchIsActive(w: World, m: nat)
    requires Inv(w) && m < |w.db.tokens| && IsActive(w.db.tokens[m])
    ensures AsOpened(w.db.tokens[m]) == w.db.tokens[m]
  {
    assert RowOk(w.db, w.now, w.db.tokens[m]);
  }

  lemma StepTells(w: World, e: Event, row: Token)
    requires Inv(w) && Enabled(w, e) && row in Apply(w, e).db.tokens
    ensures Told(w, e, row)
  {
    match e.step {
      case LoginStep(_, _, _, _, _) =>
      case RefreshStep(_, _, _) => RefreshTells(w, e, row);
      case LogoutStep(raw) =>
        var found := FindMatch(w.db.tokens, raw.person, true, false, raw);
        if row !in w.db.tokens {
          MatchIsActive(w, found.value);
        }
      case CleanupStep =>
    }
  }

  /** Some event of the run opened the row. */
  ghost predicate WasOpened(w: World, events: seq<Event>, row: Token) {
    exists k :: 0 <= k < |events|
                && (|| OpenedByLogin(events[k], AsOpened(row))
                    || OpenedByRefresh(Run(w, events[..k]), events[k], AsOpened(row)))
  }

  /** Some event of the run closed the row. */
  ghost predicate WasClosed(w: World, events: seq<Event>, row: Token) {
    exists k :: 0 <= k < |events| && ClosedBy(Run(w, events[..k]), events[k], row)
  }

  lemma {:induction false} RunAppends(w: World, events: seq<Event>, e: Event)
    ensures Run(w, events + [e]) == Apply(Run(w, events), e)
    ensures IsRun(w, events + [e]) <==> IsRun(w, events) && Enabled(Run(w, events), e)
    decreases |events|
  {
    hide Apply, Enabled;
    if events == [] {
      assert Run(Apply(w, e), []) == Apply(w, e) && IsRun(Apply(w, e), []);
      assert [] + [e] == [e] && [e][1..] == [];
    } else {
      assert (events + [e])[1..] == events[1..] + [e];
      RunAppends(Apply(w, events[0]), events[1..], e);
    }
  }

  lemma LongerRunTells(w: World, init: seq<Event>, e: Event, row: Token)
    ensures WasOpened(w, init, row) ==> WasOpened(w, init + [e], row)
    ensures WasClosed(w, init, row) ==> WasClosed(w, init + [e], row)
    ensures var before := Run(w, init);
      && (OpenedByLogin(e, AsOpened(row)) || OpenedByRefresh(before, e, AsOpened(row)) ==>
            WasOpened(w, init + [e], row))
      && (ClosedBy(before, e, row) ==> WasClosed(w, init + [e], row))
  {
    hide Run, OpenedByLogin, OpenedByRefresh, ClosedBy;
    var events := init + [e];
    assert events[|init|] == e && events[..|init|] == init;
    assert forall k :: 0 <= k < |init| ==> events[k] == init[k] && events[..k] == init[..k];
  }

  /** In every history, each row of the table was opened by a login or by a refresh of an active row of its session, at
      the time it says, and each revoked row was closed by the request that it names as its reason, at that time. */
  lemma {:induction false} EveryRowIsTold(now: int, events: seq<Event>, row: Token)
    requires IsRun(Initial(now), events) && row in Run(Initial(now), events).db.tokens
    ensures WasOpened(Initial(now), events, row)
    ensures row.revokedAt.Some? ==> WasClosed(Initial(now), events, row)
    decreases |events|
  {
    if events != [] {
      var init, e := events[..|events| - 1], events[|events| - 1];
      assert init + [e] == events;
      var before := Run(Initial(now), init);
      RunAppends(Initial(now), init, e);
      hide Run, IsRun, Apply, Enabled, Told, Inv, WasOpened, WasClosed, OpenedByLogin, OpenedByRefresh, ClosedBy;
      SessionsAreSound(now, init);
      StepTells(before, e, row);
      RowBefore(before, e, row);
      LongerRunTells(Initial(now), init, e, row);
      LongerRunTells(Initial(now), init, e, AsOpened(row));
      OpeningStays(Initial(now), events, row);
      OpeningStays(Initial(now), init, row);
      if row in before.db.tokens {
        EveryRowIsTold(now, init, row);
      } else if AsOpened(row) in before.db.tokens {
        EveryRowIsTold(now, init, AsOpened(row));
      }
    }
  }

  lemma OpeningStays(w: World, events: seq<Event>, row: Token)
    ensures WasOpened(w, events, AsOpened(row)) <==> WasOpened(w, events, row)
  {
    assert AsOpened(AsOpened(row)) == AsOpened(row);
    hide Run, OpenedByLogin, OpenedByRefresh;
  }

  /** A row is opened without a revocation. */
  lemma RowBefore(w: World, e: Event, row: Token)
    requires Told(w, e, row)
    ensures || row in w.db.tokens
            || (row == AsOpened(row) && (OpenedByLogin(e, AsOpened(row)) || OpenedByRefresh(w, e, AsOpened(row)))
                && row.revokedAt.None?)
            || (AsOpened(row) in w.db.tokens && ClosedBy(w, e, row))
  {
  }
}
