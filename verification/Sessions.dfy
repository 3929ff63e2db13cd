/** Refresh tokens and the `pw_reset` key. A reset stores the second it happened at; a token
    issued before that second is refused while the key lives. Tokens carry `iat` and `exp` as
    in sections 4.1.6 and 4.1.4 of RFC 7519. */
module Sessions {
  import opened Wrappers

  const DAY := 86400
  const KEY_TTL := 30 * 24 * 3600

  /** The validation default of the JWT library: a token is good this long after `exp`. */
  const LEEWAY := 60

  /** The `typ` claim. */
  datatype Kind = Access | Refresh

  datatype Token = Token(kind: Kind, user: nat, iat: int, exp: int)

  /** What a login or a refresh hands out. */
  datatype Pair = Pair(access: Token, refresh: Token)

  /** The `pw_reset` key of one user. */
  datatype Mark = Mark(stamp: int, expires: int)

  function IssueRefresh(user: nat, now: int, ttlDays: nat): Token {
    Token(Refresh, user, now, now + ttlDays * DAY)
  }

  function IssueAccess(user: nat, now: int, ttlMinutes: nat): Token {
    Token(Access, user, now, now + ttlMinutes * 60)
  }

  predicate Unexpired(token: Token, now: int) {
    token.exp >= now - LEEWAY
  }

  predicate Accepts(mark: Option<Mark>, token: Token, now: int) {
    Unexpired(token, now) && token.kind == Refresh && !(mark.Some? && now < mark.value.expires && token.iat < mark.value.stamp)
  }

  /** A password reset as `set_new_password` ends it: the clock is read, and a little later
      the key is stored. */
  datatype ResetEvent = ResetEvent(stamp: int, at: int)

  function MarkOf(e: ResetEvent): Mark {
    Mark(e.stamp, e.at + KEY_TTL)
  }

  function MarkIn(marks: map<nat, Mark>, user: nat): Option<Mark> {
    if user in marks then Some(marks[user]) else None
  }

  class SessionStore {
    const ttlDays: nat
    const ttlMinutes: nat
    var marks: map<nat, Mark>

    function MarkFor(user: nat): Option<Mark>
      reads this
    {
      MarkIn(marks, user)
    }

    constructor (ttlDays: nat, ttlMinutes: nat)
      ensures this.ttlDays == ttlDays && this.ttlMinutes == ttlMinutes && marks == map[]
    {
      this.ttlDays, this.ttlMinutes := ttlDays, ttlMinutes;
      marks := map[];
    }

    method StoreReset(user: nat, stamp: int, now: int)
      modifies this`marks
      ensures marks == old(marks)[user := MarkOf(ResetEvent(stamp, now))]
      ensures forall token: Token, later: int :: token.user == user && token.iat < stamp && later < now + KEY_TTL
                ==> !Accepts(MarkFor(token.user), token, later)
      ensures forall token: Token, later: int :: token.user != user
                ==> Accepts(MarkFor(token.user), token, later) == old(Accepts(MarkFor(token.user), token, later))
    {
      marks := marks[user := Mark(stamp, now + 30 * 24 * 3600)];
    }

    /** The first half of a refresh: the token is decoded and the mark read. */
    method CheckRefresh(token: Token, now: int) returns (ok: bool)
      ensures ok <==> Accepts(MarkFor(token.user), token, now)
      ensures ok <==> now - 60 <= token.exp && token.kind == Refresh
                      && (token.user in marks && now < marks[token.user].expires ==> marks[token.user].stamp <= token.iat)
    {
      if token.exp < now - LEEWAY { return false; }
      if token.kind != Refresh { return false; }
      if token.user in marks && now < marks[token.user].expires {
        if token.iat < marks[token.user].stamp { return false; }
      }
      return true;
    }

    /** The second half, after the account was looked up: the new tokens are stamped with their
        own second, and the mark is not read again. */
    method Mint(user: nat, now: int) returns (pair: Pair)
      ensures pair == Pair(IssueAccess(user, now, ttlMinutes), IssueRefresh(user, now, ttlDays))
      ensures pair.access == Token(Access, user, now, now + ttlMinutes * 60)
      ensures pair.refresh == Token(Refresh, user, now, now + ttlDays * 86400)
    {
      return Pair(Token(Access, user, now, now + ttlMinutes * 60), Token(Refresh, user, now, now + ttlDays * DAY));
    }

    /** A refresh with nothing in between: new tokens of the same user exactly when the old one is
        accepted and the account is `known`, and then a refresh token that no mark of an earlier
        second refuses. */
    method RefreshToken(token: Token, known: bool, checkedAt: int, mintedAt: int) returns (renewed: Option<Pair>)
      requires checkedAt <= mintedAt
      ensures renewed.Some? <==> Accepts(MarkFor(token.user), token, checkedAt) && known
      ensures renewed.Some? ==>
                && renewed.value.access == Token(Access, token.user, mintedAt, mintedAt + ttlMinutes * 60)
                && renewed.value.refresh == Token(Refresh, token.user, mintedAt, mintedAt + ttlDays * 86400)
      ensures renewed.Some? && (token.user in marks ==> marks[token.user].stamp <= mintedAt)
              ==> Accepts(MarkFor(token.user), renewed.value.refresh, mintedAt)
    {
      var ok := CheckRefresh(token, checkedAt);
      if !ok { return None; }
      if !known { return None; }
      var minted := Mint(token.user, mintedAt);
      return Some(minted);
    }
  }

  /** A refresh token passes from its own second to 60 seconds after it runs out, unless a mark that still
      lives carries a later second than it was issued in. */
  lemma AcceptsMeans(mark: Option<Mark>, token: Token, now: int)
    ensures Accepts(mark, token, now) <==>
              && token.kind == Refresh && token.exp + 60 >= now
              && (mark.Some? && now < mark.value.expires ==> mark.value.stamp <= token.iat)
  {}

  // ── Chains of refreshes ───────────────────────────────────────

  /** The last token of a chain of refreshes from `token`, minted in the given seconds. */
  function Renewed(token: Token, mints: seq<int>, ttlDays: nat): Token
    decreases |mints|
  {
    if mints == [] then token else Renewed(IssueRefresh(token.user, mints[0], ttlDays), mints[1..], ttlDays)
  }

  lemma {:induction false} RenewedIs(token: Token, mints: seq<int>, ttlDays: nat)
    ensures mints != [] ==> Renewed(token, mints, ttlDays)
                            == Token(Refresh, token.user, mints[|mints| - 1], mints[|mints| - 1] + ttlDays * 86400)
    ensures Renewed(token, mints, ttlDays).user == token.user
    decreases |mints|
  {
    if mints != [] {
      RenewedIs(IssueRefresh(token.user, mints[0], ttlDays), mints[1..], ttlDays);
    }
  }

  /** While its mark lives, a reset of `user` refuses, of all tokens minted before its second that
      would else be accepted, exactly those that come of that user's tokens, through however
      many refreshes. */
  lemma ResetRefusesOwnRenewalsOnly(marks: map<nat, Mark>, user: nat, e: ResetEvent, token: Token, mints: seq<int>,
                                    now: int, ttlDays: nat)
    requires mints != [] && mints[|mints| - 1] < e.stamp <= e.at <= now < e.at + 30 * 86400
    requires
      var renewed := Renewed(token, mints, ttlDays);
      Accepts(MarkIn(marks, renewed.user), renewed, now)
    ensures
      var renewed := Renewed(token, mints, ttlDays);
      Accepts(MarkIn(marks[user := MarkOf(e)], renewed.user), renewed, now) <==> token.user != user
  {
    RenewedIs(token, mints, ttlDays);
  }

  // ── One reset ─────────────────────────────────────────────────

  /** From second `from` on, `mark` keeps out every token issued before second `since`. */
  ghost predicate Revokes(mark: Mark, since: int, from: int, ttlDays: nat) {
    forall user: nat, iat: int, now: int :: iat < since && from <= now
      ==> !Accepts(Some(mark), IssueRefresh(user, iat, ttlDays), now)
  }

  /** A reset at second `t` revokes all earlier tokens for good if and only if the refresh
      lifetime and the leeway fit into the key's 30 days. */
  lemma ResetRevokesIff(t: int, ttlDays: nat)
    ensures Revokes(MarkOf(ResetEvent(t, t)), t, t, ttlDays) <==> ttlDays * DAY + LEEWAY <= KEY_TTL
  {
    var mark := MarkOf(ResetEvent(t, t));
    if ttlDays * DAY + LEEWAY > KEY_TTL {
      assert Accepts(Some(mark), IssueRefresh(0, t - 1, ttlDays), t + KEY_TTL);
    }
  }

  /** The default of 30 days does not fit: in the last minute a token from the second before
      the reset is accepted again. 29 days do. */
  lemma DefaultLifetimeIsAMinuteTooLong(t: int)
    ensures Accepts(Some(MarkOf(ResetEvent(t, t))), IssueRefresh(0, t - 1, 30), t + KEY_TTL + LEEWAY - 1)
    ensures !Revokes(MarkOf(ResetEvent(t, t)), t, t, 30) && Revokes(MarkOf(ResetEvent(t, t)), t, t, 29)
  {
    ResetRevokesIff(t, 30);
    ResetRevokesIff(t, 29);
  }

  // ── Access tokens ─────────────────────────────────────────────

  /** An access token is decoded; nobody looks at the mark. */
  predicate Admits(token: Token, now: int) {
    Unexpired(token, now) && token.kind == Access
  }

  /** Access and refresh tokens do not stand in for each other. */
  lemma KindsStayApart(mark: Option<Mark>, user: nat, iat: int, now: int, ttlDays: nat, ttlMinutes: nat)
    ensures !Accepts(mark, IssueAccess(user, iat, ttlMinutes), now)
    ensures !Admits(IssueRefresh(user, iat, ttlDays), now)
    ensures Admits(IssueAccess(user, iat, ttlMinutes), now) <==> now <= iat + ttlMinutes * 60 + 60
  {}

  /** From second `from` on, no access token issued before second `since` is admitted. */
  ghost predicate Outlived(since: int, from: int, ttlMinutes: nat) {
    forall user: nat, iat: int, now: int :: iat < since && from <= now
      ==> !Admits(IssueAccess(user, iat, ttlMinutes), now)
  }

  /** A reset at second `t` ends no access token: the last of those issued before it are admitted
      until their own time is over, and exactly from then on none is. */
  lemma AccessTokensOutliveResetIff(t: int, from: int, ttlMinutes: nat)
    ensures Outlived(t, from, ttlMinutes) <==> from > t - 1 + ttlMinutes * 60 + LEEWAY
  {
    if from <= t - 1 + ttlMinutes * 60 + LEEWAY {
      assert Admits(IssueAccess(0, t - 1, ttlMinutes), from);
    }
  }

  // ── A run of resets ───────────────────────────────────────────

  predicate InTimeOrder(resets: seq<ResetEvent>) {
    && (forall i :: 0 <= i < |resets| ==> resets[i].stamp <= resets[i].at)
    && (forall i, j :: 0 <= i <= j < |resets| ==> resets[i].at <= resets[j].at)
  }

  predicate StampsInOrder(resets: seq<ResetEvent>) {
    forall i, j :: 0 <= i <= j < |resets| ==> resets[i].stamp <= resets[j].stamp
  }

  /** Clock read and store each in order: no token older than any reset so far is accepted
      from the last store on, at any later time. */
  lemma ResetsRevokeForGood(resets: seq<ResetEvent>, ttlDays: nat, i: nat)
    requires InTimeOrder(resets) && StampsInOrder(resets) && i < |resets|
    requires ttlDays * DAY + LEEWAY <= KEY_TTL
    ensures Revokes(MarkOf(resets[|resets| - 1]), resets[i].stamp, resets[|resets| - 1].at, ttlDays)
  {
    var last := resets[|resets| - 1];
    forall user: nat, iat: int, now: int | iat < resets[i].stamp && last.at <= now
      ensures !Accepts(Some(MarkOf(last)), IssueRefresh(user, iat, ttlDays), now)
    {
      assert resets[i].stamp <= last.stamp && resets[i].at <= last.at;
      assert resets[i].stamp <= resets[i].at;
    }
  }

  /** Two resets whose stores overtake each other: the later store readmits a token revoked by
      the first exactly when it carries the older second and such a token has not run out. */
  lemma OvertakingResetReadmitsIff(first: ResetEvent, second: ResetEvent, ttlDays: nat)
    requires InTimeOrder([first, second]) && ttlDays * DAY + LEEWAY <= KEY_TTL
    ensures Revokes(MarkOf(second), first.stamp, second.at, ttlDays)
            <==> first.stamp <= second.stamp || second.at > first.stamp - 1 + ttlDays * DAY + LEEWAY
  {
    var pair := [first, second];
    assert pair[0].at <= pair[1].at && pair[0].stamp <= pair[0].at;
    if second.stamp < first.stamp && second.at <= first.stamp - 1 + ttlDays * DAY + LEEWAY {
      assert Accepts(Some(MarkOf(second)), IssueRefresh(0, first.stamp - 1, ttlDays), second.at);
    }
  }

  // ── A refresh and a reset at once ─────────────────────────────

  /** What a refresh finds that reads the mark before the reset stores it, or after. */
  function SeenMark(e: ResetEvent, readFirst: bool): Option<Mark> {
    if readFirst then None else Some(MarkOf(e))
  }

  /** A refresh from a refresh token older than the reset leads to one that the reset's mark lets through
      if and only if the mark was read before it was stored and the new token is not older than
      the reset's second. */
  lemma RefreshSurvivesResetIff(e: ResetEvent, token: Token, readAt: int, readFirst: bool, mintedAt: int, now: int, ttlDays: nat)
    requires e.stamp <= e.at <= now < e.at + KEY_TTL && token.iat < e.stamp
    requires readAt <= mintedAt <= now && if readFirst then readAt <= e.at else e.at <= readAt
    requires Unexpired(token, readAt) && Unexpired(IssueRefresh(token.user, mintedAt, ttlDays), now)
    ensures Accepts(SeenMark(e, readFirst), token, readAt)
            && Accepts(Some(MarkOf(e)), IssueRefresh(token.user, mintedAt, ttlDays), now)
            <==> token.kind == Refresh && readFirst && mintedAt >= e.stamp
  {}
}
