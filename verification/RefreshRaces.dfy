/** Refreshes and password resets of one user, interleaved. A refresh reads the mark in one
    step and mints in a later one; a reset reads the clock in one step and stores the mark in a
    later one. */
module RefreshRaces {
  import opened Wrappers
  import opened Sessions

  /** A refresh past its check: the second its token was issued in, and how many resets had been
      stored by then. */
  datatype Passed = Passed(parent: int, seen: nat)

  /** A token minted in second `iat` from one of second `parent`. */
  datatype Minted = Minted(parent: int, seen: nat, iat: int)

  /** `stores` are the resets stored so far, the last one being the mark in Redis. */
  datatype System = System(
    now: int,
    stores: seq<ResetEvent>,
    refreshing: map<nat, Passed>,
    resetting: map<nat, int>,
    minted: seq<Minted>)

  datatype Action =
    | Check(p: nat, iat: int)
    | Mint(p: nat)
    | ReadClock(p: nat)
    | Store(p: nat)
    | Tick(seconds: nat)

  function Fresh(now: int): System {
    System(now, [], map[], map[], [])
  }

  function CurrentMark(s: System): Option<Mark> {
    if s.stores == [] then None else Some(MarkOf(s.stores[|s.stores| - 1]))
  }

  function Step(ttlDays: nat, s: System, a: Action): System {
    match a
    case Check(p, iat) =>
      if iat <= s.now && Accepts(CurrentMark(s), IssueRefresh(0, iat, ttlDays), s.now) then
        s.(refreshing := s.refreshing[p := Passed(iat, |s.stores|)])
      else s
    case Mint(p) =>
      if p in s.refreshing then
        s.(refreshing := s.refreshing - {p},
           minted := s.minted + [Minted(s.refreshing[p].parent, s.refreshing[p].seen, s.now)])
      else s
    case ReadClock(p) => s.(resetting := s.resetting[p := s.now])
    case Store(p) =>
      if p in s.resetting then
        s.(resetting := s.resetting - {p}, stores := s.stores + [ResetEvent(s.resetting[p], s.now)])
      else s
    case Tick(seconds) => s.(now := s.now + seconds)
  }

  function Exec(ttlDays: nat, s: System, actions: seq<Action>): System
    decreases |actions|
  {
    if actions == [] then s else Exec(ttlDays, Step(ttlDays, s, actions[0]), actions[1..])
  }

  /** A token issued up to now passes the check if and only if it has not run out 60 seconds ago
      and the last reset stored, in the thirty days before, is not of a later second. */
  lemma CheckMeans(ttlDays: nat, s: System, p: nat, iat: int)
    requires iat <= s.now
    ensures
      var passes := s.now <= iat + ttlDays * 86400 + 60
                    && (s.stores != [] && s.now < s.stores[|s.stores| - 1].at + 30 * 86400
                        ==> s.stores[|s.stores| - 1].stamp <= iat);
      Step(ttlDays, s, Check(p, iat)) ==
      if passes then s.(refreshing := s.refreshing[p := Passed(iat, |s.stores|)]) else s
  {}

  // ── Whose tokens slip through ─────────────────────────────────

  predicate Timely(s: System) {
    && InTimeOrder(s.stores)
    && (forall k :: 0 <= k < |s.stores| ==> s.stores[k].at <= s.now)
    && (forall p :: p in s.resetting ==> s.resetting[p] <= s.now)
  }

  /** A token of second `iat` is not older than any of the first `seen` resets. */
  predicate NotRevoked(stores: seq<ResetEvent>, iat: int, seen: nat) {
    seen <= |stores| && forall k :: 0 <= k < seen ==> stores[k].stamp <= iat
  }

  predicate NoneRevoked(s: System) {
    && (forall p :: p in s.refreshing ==> NotRevoked(s.stores, s.refreshing[p].parent, s.refreshing[p].seen))
    && (forall j :: 0 <= j < |s.minted| ==> NotRevoked(s.stores, s.minted[j].parent, s.minted[j].seen))
  }

  lemma AcceptedIsNotRevoked(s: System, iat: int, ttlDays: nat)
    requires Timely(s) && StampsInOrder(s.stores) && ttlDays * DAY + LEEWAY <= KEY_TTL
    requires Accepts(CurrentMark(s), IssueRefresh(0, iat, ttlDays), s.now)
    ensures NotRevoked(s.stores, iat, |s.stores|)
  {
    if s.stores != [] {
      var last := s.stores[|s.stores| - 1];
      assert last.stamp <= last.at;
      assert last.stamp <= iat;
      assert forall k :: 0 <= k < |s.stores| ==> s.stores[k].stamp <= last.stamp;
    }
  }

  lemma StepStaysTimely(ttlDays: nat, s: System, a: Action)
    requires Timely(s)
    ensures Timely(Step(ttlDays, s, a)) && s.stores <= Step(ttlDays, s, a).stores
  {}

  lemma StepKeepsUnrevoked(ttlDays: nat, s: System, a: Action)
    requires Timely(s) && NoneRevoked(s) && ttlDays * DAY + LEEWAY <= KEY_TTL
    requires StampsInOrder(s.stores)
    ensures NoneRevoked(Step(ttlDays, s, a))
  {
    if a.Check? && Accepts(CurrentMark(s), IssueRefresh(0, a.iat, ttlDays), s.now) {
      AcceptedIsNotRevoked(s, a.iat, ttlDays);
    }
  }

  lemma {:induction false} StoresGrow(ttlDays: nat, s: System, actions: seq<Action>)
    requires Timely(s)
    ensures s.stores <= Exec(ttlDays, s, actions).stores && Timely(Exec(ttlDays, s, actions))
    decreases |actions|
  {
    if actions != [] {
      StepStaysTimely(ttlDays, s, actions[0]);
      StoresGrow(ttlDays, Step(ttlDays, s, actions[0]), actions[1..]);
    }
  }

  lemma {:induction false} ExecKeepsUnrevoked(ttlDays: nat, s: System, actions: seq<Action>)
    requires Timely(s) && NoneRevoked(s) && ttlDays * DAY + LEEWAY <= KEY_TTL
    requires StampsInOrder(Exec(ttlDays, s, actions).stores)
    ensures NoneRevoked(Exec(ttlDays, s, actions))
    decreases |actions|
  {
    if actions != [] {
      var stores := Exec(ttlDays, s, actions).stores;
      StoresGrow(ttlDays, s, actions);
      assert forall i, j :: 0 <= i <= j < |s.stores| ==> s.stores[i] == stores[i] && s.stores[j] == stores[j];
      StepStaysTimely(ttlDays, s, actions[0]);
      StepKeepsUnrevoked(ttlDays, s, actions[0]);
      ExecKeepsUnrevoked(ttlDays, Step(ttlDays, s, actions[0]), actions[1..]);
    }
  }

  /** Resets stored in the order of their seconds, a lifetime that fits: in every interleaving a
      token minted from one older than a reset comes of a refresh that had read the mark before
      that reset was stored. */
  lemma RevokedParentWasReadFirst(ttlDays: nat, now: int, actions: seq<Action>, j: nat, k: nat)
    requires ttlDays * DAY + LEEWAY <= KEY_TTL
    requires
      var s := Exec(ttlDays, Fresh(now), actions);
      StampsInOrder(s.stores) && j < |s.minted| && k < |s.stores| && s.minted[j].parent < s.stores[k].stamp
    ensures
      var s := Exec(ttlDays, Fresh(now), actions);
      s.minted[j].seen <= k
  {
    ExecKeepsUnrevoked(ttlDays, Fresh(now), actions);
  }

  /** And so it happens: checked, then a reset from end to end, then minted, all in second `t`.
      The reset is stored, the token is from a revoked one, and it is good for its whole life. */
  lemma MintedAfterReset(ttlDays: nat, t: int) returns (actions: seq<Action>)
    ensures
      var s := Exec(ttlDays, Fresh(t), actions);
      && s.stores == [ResetEvent(t, t)] && s.minted == [Minted(t - 1, 0, t)]
      && forall now: int :: t <= now <= t + ttlDays * DAY + LEEWAY
           ==> Accepts(CurrentMark(s), IssueRefresh(0, s.minted[0].iat, ttlDays), now)
  {
    actions := [Check(0, t - 1), ReadClock(1), Store(1), Mint(0)];
    var s1 := Fresh(t).(refreshing := map[0 := Passed(t - 1, 0)]);
    assert Step(ttlDays, Fresh(t), Check(0, t - 1)) == s1;
    var s2 := s1.(resetting := map[1 := t]);
    var s3 := s1.(stores := [ResetEvent(t, t)]);
    assert map[1 := t] - {1} == map[];
    assert Step(ttlDays, s2, Store(1)) == s3;
    var s4 := s3.(refreshing := map[], minted := [Minted(t - 1, 0, t)]);
    assert map[0 := Passed(t - 1, 0)] - {0} == map[];
    assert Step(ttlDays, s3, Mint(0)) == s4;
    assert actions[1..] == [ReadClock(1), Store(1), Mint(0)];
    assert [ReadClock(1), Store(1), Mint(0)][1..] == [Store(1), Mint(0)];
    assert [Store(1), Mint(0)][1..] == [Mint(0)] && [Mint(0)][1..] == [];
    assert Exec(ttlDays, s3, [Mint(0)]) == Exec(ttlDays, s4, []);
    assert Exec(ttlDays, s2, [Store(1), Mint(0)]) == Exec(ttlDays, s3, [Mint(0)]);
    assert Exec(ttlDays, s1, [ReadClock(1), Store(1), Mint(0)]) == Exec(ttlDays, s2, [Store(1), Mint(0)]);
  }
}
