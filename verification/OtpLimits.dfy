/** How often one code can be compared. The counter of attempts belongs to the email, not to
    the code: a send resets it while a verifier holds an older code, and puts no stop to that
    code coming back. So there is a limit per reset of the counter and none per code. */
module OtpLimits {
  import opened Wrappers
  import opened Otp

  // ── Comparisons of one code and resets of the counter ─────────

  /** Step `a` compares issue `i` with a guess. */
  predicate Compares(cfg: Config, r: Redis, a: Action, i: nat) {
    && a.Run? && a.p in r.procs && r.procs[a.p].Compare? && r.procs[a.p].issue == i
    && Incremented(r.counter).value <= cfg.maxAttempts
  }

  /** Step `a` makes the counter start again: a send, a success, or its expiry. */
  predicate ResetsCounter(r: Redis, a: Action) {
    || (a.Run? && a.p in r.procs && (r.procs[a.p].StoreCounter? || r.procs[a.p].ClearCounter?))
    || (a.Tick? && CounterExpires(r, r.now + a.seconds))
  }

  /** Issue `i` is in the key or with a verifier. */
  predicate About(r: Redis, i: nat) {
    Key(r) == Some(i) || exists p :: p in r.procs && Held(r.procs[p]) == Some(i)
  }

  function Comparisons(cfg: Config, r: Redis, actions: seq<Action>, i: nat): nat
    decreases |actions|
  {
    if actions == [] then 0
    else (if Compares(cfg, r, actions[0], i) then 1 else 0) + Comparisons(cfg, Step(cfg, r, actions[0]), actions[1..], i)
  }

  /** How often the counter starts again while issue `i` is about. */
  function Resets(cfg: Config, r: Redis, actions: seq<Action>, i: nat): nat
    decreases |actions|
  {
    if actions == [] then 0
    else (if About(r, i) && ResetsCounter(r, actions[0]) then 1 else 0) + Resets(cfg, Step(cfg, r, actions[0]), actions[1..], i)
  }

  /** Only numbers given out already are about. */
  predicate Numbered(r: Redis, i: nat) {
    About(r, i) ==> i < r.issued
  }

  lemma CodesComeBySending(cfg: Config, r: Redis, a: Action, i: nat)
    ensures r.issued <= Step(cfg, r, a).issued
    ensures About(Step(cfg, r, a), i) ==> About(r, i) || (i == r.issued && i < Step(cfg, r, a).issued)
  {
    StepTouchesOneProc(cfg, r, a);
    StepMovesCode(cfg, r, a);
    var next, p := Step(cfg, r, a), Actor(a);
    if About(next, i) && Key(next) != Some(i) {
      var q :| q in next.procs && Held(next.procs[q]) == Some(i);
      assert q != p ==> q in r.procs && Held(r.procs[q]) == Some(i);
      assert q == p ==> HeldBy(next, p) == Some(i);
    }
  }

  lemma CounterGrowsUnlessReset(cfg: Config, r: Redis, a: Action, i: nat)
    ensures !ResetsCounter(r, a) ==> Count(Step(cfg, r, a)) >= Count(r)
    ensures Compares(cfg, r, a, i) ==> Count(Step(cfg, r, a)) == Count(r) + 1 <= cfg.maxAttempts && About(r, i)
  {
    StepMovesCounter(cfg, r, a);
    if a.Run? && a.p in r.procs {
      RunCounts(cfg, r, a.p);
    }
  }

  lemma RunCounts(cfg: Config, r: Redis, p: nat)
    requires p in r.procs
    ensures !r.procs[p].StoreCounter? && !r.procs[p].ClearCounter? ==> Count(RunOne(cfg, r, p)) >= Count(r)
    ensures r.procs[p].Compare? ==> RunOne(cfg, r, p).counter == Some(Incremented(r.counter))
  {
    match r.procs[p]
    case CheckRate(_) =>
    case StoreCode(_) =>
    case StoreCounter =>
    case StoreRate =>
    case Fetch(_, _) =>
    case Probe =>
    case Compare(_, _, _, _) =>
    case Restore(_, _) =>
    case ClearCounter(_, _) =>
    case GrantToken(_) =>
    case TakeToken(_) =>
    case Update(_) =>
  }

  lemma {:induction false} GoneIsNeverCompared(cfg: Config, r: Redis, actions: seq<Action>, i: nat)
    requires !About(r, i) && i < r.issued
    ensures Comparisons(cfg, r, actions, i) == 0
    decreases |actions|
  {
    if actions != [] {
      CodesComeBySending(cfg, r, actions[0], i);
      CounterGrowsUnlessReset(cfg, r, actions[0], i);
      GoneIsNeverCompared(cfg, Step(cfg, r, actions[0]), actions[1..], i);
    }
  }

  /** What the counter still allows. */
  function Left(cfg: Config, r: Redis): nat {
    if Count(r) < cfg.maxAttempts then cfg.maxAttempts - Count(r) else 0
  }

  lemma {:induction false} AboutIsLimited(cfg: Config, r: Redis, actions: seq<Action>, i: nat)
    requires About(r, i) && i < r.issued
    ensures Comparisons(cfg, r, actions, i) <= Left(cfg, r) + cfg.maxAttempts * Resets(cfg, r, actions, i)
    decreases |actions|
  {
    if actions != [] {
      var next, rest := Step(cfg, r, actions[0]), actions[1..];
      CodesComeBySending(cfg, r, actions[0], i);
      CounterGrowsUnlessReset(cfg, r, actions[0], i);
      if About(next, i) {
        AboutIsLimited(cfg, next, rest, i);
      } else {
        GoneIsNeverCompared(cfg, next, rest, i);
      }
      LimitOnceMore(cfg.maxAttempts, Resets(cfg, next, rest, i));
    }
  }

  lemma LimitOnceMore(a: nat, n: nat)
    ensures a * (n + 1) == a * n + a && 0 <= a * n
  {}

  lemma {:induction false} IssueIsLimited(cfg: Config, r: Redis, actions: seq<Action>, i: nat)
    requires Numbered(r, i)
    ensures Comparisons(cfg, r, actions, i) <= cfg.maxAttempts * (1 + Resets(cfg, r, actions, i))
    decreases |actions|
  {
    LimitOnceMore(cfg.maxAttempts, Resets(cfg, r, actions, i));
    if About(r, i) {
      AboutIsLimited(cfg, r, actions, i);
    } else if actions != [] {
      CodesComeBySending(cfg, r, actions[0], i);
      CounterGrowsUnlessReset(cfg, r, actions[0], i);
      IssueIsLimited(cfg, Step(cfg, r, actions[0]), actions[1..], i);
    }
  }

  lemma ReachableIsNumbered(cfg: Config, now: int, actions: seq<Action>, i: nat)
    ensures Numbered(Exec(cfg, Fresh(now), actions), i)
  {
    ExecKeepsLinear(cfg, Fresh(now), actions);
  }

  lemma MoreTakesAReset(comparisons: nat, limit: nat, resets: nat)
    requires comparisons <= limit * (1 + resets)
    ensures comparisons > limit ==> resets >= 1
  {}

  /** From any reachable state on, over any interleaving, one code is compared at most
      `maxAttempts` times per reset of the counter that happens while it is about, and so many
      times once more. In particular, from a code's first comparison on, one more than
      `maxAttempts` of them takes a reset in between. */
  lemma GuessesPerCode(cfg: Config, now: int, before: seq<Action>, more: seq<Action>, i: nat)
    ensures
      var r := Exec(cfg, Fresh(now), before);
      && Comparisons(cfg, r, more, i) <= cfg.maxAttempts * (1 + Resets(cfg, r, more, i))
      && (Comparisons(cfg, r, more, i) > cfg.maxAttempts ==> Resets(cfg, r, more, i) >= 1)
  {
    var r := Exec(cfg, Fresh(now), before);
    ReachableIsNumbered(cfg, now, before, i);
    IssueIsLimited(cfg, r, more, i);
    MoreTakesAReset(Comparisons(cfg, r, more, i), cfg.maxAttempts, Resets(cfg, r, more, i));
  }

  // ── No limit per code ─────────────────────────────────────────

  predicate NobodyDies(actions: seq<Action>) {
    forall k :: 0 <= k < |actions| ==> !actions[k].Die?
  }

  lemma {:induction false} ComparisonsOneMore(cfg: Config, r: Redis, actions: seq<Action>, a: Action, i: nat)
    ensures Comparisons(cfg, r, actions + [a], i)
            == Comparisons(cfg, r, actions, i) + (if Compares(cfg, Exec(cfg, r, actions), a, i) then 1 else 0)
    decreases |actions|
  {
    if actions == [] {
      assert ([] + [a])[1..] == [];
    } else {
      assert (actions + [a])[1..] == actions[1..] + [a];
      ComparisonsOneMore(cfg, Step(cfg, r, actions[0]), actions[1..], a, i);
    }
  }

  /** A run so far, its state, and how often it compared issue 0. */
  ghost predicate Reached(cfg: Config, now: int, actions: seq<Action>, r: Redis, n: nat) {
    && Exec(cfg, Fresh(now), actions) == r && Comparisons(cfg, Fresh(now), actions, 0) == n && NobodyDies(actions)
    && r.now == now && r.matched == [] && !r.expiredSinceSend && !r.clearedSinceSend
  }

  lemma Onward(cfg: Config, now: int, actions: seq<Action>, r: Redis, n: nat, a: Action) returns (more: seq<Action>)
    requires Reached(cfg, now, actions, r, n) && !a.Die?
    requires Step(cfg, r, a).now == now && Step(cfg, r, a).matched == [] && !Step(cfg, r, a).expiredSinceSend && !Step(cfg, r, a).clearedSinceSend
    ensures Reached(cfg, now, more, Step(cfg, r, a), n + if Compares(cfg, r, a, 0) then 1 else 0)
  {
    ExecOneMore(cfg, Fresh(now), actions, a);
    ComparisonsOneMore(cfg, Fresh(now), actions, a, 0);
    more := actions + [a];
  }

  /** Senders `k` to `n` have passed the check of the rate key and wait to store a code each. */
  ghost predicate SendersWait(r: Redis, k: nat, n: nat, digits: int) {
    forall p: nat :: (p in r.procs <==> k <= p <= n) && (p in r.procs ==> r.procs[p] == StoreCode(digits))
  }

  lemma SendersCheck(cfg: Config, now: int, n: nat, digits: int) returns (actions: seq<Action>, r: Redis)
    ensures Reached(cfg, now, actions, r, 0) && SendersWait(r, 0, n, digits) && r.issued == 0
  {
    r := Fresh(now);
    actions := [];
    var k := 0;
    while k <= n
      invariant k <= n + 1 && Reached(cfg, now, actions, r, 0) && r.issued == 0 && r.rate == None
      invariant forall p: nat :: (p in r.procs <==> p < k) && (p in r.procs ==> r.procs[p] == StoreCode(digits))
    {
      actions := Onward(cfg, now, actions, r, 0, Send(k, digits));
      r := Step(cfg, r, Send(k, digits));
      actions := Onward(cfg, now, actions, r, 0, Run(k));
      r := Step(cfg, r, Run(k));
      k := k + 1;
    }
  }

  /** A waiting sender stores its code and starts the counter again. */
  lemma SenderFinishes(cfg: Config, now: int, actions: seq<Action>, r: Redis, n: nat, p: nat, digits: int)
    returns (more: seq<Action>, next: Redis)
    requires Reached(cfg, now, actions, r, n) && p in r.procs && r.procs[p] == StoreCode(digits)
    ensures Reached(cfg, now, more, next, n) && next.procs == r.procs - {p} && Count(next) == 0
    ensures next.code.Some? && next.code.value.issue == r.issued && next.code.value.digits == digits
  {
    var r1 := Step(cfg, r, Run(p));
    assert r1.procs == r.procs[p := StoreCounter];
    more := Onward(cfg, now, actions, r, n, Run(p));
    var r2 := Step(cfg, r1, Run(p));
    assert r2.procs == r.procs[p := StoreRate];
    more := Onward(cfg, now, more, r1, n, Run(p));
    next := Step(cfg, r2, Run(p));
    assert next.procs == r.procs - {p};
    more := Onward(cfg, now, more, r2, n, Run(p));
  }

  /** Issue 0 is in the key. */
  predicate ZeroInKey(r: Redis, digits: int) {
    r.code.Some? && r.code.value.issue == 0 && r.code.value.digits == digits
  }

  lemma VerifierTakes(cfg: Config, now: int, actions: seq<Action>, r: Redis, n: nat, v: nat, digits: int)
    returns (more: seq<Action>, next: Redis)
    requires Reached(cfg, now, actions, r, n) && v !in r.procs && ZeroInKey(r, digits)
    ensures Reached(cfg, now, more, next, n) && next.procs == r.procs[v := Compare(Login, digits + 1, 0, digits)]
  {
    var r1 := r.(procs := r.procs[v := Fetch(Login, digits + 1)]);
    assert Step(cfg, r, Verify(v, Login, digits + 1)) == r1;
    more := Onward(cfg, now, actions, r, n, Verify(v, Login, digits + 1));
    next := Step(cfg, r1, Run(v));
    assert next.procs == r.procs[v := Compare(Login, digits + 1, 0, digits)];
    more := Onward(cfg, now, more, r1, n, Run(v));
  }

  /** Its guess is wrong, and it puts issue 0 back over whatever is in the key. */
  lemma VerifierPutsBack(cfg: Config, now: int, actions: seq<Action>, r: Redis, n: nat, v: nat, digits: int)
    returns (more: seq<Action>, next: Redis)
    requires cfg.maxAttempts > 0 && Reached(cfg, now, actions, r, n) && Count(r) == 0
    requires v in r.procs && r.procs[v] == Compare(Login, digits + 1, 0, digits)
    ensures Reached(cfg, now, more, next, n + 1) && next.procs == r.procs - {v} && ZeroInKey(next, digits)
  {
    var r1 := Step(cfg, r, Run(v));
    assert r1.procs == r.procs[v := Restore(0, digits)];
    assert Compares(cfg, r, Run(v), 0);
    more := Onward(cfg, now, actions, r, n, Run(v));
    next := Step(cfg, r1, Run(v));
    assert next.procs == r.procs - {v};
    more := Onward(cfg, now, more, r1, n + 1, Run(v));
  }

  lemma OneRound(cfg: Config, now: int, actions: seq<Action>, r: Redis, k: nat, n: nat, digits: int)
    returns (more: seq<Action>, next: Redis)
    requires cfg.maxAttempts > 0 && 1 <= k <= n
    requires Reached(cfg, now, actions, r, k - 1) && SendersWait(r, k, n, digits) && ZeroInKey(r, digits)
    ensures Reached(cfg, now, more, next, k) && SendersWait(next, k + 1, n, digits) && ZeroInKey(next, digits)
  {
    more, next := VerifierTakes(cfg, now, actions, r, k - 1, n + 1, digits);
    more, next := SenderFinishes(cfg, now, more, next, k - 1, k, digits);
    more, next := VerifierPutsBack(cfg, now, more, next, k - 1, n + 1, digits);
  }

  /** For every configuration that allows any guess and every number `n`, an interleaving that
      compares one and the same code exactly `n` times, all within one second. No request dies
      in it, the counter never expires and no guess is right: senders that passed the check of
      the rate key together start the counter again one by one, each while a verifier holds the
      code, which then puts it back over the new one. */
  lemma OneCodeWithoutLimit(cfg: Config, now: int, digits: int, n: nat)
    returns (actions: seq<Action>, r: Redis)
    requires cfg.maxAttempts > 0
    ensures r == Exec(cfg, Fresh(now), actions)
    ensures Comparisons(cfg, Fresh(now), actions, 0) == n && NobodyDies(actions)
    ensures r.now == now && r.procs == map[] && r.matched == [] && !r.expiredSinceSend && !r.clearedSinceSend
  {
    actions, r := SendersCheck(cfg, now, n, digits);
    actions, r := SenderFinishes(cfg, now, actions, r, 0, 0, digits);
    var k := 1;
    while k <= n
      invariant 1 <= k <= n + 1 && Reached(cfg, now, actions, r, k - 1)
      invariant SendersWait(r, k, n, digits) && ZeroInKey(r, digits)
    {
      actions, r := OneRound(cfg, now, actions, r, k, n, digits);
      k := k + 1;
    }
  }
}
