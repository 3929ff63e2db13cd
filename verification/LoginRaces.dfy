/** The login throttle when logins of one email interleave: the counter is read by one command
    and stored by a later one, with the password check in between. */
module LoginRaces {
  import opened Wrappers
  import opened LoginThrottle

  /** A login past its GET, with what it read. */
  datatype Pending = Pending(attempts: nat, correct: bool)

  /** `failures` are the times of the failed checks since the last success. */
  datatype System = System(now: int, key: Option<Attempts>, pending: map<nat, Pending>, failures: seq<int>)

  datatype Action =
    | Ask(p: nat, known: bool, correct: bool)
    | Answer(p: nat)
    | Quit(p: nat)
    | Tick(seconds: nat)

  function Fresh(now: int): System {
    System(now, None, map[], [])
  }

  function Step(s: System, a: Action): System {
    match a
    case Ask(p, known, correct) =>
      if p in s.pending || Live(s.key, s.now) >= LIMIT || !known then s
      else s.(pending := s.pending[p := Pending(Live(s.key, s.now), correct)])
    case Answer(p) =>
      if p !in s.pending then s
      else if s.pending[p].correct then System(s.now, None, s.pending - {p}, [])
      else
        System(s.now, Some(Attempts(s.pending[p].attempts + 1, s.now + WINDOW)), s.pending - {p}, s.failures + [s.now])
    case Quit(p) => s.(pending := s.pending - {p})
    case Tick(seconds) => s.(now := s.now + seconds)
  }

  function Exec(s: System, actions: seq<Action>): System
    decreases |actions|
  {
    if actions == [] then s else Exec(Step(s, actions[0]), actions[1..])
  }

  lemma {:induction false} ExecOneMore(s: System, actions: seq<Action>, a: Action)
    ensures Exec(s, actions + [a]) == Step(Exec(s, actions), a)
    decreases |actions|
  {
    if actions == [] {
      assert ([] + [a])[1..] == [];
    } else {
      assert (actions + [a])[1..] == actions[1..] + [a];
      ExecOneMore(Step(s, actions[0]), actions[1..], a);
    }
  }

  /** Asked and answered at once, a login is the call of the serial model. */
  lemma AskedAndAnswered(s: System, p: nat, known: bool, correct: bool)
    requires s.pending == map[]
    ensures
      var last := Step(Step(s, Ask(p, known, correct)), Answer(p));
      && last.pending == map[]
      && Trace(last.key, last.failures) == Observe(Trace(s.key, s.failures), Call(s.now, known, correct))
  {
    assert map[p := Pending(Live(s.key, s.now), correct)] - {p} == map[];
  }

  // ── At the same moment ────────────────────────────────────────

  /** Those from number `k` to `n` are waiting for an answer, having read no failure. */
  ghost predicate Waiting(pending: map<nat, Pending>, k: nat, n: nat) {
    forall p :: (p in pending <==> k <= p < n) && (p in pending ==> pending[p] == Pending(0, false))
  }

  function Times(now: int, n: nat): seq<int> {
    seq(n, i => now)
  }

  /** `n` logins have been read in, and the first `k` of them answered. */
  ghost predicate Answered(s: System, now: int, k: nat, n: nat) {
    && s.now == now && Waiting(s.pending, k, n) && s.failures == Times(now, k)
    && s.key == if k == 0 then None else Some(Attempts(1, now + WINDOW))
  }

  lemma AllAsk(now: int, n: nat) returns (actions: seq<Action>)
    ensures Answered(Exec(Fresh(now), actions), now, 0, n)
  {
    actions := [];
    var k := 0;
    while k < n
      invariant k <= n && Answered(Exec(Fresh(now), actions), now, 0, k)
    {
      ExecOneMore(Fresh(now), actions, Ask(k, true, false));
      actions := actions + [Ask(k, true, false)];
      k := k + 1;
    }
  }

  /** However many logins read the counter before any of them stores it: all their checks may
      fail in the same second, and the counter says one. */
  lemma AnyNumberFailsAtOnce(now: int, n: nat) returns (actions: seq<Action>)
    requires n > 0
    ensures
      var last := Exec(Fresh(now), actions);
      && last.failures == Times(now, n) && last.key == Some(Attempts(1, now + WINDOW))
      && (n > LIMIT ==> !Spaced(last.failures))
  {
    actions := AllAsk(now, n);
    var k := 0;
    while k < n
      invariant k <= n && Answered(Exec(Fresh(now), actions), now, k, n)
    {
      ExecOneMore(Fresh(now), actions, Answer(k));
      assert Times(now, k) + [now] == Times(now, k + 1);
      actions := actions + [Answer(k)];
      k := k + 1;
    }
    if n > LIMIT {
      assert !SixHaveGap(Times(now, n), 0);
    }
  }

  // ── In turn ───────────────────────────────────────────────────

  predicate OneAtMost(s: System) {
    forall p, q :: p in s.pending && q in s.pending ==> p == q
  }

  predicate InTurn(s: System, actions: seq<Action>)
    decreases |actions|
  {
    OneAtMost(s) && (actions == [] || InTurn(Step(s, actions[0]), actions[1..]))
  }

  /** The counter is at least the current streak, alive for a window after its end; so is what
      a pending login has read, as long as its failure would lengthen the streak. */
  predicate CountsEnough(s: System) {
    var n := |s.failures|;
    && Streak(s.failures) <= LIMIT && Spaced(s.failures)
    && (n > 0 ==> s.failures[n - 1] <= s.now && s.key.Some? && s.key.value.count >= Streak(s.failures)
                  && s.key.value.expires == s.failures[n - 1] + WINDOW)
    && (forall p :: p in s.pending ==> s.pending[p].attempts < LIMIT
                                       && (n > 0 && s.now < s.failures[n - 1] + WINDOW
                                           ==> s.pending[p].attempts >= Streak(s.failures)))
  }

  lemma FailureCounts(s: System, p: nat)
    requires CountsEnough(s) && OneAtMost(s) && p in s.pending && !s.pending[p].correct
    ensures CountsEnough(Step(s, Answer(p)))
  {
    var next := Step(s, Answer(p));
    assert next.failures[..|s.failures|] == s.failures;
    assert Streak(next.failures) <= s.pending[p].attempts + 1;
    OneMoreStaysSpaced(s.failures, s.now);
    assert next.pending == map[];
  }

  lemma StepCounts(s: System, a: Action)
    requires CountsEnough(s) && OneAtMost(s)
    ensures CountsEnough(Step(s, a))
  {
    if a.Answer? && a.p in s.pending && !s.pending[a.p].correct {
      FailureCounts(s, a.p);
    }
  }

  lemma {:induction false} ExecCounts(s: System, actions: seq<Action>)
    requires CountsEnough(s) && InTurn(s, actions)
    ensures CountsEnough(Exec(s, actions))
    decreases |actions|
  {
    if actions != [] {
      StepCounts(s, actions[0]);
      ExecCounts(Step(s, actions[0]), actions[1..]);
    }
  }

  /** If no two logins of an email are ever under way together, then, however long each takes,
      of any six failed password checks with no success between some neighbouring pair is at
      least 300 seconds apart. */
  lemma SixFailuresInTurnTakeAWindow(now: int, actions: seq<Action>, i: nat)
    requires InTurn(Fresh(now), actions)
    requires i + 5 < |Exec(Fresh(now), actions).failures|
    ensures
      var failures := Exec(Fresh(now), actions).failures;
      exists j: nat :: i <= j < i + 5 && Apart(failures, j)
  {
    ExecCounts(Fresh(now), actions);
    assert SixHaveGap(Exec(Fresh(now), actions).failures, i);
  }
}
