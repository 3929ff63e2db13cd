/** The login throttle: `login:attempts:<email>` counts failed password checks under a
    five-minute expiry that every failure renews. */
module LoginThrottle {
  import opened Wrappers

  const WINDOW := 300
  const LIMIT := 5

  datatype Attempts = Attempts(count: nat, expires: int)

  /** A login call: when, whether the account exists with a password, whether it matches. */
  datatype Call = Call(at: int, known: bool, correct: bool)

  datatype Verdict = Refused | Unknown | Failed | Succeeded

  function Live(key: Option<Attempts>, now: int): nat {
    if key.Some? && now < key.value.expires then key.value.count else 0
  }

  function VerdictOf(key: Option<Attempts>, c: Call): Verdict {
    if Live(key, c.at) >= LIMIT then Refused
    else if !c.known then Unknown
    else if !c.correct then Failed
    else Succeeded
  }

  function KeyAfter(key: Option<Attempts>, c: Call): Option<Attempts> {
    match VerdictOf(key, c)
    case Failed => Some(Attempts(Live(key, c.at) + 1, c.at + WINDOW))
    case Succeeded => None
    case _ => key
  }

  /** Five failures within five minutes of one another refuse every further login, right or
      wrong, until five minutes after the last; anybody else is judged by account and password. */
  lemma VerdictMeans(key: Option<Attempts>, c: Call)
    ensures
      var refused := key.Some? && c.at < key.value.expires && key.value.count >= 5;
      VerdictOf(key, c) == if refused then Refused else if !c.known then Unknown else if c.correct then Succeeded else Failed
    ensures
      var count := if key.Some? && c.at < key.value.expires then key.value.count else 0;
      KeyAfter(key, c) ==
      if VerdictOf(key, c) == Failed then Some(Attempts(count + 1, c.at + 300))
      else if VerdictOf(key, c) == Succeeded then None
      else key
  {}

  class Throttle {
    var key: Option<Attempts>

    constructor ()
      ensures key == None
    {
      key := None;
    }

    method Login(c: Call) returns (verdict: Verdict)
      modifies this
      ensures verdict == VerdictOf(old(key), c) && key == KeyAfter(old(key), c)
      ensures verdict == Refused <==> old(key).Some? && c.at < old(key).value.expires && old(key).value.count >= 5
      ensures verdict == Unknown <==> verdict != Refused && !c.known
      ensures verdict == Succeeded <==> verdict != Refused && c.known && c.correct
      ensures verdict == Succeeded ==> key == None
      ensures verdict == Failed ==>
                key == Some(Attempts(
                  if old(key).Some? && c.at < old(key).value.expires then old(key).value.count + 1 else 1, c.at + 300))
      ensures verdict == Refused || verdict == Unknown ==> key == old(key)
    {
      var attempts := 0;
      if key.Some? && c.at < key.value.expires {
        attempts := key.value.count;
      }
      if attempts >= LIMIT { return Refused; }
      if !c.known { return Unknown; }
      if !c.correct {
        key := Some(Attempts(attempts + 1, c.at + 300));
        return Failed;
      }
      key := None;
      return Succeeded;
    }
  }

  /** The throttle after some calls, with the times of the failed password checks since the
      last success. */
  datatype Trace = Trace(key: Option<Attempts>, failures: seq<int>)

  function Observe(t: Trace, c: Call): Trace {
    Trace(
      KeyAfter(t.key, c),
      match VerdictOf(t.key, c)
      case Failed => t.failures + [c.at]
      case Succeeded => []
      case _ => t.failures)
  }

  function Run(t: Trace, calls: seq<Call>): Trace
    decreases |calls|
  {
    if calls == [] then t else Run(Observe(t, calls[0]), calls[1..])
  }

  predicate InTimeOrder(now: int, calls: seq<Call>)
    decreases |calls|
  {
    calls == [] || (now <= calls[0].at && InTimeOrder(calls[0].at, calls[1..]))
  }

  /** How many of the last failures lie less than a window after the one before. */
  function Streak(failures: seq<int>): nat {
    var n := |failures|;
    if n == 0 then 0
    else if n == 1 || failures[n - 1] - failures[n - 2] >= WINDOW then 1
    else 1 + Streak(failures[..n - 1])
  }

  /** The counter is the length of the current streak, alive for a window after its end. */
  predicate CountsStreak(t: Trace, now: int) {
    && Streak(t.failures) <= LIMIT
    && (if t.failures == [] then t.key == None
        else t.key == Some(Attempts(Streak(t.failures), t.failures[|t.failures| - 1] + WINDOW))
             && t.failures[|t.failures| - 1] <= now)
  }

  /** Failure `j` and the next one are at least a window apart. */
  predicate Apart(failures: seq<int>, j: nat)
    requires j + 1 < |failures|
  {
    failures[j + 1] - failures[j] >= WINDOW
  }

  /** Among the six failures from number `i` on, two neighbours are apart. */
  predicate SixHaveGap(failures: seq<int>, i: nat)
    requires i + LIMIT < |failures|
  {
    exists j: nat :: i <= j < i + LIMIT && Apart(failures, j)
  }

  predicate Spaced(failures: seq<int>) {
    forall i: nat :: i + LIMIT < |failures| ==> SixHaveGap(failures, i)
  }

  lemma {:induction false} CloseRunMakesStreak(failures: seq<int>, k: nat)
    requires k < |failures|
    requires forall j: nat :: |failures| - 1 - k <= j < |failures| - 1 ==> !Apart(failures, j)
    ensures Streak(failures) >= k + 1
    decreases k
  {
    if k > 0 {
      var n := |failures|;
      assert !Apart(failures, n - 2);
      var shorter := failures[..n - 1];
      forall j: nat | |shorter| - k <= j < |shorter| - 1
        ensures !Apart(shorter, j)
      {
        assert !Apart(failures, j);
      }
      CloseRunMakesStreak(shorter, k - 1);
    }
  }

  lemma OneMoreStaysSpaced(failures: seq<int>, at: int)
    requires Spaced(failures) && Streak(failures + [at]) <= LIMIT
    ensures Spaced(failures + [at])
  {
    var next := failures + [at];
    forall i: nat | i + LIMIT < |next|
      ensures SixHaveGap(next, i)
    {
      if i + LIMIT < |failures| {
        assert SixHaveGap(failures, i);
        var j: nat :| i <= j < i + LIMIT && Apart(failures, j);
        assert Apart(next, j);
      } else if !SixHaveGap(next, i) {
        CloseRunMakesStreak(next, LIMIT);
      }
    }
  }

  lemma ObserveKeepsCount(t: Trace, c: Call, now: int)
    requires CountsStreak(t, now) && Spaced(t.failures) && now <= c.at
    ensures CountsStreak(Observe(t, c), c.at) && Spaced(Observe(t, c).failures)
  {
    if VerdictOf(t.key, c) == Failed {
      assert (t.failures + [c.at])[..|t.failures|] == t.failures;
      OneMoreStaysSpaced(t.failures, c.at);
    }
  }

  lemma {:induction false} RunKeepsCount(t: Trace, calls: seq<Call>, now: int)
    requires CountsStreak(t, now) && Spaced(t.failures) && InTimeOrder(now, calls)
    ensures Spaced(Run(t, calls).failures)
    decreases |calls|
  {
    if calls != [] {
      ObserveKeepsCount(t, calls[0], now);
      RunKeepsCount(Observe(t, calls[0]), calls[1..], calls[0].at);
    }
  }

  /** Logins one after another: of any six failed password checks with no success between, some
      neighbouring pair is at least 300 seconds apart, whatever refused calls lie between. */
  lemma SixFailuresTakeAWindow(calls: seq<Call>, now: int, i: nat)
    requires InTimeOrder(now, calls)
    requires i + 5 < |Run(Trace(None, []), calls).failures|
    ensures
      var failures := Run(Trace(None, []), calls).failures;
      exists j: nat :: i <= j < i + 5 && Apart(failures, j)
  {
    RunKeepsCount(Trace(None, []), calls, now);
    assert SixHaveGap(Run(Trace(None, []), calls).failures, i);
  }
}
