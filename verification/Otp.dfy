/** One-time codes, reset tokens and the attempt counter of one email address in Redis. Each
    Redis command is one step; any number of senders, verifiers of both flows and password
    setters interleave, may die between two commands, and keys expire as time passes. */
module Otp {
  import opened Wrappers

  datatype Config = Config(ttl: nat, maxAttempts: nat)

  datatype Flow = Login | Reset

  /** `issue` numbers the codes as they are stored; the stored value is the digits only. */
  datatype Code = Code(issue: nat, digits: int, expires: int)

  datatype Counter = Counter(value: nat, expires: Option<int>)

  /** A running request, by the Redis command it sends next. */
  datatype Proc =
    | CheckRate(digits: int)
    | StoreCode(digits: int)
    | StoreCounter
    | StoreRate
    | Fetch(flow: Flow, guess: int)
    | Probe
    | Compare(flow: Flow, guess: int, issue: nat, digits: int)
    | Restore(issue: nat, digits: int)
    | ClearCounter(flow: Flow, issue: nat)
    | GrantToken(issue: nat)
    | TakeToken(token: nat)
    | Update(token: nat)

  /** The keys, the running requests, and history: how many codes were stored, which of them
      were matched, turned into a reset token and used for a password update, and comparisons
      since the counter was last reset and since a send last stored it, with what reset it in
      between. A reset token is named by the code it was granted for. */
  datatype Redis = Redis(
    now: int,
    code: Option<Code>,
    counter: Option<Counter>,
    rate: Option<int>,
    tokens: map<nat, int>,
    procs: map<nat, Proc>,
    issued: nat,
    matched: seq<nat>,
    granted: seq<nat>,
    updated: seq<nat>,
    compared: nat,
    comparedSinceSend: nat,
    expiredSinceSend: bool,
    clearedSinceSend: bool)

  function Fresh(now: int): Redis {
    Redis(now, None, None, None, map[], map[], 0, [], [], [], 0, 0, false, false)
  }

  datatype Action =
    | Send(p: nat, newDigits: int)
    | Verify(p: nat, mode: Flow, attempt: int)
    | SetPassword(p: nat, resetToken: nat)
    | Run(p: nat)
    | Die(p: nat)
    | Tick(seconds: nat)

  function RestoreTtl(cfg: Config): nat {
    if cfg.ttl > 30 then cfg.ttl else 30
  }

  /** INCR: a missing key starts at 1 and has no expiry. */
  function Incremented(c: Option<Counter>): Counter {
    match c
    case Some(before) => before.(value := before.value + 1)
    case None => Counter(1, None)
  }

  function Done(r: Redis, p: nat): Redis {
    r.(procs := r.procs - {p})
  }

  function Then(r: Redis, p: nat, next: Proc): Redis {
    r.(procs := r.procs[p := next])
  }

  function CompareStep(cfg: Config, r: Redis, p: nat, proc: Proc): Redis
    requires proc.Compare?
  {
    var counted := r.(counter := Some(Incremented(r.counter)));
    if counted.counter.value.value > cfg.maxAttempts then
      Then(counted, p, Restore(proc.issue, proc.digits))
    else
      var tried := counted.(compared := r.compared + 1, comparedSinceSend := r.comparedSinceSend + 1);
      if proc.guess != proc.digits then Then(tried, p, Restore(proc.issue, proc.digits))
      else Then(tried.(matched := r.matched + [proc.issue]), p, ClearCounter(proc.flow, proc.issue))
  }

  /** The next command of request `p`. */
  function RunOne(cfg: Config, r: Redis, p: nat): Redis {
    if p !in r.procs then r
    else
      match r.procs[p]
      case CheckRate(digits) => if r.rate.Some? then Done(r, p) else Then(r, p, StoreCode(digits))
      case StoreCode(digits) =>
        Then(r.(code := Some(Code(r.issued, digits, r.now + cfg.ttl)), issued := r.issued + 1), p, StoreCounter)
      case StoreCounter =>
        Then(r.(counter := Some(Counter(0, Some(r.now + cfg.ttl))), compared := 0, comparedSinceSend := 0,
                expiredSinceSend := false, clearedSinceSend := false), p, StoreRate)
      case StoreRate => Done(r.(rate := Some(r.now + 60)), p)
      case Fetch(flow, guess) =>
        if r.code.None? then Then(r, p, Probe)
        else Then(r.(code := None), p, Compare(flow, guess, r.code.value.issue, r.code.value.digits))
      case Probe => Done(r.(counter := Some(Incremented(r.counter))), p)
      case Compare(_, _, _, _) => CompareStep(cfg, r, p, r.procs[p])
      case Restore(issue, digits) => Done(r.(code := Some(Code(issue, digits, r.now + RestoreTtl(cfg)))), p)
      case ClearCounter(flow, issue) =>
        var cleared := r.(counter := None, compared := 0, clearedSinceSend := true);
        if flow == Login then Done(cleared, p) else Then(cleared, p, GrantToken(issue))
      case GrantToken(issue) =>
        Done(r.(tokens := r.tokens[issue := r.now + cfg.ttl], granted := r.granted + [issue]), p)
      case TakeToken(token) =>
        if token in r.tokens then Then(r.(tokens := r.tokens - {token}), p, Update(token)) else Done(r, p)
      case Update(token) => Done(r.(updated := r.updated + [token]), p)
  }

  predicate CounterExpires(r: Redis, now: int) {
    r.counter.Some? && r.counter.value.expires.Some? && r.counter.value.expires.value <= now
  }

  function Elapse(r: Redis, seconds: nat): Redis {
    var now := r.now + seconds;
    var aged := r.(
      now := now,
      code := if r.code.Some? && r.code.value.expires <= now then None else r.code,
      rate := if r.rate.Some? && r.rate.value <= now then None else r.rate,
      tokens := map t | t in r.tokens && r.tokens[t] > now :: r.tokens[t]);
    if CounterExpires(r, now) then aged.(counter := None, compared := 0, expiredSinceSend := true) else aged
  }

  function Step(cfg: Config, r: Redis, a: Action): Redis {
    match a
    case Send(p, digits) => if p in r.procs then r else Then(r, p, CheckRate(digits))
    case Verify(p, flow, guess) => if p in r.procs then r else Then(r, p, Fetch(flow, guess))
    case SetPassword(p, token) => if p in r.procs then r else Then(r, p, TakeToken(token))
    case Run(p) => RunOne(cfg, r, p)
    case Die(p) => Done(r, p)
    case Tick(seconds) => Elapse(r, seconds)
  }

  function Exec(cfg: Config, r: Redis, actions: seq<Action>): Redis
    decreases |actions|
  {
    if actions == [] then r else Exec(cfg, Step(cfg, r, actions[0]), actions[1..])
  }

  lemma {:induction false} ExecConcat(cfg: Config, r: Redis, actions: seq<Action>, more: seq<Action>)
    ensures Exec(cfg, r, actions + more) == Exec(cfg, Exec(cfg, r, actions), more)
    decreases |actions|
  {
    if actions == [] {
      assert actions + more == more;
    } else {
      assert (actions + more)[1..] == actions[1..] + more;
      ExecConcat(cfg, Step(cfg, r, actions[0]), actions[1..], more);
    }
  }

  lemma ExecOneMore(cfg: Config, r: Redis, actions: seq<Action>, a: Action)
    ensures Exec(cfg, r, actions + [a]) == Step(cfg, Exec(cfg, r, actions), a)
  {
    ExecConcat(cfg, r, actions, [a]);
    assert [a][1..] == [];
  }

  // ── A code is a linear resource ───────────────────────────────

  predicate NoDuplicates(ids: seq<nat>) {
    forall i, j :: 0 <= i < j < |ids| ==> ids[i] != ids[j]
  }

  predicate AllIn(ids: seq<nat>, others: seq<nat>) {
    forall i :: 0 <= i < |ids| ==> ids[i] in others
  }

  /** The issue a request has taken out of the key. */
  function Held(proc: Proc): Option<nat> {
    match proc
    case Compare(_, _, issue, _) => Some(issue)
    case Restore(issue, _) => Some(issue)
    case _ => None
  }

  /** The matched code a request has still to turn into a reset token. */
  function Owed(proc: Proc): Option<nat> {
    match proc
    case ClearCounter(flow, issue) => if flow == Reset then Some(issue) else None
    case GrantToken(issue) => Some(issue)
    case _ => None
  }

  function Spending(proc: Proc): Option<nat> {
    match proc
    case Update(token) => Some(token)
    case _ => None
  }

  /** Each stored code is in the key, or with one request, or matched: never in two places. */
  ghost predicate CodesLinear(r: Redis) {
    && (forall i :: 0 <= i < |r.matched| ==> r.matched[i] < r.issued)
    && NoDuplicates(r.matched)
    && (r.code.Some? ==> r.code.value.issue < r.issued && r.code.value.issue !in r.matched)
    && (forall p :: p in r.procs && Held(r.procs[p]).Some? ==>
          var issue := Held(r.procs[p]).value;
          issue < r.issued && issue !in r.matched && (r.code.Some? ==> r.code.value.issue != issue))
    && (forall p, q :: p in r.procs && q in r.procs && p != q && Held(r.procs[p]).Some? ==>
          Held(r.procs[p]) != Held(r.procs[q]))
  }

  ghost predicate TokensLinear(r: Redis) {
    && AllIn(r.granted, r.matched) && NoDuplicates(r.granted)
    && (forall p :: p in r.procs && Owed(r.procs[p]).Some? ==>
          Owed(r.procs[p]).value in r.matched && Owed(r.procs[p]).value !in r.granted)
    && (forall p, q :: p in r.procs && q in r.procs && p != q && Owed(r.procs[p]).Some? ==>
          Owed(r.procs[p]) != Owed(r.procs[q]))
  }

  ghost predicate UpdatesLinear(r: Redis) {
    && AllIn(r.updated, r.granted) && NoDuplicates(r.updated)
    && (forall t :: t in r.tokens ==> t in r.granted && t !in r.updated)
    && (forall p :: p in r.procs && Spending(r.procs[p]).Some? ==>
          var token := Spending(r.procs[p]).value;
          token in r.granted && token !in r.updated && token !in r.tokens)
    && (forall p, q :: p in r.procs && q in r.procs && p != q && Spending(r.procs[p]).Some? ==>
          Spending(r.procs[p]) != Spending(r.procs[q]))
  }

  /** Requests other than `p` are as before, or gone. */
  predicate OnlyProc(r: Redis, next: Redis, p: nat) {
    forall q :: q in next.procs && q != p ==> q in r.procs && next.procs[q] == r.procs[q]
  }

  function HeldBy(r: Redis, p: nat): Option<nat> {
    if p in r.procs then Held(r.procs[p]) else None
  }

  function OwedBy(r: Redis, p: nat): Option<nat> {
    if p in r.procs then Owed(r.procs[p]) else None
  }

  function SpentBy(r: Redis, p: nat): Option<nat> {
    if p in r.procs then Spending(r.procs[p]) else None
  }

  function Key(r: Redis): Option<nat> {
    if r.code.Some? then Some(r.code.value.issue) else None
  }

  /** The ways a code moves. */
  predicate CodeMove(r: Redis, next: Redis, p: nat) {
    || // it stays where it is or is lost
       (next.issued == r.issued && next.matched == r.matched && (Key(next) == Key(r) || Key(next) == None)
        && (HeldBy(next, p) == HeldBy(r, p) || HeldBy(next, p) == None))
    || // a new one is stored over the old
       (next.issued == r.issued + 1 && next.matched == r.matched && Key(next) == Some(r.issued) && HeldBy(next, p) == None)
    || // taken out of the key
       (next.issued == r.issued && next.matched == r.matched && Key(next) == None && HeldBy(next, p) == Key(r))
    || // put back over whatever is there
       (next.issued == r.issued && next.matched == r.matched && HeldBy(next, p) == None && HeldBy(r, p).Some?
        && Key(next) == HeldBy(r, p))
    || // matched
       (next.issued == r.issued && Key(next) == Key(r) && HeldBy(next, p) == None && HeldBy(r, p).Some?
        && next.matched == r.matched + [HeldBy(r, p).value])
  }

  lemma MoveKeepsCodesLinear(r: Redis, next: Redis, p: nat)
    requires CodesLinear(r) && OnlyProc(r, next, p) && CodeMove(r, next, p)
    ensures CodesLinear(next)
  {}

  function Actor(a: Action): nat {
    match a
    case Send(p, _) => p
    case Verify(p, _, _) => p
    case SetPassword(p, _) => p
    case Run(p) => p
    case Die(p) => p
    case Tick(_) => 0
  }

  /** A command moves its own request on, or ends it. */
  lemma RunReplacesOneProc(cfg: Config, r: Redis, p: nat)
    requires p in r.procs
    ensures
      var procs := RunOne(cfg, r, p).procs;
      procs == r.procs - {p} || (p in procs && procs == r.procs[p := procs[p]])
  {
    match r.procs[p]
    case CheckRate(_) =>
    case StoreCode(_) =>
    case StoreCounter =>
    case StoreRate =>
    case Fetch(_, _) =>
    case Probe =>
    case Compare(_, _, _, _) =>
    case Restore(_, _) =>
    case ClearCounter(_, _) =>
    case GrantToken(_) =>
    case TakeToken(_) =>
    case Update(_) =>
  }

  lemma StepTouchesOneProc(cfg: Config, r: Redis, a: Action)
    ensures OnlyProc(r, Step(cfg, r, a), Actor(a))
  {
    if a.Run? && a.p in r.procs {
      RunReplacesOneProc(cfg, r, a.p);
    }
  }

  lemma CompareMovesCode(cfg: Config, r: Redis, p: nat)
    requires p in r.procs && r.procs[p].Compare?
    ensures CodeMove(r, RunOne(cfg, r, p), p)
  {}

  lemma RunMovesCode(cfg: Config, r: Redis, p: nat)
    requires p in r.procs
    ensures CodeMove(r, RunOne(cfg, r, p), p)
  {
    match r.procs[p]
    case CheckRate(_) =>
    case StoreCode(_) =>
    case StoreCounter =>
    case StoreRate =>
    case Fetch(_, _) =>
    case Probe =>
    case Compare(_, _, _, _) => CompareMovesCode(cfg, r, p);
    case Restore(_, _) =>
    case ClearCounter(_, _) =>
    case GrantToken(_) =>
    case TakeToken(_) =>
    case Update(_) =>
  }

  lemma StepMovesCode(cfg: Config, r: Redis, a: Action)
    ensures CodeMove(r, Step(cfg, r, a), Actor(a))
  {
    if a.Run? && a.p in r.procs {
      RunMovesCode(cfg, r, a.p);
    }
  }

  /** The ways a matched code becomes a reset token. */
  predicate GrantMove(r: Redis, next: Redis, p: nat) {
    || // nothing is granted and nothing becomes due
       (next.granted == r.granted && r.matched <= next.matched
        && (OwedBy(next, p) == OwedBy(r, p) || OwedBy(next, p) == None))
    || // a match makes one due
       (next.granted == r.granted && HeldBy(r, p).Some? && OwedBy(next, p) == HeldBy(r, p)
        && next.matched == r.matched + [HeldBy(r, p).value])
    || // granted
       (next.matched == r.matched && OwedBy(next, p) == None && OwedBy(r, p).Some?
        && next.granted == r.granted + [OwedBy(r, p).value])
  }

  lemma MoveKeepsTokensLinear(r: Redis, next: Redis, p: nat)
    requires CodesLinear(r) && TokensLinear(r) && OnlyProc(r, next, p) && GrantMove(r, next, p)
    ensures TokensLinear(next)
  {
    assert forall x :: x in r.matched ==> x in next.matched;
    forall q | q in next.procs && Owed(next.procs[q]).Some?
      ensures Owed(next.procs[q]).value in next.matched && Owed(next.procs[q]).value !in next.granted
    {
      if HeldBy(r, p).Some? { assert HeldBy(r, p).value !in r.matched; }
    }
  }

  lemma CompareMovesGrant(cfg: Config, r: Redis, p: nat)
    requires p in r.procs && r.procs[p].Compare?
    ensures GrantMove(r, RunOne(cfg, r, p), p)
  {}

  lemma RunMovesGrant(cfg: Config, r: Redis, p: nat)
    requires p in r.procs
    ensures GrantMove(r, RunOne(cfg, r, p), p)
  {
    match r.procs[p]
    case CheckRate(_) =>
    case StoreCode(_) =>
    case StoreCounter =>
    case StoreRate =>
    case Fetch(_, _) =>
    case Probe =>
    case Compare(_, _, _, _) => CompareMovesGrant(cfg, r, p);
    case Restore(_, _) =>
    case ClearCounter(_, _) =>
    case GrantToken(_) =>
    case TakeToken(_) =>
    case Update(_) =>
  }

  lemma StepMovesGrant(cfg: Config, r: Redis, a: Action)
    ensures GrantMove(r, Step(cfg, r, a), Actor(a))
  {
    if a.Run? && a.p in r.procs {
      RunMovesGrant(cfg, r, a.p);
    }
  }

  /** The ways a reset token becomes a password update. */
  predicate SpendMove(r: Redis, next: Redis, p: nat) {
    || // nothing is spent or taken; tokens may expire
       (next.updated == r.updated && next.granted == r.granted && next.tokens.Keys <= r.tokens.Keys
        && (SpentBy(next, p) == SpentBy(r, p) || SpentBy(next, p) == None))
    || // granted
       (next.updated == r.updated && OwedBy(r, p).Some? && SpentBy(next, p) == None
        && next.granted == r.granted + [OwedBy(r, p).value] && next.tokens.Keys == r.tokens.Keys + {OwedBy(r, p).value})
    || // taken
       (next.updated == r.updated && next.granted == r.granted && SpentBy(next, p).Some?
        && SpentBy(next, p).value in r.tokens && next.tokens == r.tokens - {SpentBy(next, p).value})
    || // spent
       (next.granted == r.granted && next.tokens == r.tokens && SpentBy(next, p) == None && SpentBy(r, p).Some?
        && next.updated == r.updated + [SpentBy(r, p).value])
  }

  lemma MoveKeepsUpdatesLinear(r: Redis, next: Redis, p: nat)
    requires TokensLinear(r) && UpdatesLinear(r) && OnlyProc(r, next, p) && SpendMove(r, next, p)
    ensures UpdatesLinear(next)
  {
    assert forall x :: x in r.granted ==> x in next.granted;
    if OwedBy(r, p).Some? {
      assert OwedBy(r, p).value !in r.granted && OwedBy(r, p).value !in r.updated;
    }
  }

  lemma CompareMovesSpending(cfg: Config, r: Redis, p: nat)
    requires p in r.procs && r.procs[p].Compare?
    ensures SpendMove(r, RunOne(cfg, r, p), p)
  {}

  lemma RunMovesSpending(cfg: Config, r: Redis, p: nat)
    requires p in r.procs
    ensures SpendMove(r, RunOne(cfg, r, p), p)
  {
    match r.procs[p]
    case CheckRate(_) =>
    case StoreCode(_) =>
    case StoreCounter =>
    case StoreRate =>
    case Fetch(_, _) =>
    case Probe =>
    case Compare(_, _, _, _) => CompareMovesSpending(cfg, r, p);
    case Restore(_, _) =>
    case ClearCounter(_, _) =>
    case GrantToken(issue) => assert r.tokens[issue := r.now + cfg.ttl].Keys == r.tokens.Keys + {issue};
    case TakeToken(_) =>
    case Update(_) =>
  }

  lemma StepMovesSpending(cfg: Config, r: Redis, a: Action)
    ensures SpendMove(r, Step(cfg, r, a), Actor(a))
  {
    if a.Run? && a.p in r.procs {
      RunMovesSpending(cfg, r, a.p);
    }
  }

  ghost predicate Linear(r: Redis) {
    CodesLinear(r) && TokensLinear(r) && UpdatesLinear(r)
  }

  lemma StepKeepsLinear(cfg: Config, r: Redis, a: Action)
    requires Linear(r)
    ensures Linear(Step(cfg, r, a))
  {
    var next, p := Step(cfg, r, a), Actor(a);
    StepTouchesOneProc(cfg, r, a);
    StepMovesCode(cfg, r, a);
    StepMovesGrant(cfg, r, a);
    StepMovesSpending(cfg, r, a);
    MoveKeepsCodesLinear(r, next, p);
    MoveKeepsTokensLinear(r, next, p);
    MoveKeepsUpdatesLinear(r, next, p);
  }

  lemma {:induction false} ExecKeepsLinear(cfg: Config, r: Redis, actions: seq<Action>)
    requires Linear(r)
    ensures Linear(Exec(cfg, r, actions))
    decreases |actions|
  {
    if actions != [] {
      StepKeepsLinear(cfg, r, actions[0]);
      ExecKeepsLinear(cfg, Step(cfg, r, actions[0]), actions[1..]);
    }
  }

  /** Where issue `id` is at a moment: with the key, with request `p`, or matched. */
  predicate InKey(r: Redis, id: nat) {
    Key(r) == Some(id)
  }

  /** An issued code is in at most one place: the key, one request in flight, or matched, and
      it is matched at most once over both verify flows. */
  lemma CodeIsInOnePlace(cfg: Config, now: int, actions: seq<Action>, id: nat, p: nat, q: nat)
    ensures
      var r := Exec(cfg, Fresh(now), actions);
      && (InKey(r, id) ==> HeldBy(r, p) != Some(id) && id !in r.matched)
      && (HeldBy(r, p) == Some(id) ==> id !in r.matched && (HeldBy(r, q) == Some(id) ==> p == q))
      && NoDuplicates(r.matched)
  {
    ExecKeepsLinear(cfg, Fresh(now), actions);
  }

  lemma {:induction false} DistinctInBound(ids: seq<nat>, n: nat)
    requires NoDuplicates(ids) && forall i :: 0 <= i < |ids| ==> ids[i] < n
    ensures |ids| <= n
    decreases n
  {
    assert ids == [] || ids[0] < n;
    if ids != [] {
      if n - 1 in ids {
        var k :| 0 <= k < |ids| && ids[k] == n - 1;
        var rest := ids[..k] + ids[k + 1..];
        forall i, j | 0 <= i < j < |rest|
          ensures rest[i] != rest[j]
        {
          var a, b := if i < k then i else i + 1, if j < k then j else j + 1;
          assert rest[i] == ids[a] && rest[j] == ids[b];
        }
        DistinctInBound(rest, n - 1);
      } else {
        DistinctInBound(ids, n - 1);
      }
    }
  }

  lemma {:induction false} DistinctAmong(ids: seq<nat>, others: seq<nat>)
    requires NoDuplicates(ids) && AllIn(ids, others)
    ensures |ids| <= |others|
    decreases |others|
  {
    assert ids == [] || ids[0] in others;
    if others != [] {
      var last := others[0];
      if last in ids {
        var k :| 0 <= k < |ids| && ids[k] == last;
        var rest := ids[..k] + ids[k + 1..];
        forall i | 0 <= i < |rest|
          ensures rest[i] in others[1..]
          ensures forall j :: i < j < |rest| ==> rest[i] != rest[j]
        {
          var a := if i < k then i else i + 1;
          assert rest[i] == ids[a] && ids[a] in others;
        }
        DistinctAmong(rest, others[1..]);
      } else {
        forall i | 0 <= i < |ids|
          ensures ids[i] in others[1..]
        {
          assert ids[i] in others;
        }
        DistinctAmong(ids, others[1..]);
      }
    }
  }

  /** Password updates are among the reset tokens granted, these among the codes matched, these
      among the codes issued, and none of them repeats; so their numbers are in that order. */
  lemma UpdatesBoundedByCodes(cfg: Config, now: int, actions: seq<Action>)
    ensures
      var r := Exec(cfg, Fresh(now), actions);
      && NoDuplicates(r.updated) && AllIn(r.updated, r.granted)
      && NoDuplicates(r.granted) && AllIn(r.granted, r.matched)
      && NoDuplicates(r.matched) && (forall i :: 0 <= i < |r.matched| ==> r.matched[i] < r.issued)
      && |r.updated| <= |r.granted| <= |r.matched| <= r.issued
  {
    ExecKeepsLinear(cfg, Fresh(now), actions);
    var r := Exec(cfg, Fresh(now), actions);
    DistinctAmong(r.updated, r.granted);
    DistinctAmong(r.granted, r.matched);
    DistinctInBound(r.matched, r.issued);
  }

  // ── Comparisons per counter reset ─────────────────────────────

  function Count(r: Redis): nat {
    if r.counter.Some? then r.counter.value.value else 0
  }

  /** Only a send gives the counter an expiry, so it expires at most once after each. */
  predicate Metered(cfg: Config, r: Redis) {
    var reset := r.expiredSinceSend || r.clearedSinceSend;
    && r.compared <= Count(r) && r.compared <= cfg.maxAttempts
    && (!reset ==> r.comparedSinceSend == r.compared)
    && (!r.clearedSinceSend ==> r.comparedSinceSend <= cfg.maxAttempts + r.compared)
    && (reset ==> r.counter.Some? ==> r.counter.value.expires == None)
  }

  /** Only sends, probes, comparisons and clearing touch the counter. */
  predicate CounterMove(cfg: Config, r: Redis, next: Redis) {
    || // untouched
       (next.counter == r.counter && next.compared == r.compared && next.comparedSinceSend == r.comparedSinceSend
        && next.expiredSinceSend == r.expiredSinceSend && next.clearedSinceSend == r.clearedSinceSend)
    || // stored by a send
       (next.compared == next.comparedSinceSend == 0 && !next.expiredSinceSend && !next.clearedSinceSend)
    || // counted up, with a comparison only within the limit
       (next.counter == Some(Incremented(r.counter))
        && next.expiredSinceSend == r.expiredSinceSend && next.clearedSinceSend == r.clearedSinceSend
        && (if next.compared == r.compared then next.comparedSinceSend == r.comparedSinceSend
            else next.compared == r.compared + 1 && next.comparedSinceSend == r.comparedSinceSend + 1
                 && Count(next) <= cfg.maxAttempts))
    || // cleared by a success
       (next.counter == None && next.compared == 0 && next.clearedSinceSend)
    || // expired
       (CounterExpires(r, next.now) && next.counter == None && next.compared == 0 && next.expiredSinceSend
        && next.comparedSinceSend == r.comparedSinceSend && next.clearedSinceSend == r.clearedSinceSend)
  }

  lemma CompareMovesCounter(cfg: Config, r: Redis, p: nat)
    requires p in r.procs && r.procs[p].Compare?
    ensures CounterMove(cfg, r, RunOne(cfg, r, p))
  {}

  lemma RunMovesCounter(cfg: Config, r: Redis, p: nat)
    requires p in r.procs
    ensures CounterMove(cfg, r, RunOne(cfg, r, p))
  {
    match r.procs[p]
    case CheckRate(_) =>
    case StoreCode(_) =>
    case StoreCounter =>
    case StoreRate =>
    case Fetch(_, _) =>
    case Probe =>
    case Compare(_, _, _, _) => CompareMovesCounter(cfg, r, p);
    case Restore(_, _) =>
    case ClearCounter(_, _) =>
    case GrantToken(_) =>
    case TakeToken(_) =>
    case Update(_) =>
  }

  lemma StepMovesCounter(cfg: Config, r: Redis, a: Action)
    ensures CounterMove(cfg, r, Step(cfg, r, a))
  {
    if a.Run? && a.p in r.procs {
      RunMovesCounter(cfg, r, a.p);
    }
  }

  lemma MoveKeepsMetered(cfg: Config, r: Redis, next: Redis)
    requires Metered(cfg, r) && CounterMove(cfg, r, next)
    ensures Metered(cfg, next)
  {}

  lemma StepKeepsMetered(cfg: Config, r: Redis, a: Action)
    requires Metered(cfg, r)
    ensures Metered(cfg, Step(cfg, r, a))
  {
    StepMovesCounter(cfg, r, a);
    MoveKeepsMetered(cfg, r, Step(cfg, r, a));
  }

  lemma {:induction false} ExecKeepsMetered(cfg: Config, r: Redis, actions: seq<Action>)
    requires Metered(cfg, r)
    ensures Metered(cfg, Exec(cfg, r, actions))
    decreases |actions|
  {
    if actions != [] {
      StepKeepsMetered(cfg, r, actions[0]);
      ExecKeepsMetered(cfg, Step(cfg, r, actions[0]), actions[1..]);
    }
  }

  /** Between two resets of the counter at most `maxAttempts` comparisons are made, of whatever
      codes, whoever verifies and however often a code is put back. Since a send last stored
      the counter, with no success in between, they are `maxAttempts` while the counter lives
      and at most twice that once it has expired. Comparisons of one code over several sends
      are another matter: see `OtpLimits`. */
  lemma GuessesAreBounded(cfg: Config, now: int, actions: seq<Action>)
    ensures
      var r := Exec(cfg, Fresh(now), actions);
      && r.compared <= cfg.maxAttempts
      && (!r.clearedSinceSend && !r.expiredSinceSend ==> r.comparedSinceSend <= cfg.maxAttempts)
      && (!r.clearedSinceSend ==> r.comparedSinceSend <= 2 * cfg.maxAttempts)
  {
    ExecKeepsMetered(cfg, Fresh(now), actions);
  }
}
