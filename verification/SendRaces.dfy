/** How close together codes can be sent. The rate key is checked first and stored last, so two
    sends under way at once can both pass; sends that take turns are a minute apart. */
module SendRaces {
  import opened Wrappers
  import opened Otp
  import opened OtpTimes

  // ── Two at once ───────────────────────────────────────────────

  lemma BothCheck(cfg: Config, now: int, digits: int) returns (actions: seq<Action>)
    ensures Exec(cfg, Fresh(now), actions) == Fresh(now).(procs := map[0 := StoreCode(digits), 1 := StoreCode(digits)])
  {
    var r := Fresh(now);
    var r1 := r.(procs := map[0 := CheckRate(digits)]);
    var r2 := r.(procs := map[0 := CheckRate(digits), 1 := CheckRate(digits)]);
    var r3 := r.(procs := map[0 := StoreCode(digits), 1 := CheckRate(digits)]);
    var r4 := r.(procs := map[0 := StoreCode(digits), 1 := StoreCode(digits)]);
    assert Step(cfg, r, Send(0, digits)) == r1;
    ExecOneMore(cfg, r, [], Send(0, digits));
    actions := [] + [Send(0, digits)];
    assert r1.procs[1 := CheckRate(digits)] == r2.procs;
    assert Step(cfg, r1, Send(1, digits)) == r2;
    ExecOneMore(cfg, r, actions, Send(1, digits));
    actions := actions + [Send(1, digits)];
    assert r2.procs[0 := StoreCode(digits)] == r3.procs;
    assert Step(cfg, r2, Run(0)) == r3;
    ExecOneMore(cfg, r, actions, Run(0));
    actions := actions + [Run(0)];
    assert r3.procs[1 := StoreCode(digits)] == r4.procs;
    assert Step(cfg, r3, Run(1)) == r4;
    ExecOneMore(cfg, r, actions, Run(1));
    actions := actions + [Run(1)];
  }

  /** A send past its check goes through to its end, whatever the rate key says. */
  lemma PassedSendGoesThrough(cfg: Config, r: Redis, actions: seq<Action>, p: nat) returns (more: seq<Action>)
    requires p in Exec(cfg, r, actions).procs && Exec(cfg, r, actions).procs[p].StoreCode?
    ensures
      var before, last := Exec(cfg, r, actions), Exec(cfg, r, more);
      && last.issued == before.issued + 1 && last.now == before.now && last.procs == before.procs - {p}
  {
    var r0 := Exec(cfg, r, actions);
    ExecOneMore(cfg, r, actions, Run(p));
    var r1 := Step(cfg, r0, Run(p));
    assert r1.procs == r0.procs[p := StoreCounter];
    more := actions + [Run(p)];
    ExecOneMore(cfg, r, more, Run(p));
    var r2 := Step(cfg, r1, Run(p));
    assert r2.procs == r0.procs[p := StoreRate];
    more := more + [Run(p)];
    ExecOneMore(cfg, r, more, Run(p));
    assert Step(cfg, r2, Run(p)).procs == r0.procs - {p};
    more := more + [Run(p)];
  }

  /** Two sends that both check before either has stored the rate key both send a code, in one
      and the same second. */
  lemma TwoSendsAtOnce(cfg: Config, now: int, digits: int) returns (actions: seq<Action>)
    ensures
      var last := Exec(cfg, Fresh(now), actions);
      last.issued == 2 && last.now == now && last.procs == map[]
  {
    actions := BothCheck(cfg, now, digits);
    actions := PassedSendGoesThrough(cfg, Fresh(now), actions, 0);
    actions := PassedSendGoesThrough(cfg, Fresh(now), actions, 1);
  }

  // ── In turn ───────────────────────────────────────────────────

  predicate Sends(proc: Proc) {
    proc.CheckRate? || proc.StoreCode? || proc.StoreCounter? || proc.StoreRate?
  }

  predicate OneSendAtMost(r: Redis) {
    forall p, q :: p in r.procs && q in r.procs && p != q && Sends(r.procs[p]) ==> !Sends(r.procs[q])
  }

  /** No two sends are ever under way together, and none dies on the way. */
  predicate SendingInTurn(cfg: Config, r: Redis, actions: seq<Action>)
    decreases |actions|
  {
    && OneSendAtMost(r)
    && (actions == [] ||
        (&& !(actions[0].Die? && actions[0].p in r.procs && Sends(r.procs[actions[0].p]))
         && SendingInTurn(cfg, Step(cfg, r, actions[0]), actions[1..])))
  }

  predicate StoresCode(r: Redis, a: Action) {
    a.Run? && a.p in r.procs && r.procs[a.p].StoreCode?
  }

  function LastStore(r: Redis, a: Action, last: Option<int>): Option<int> {
    if StoresCode(r, a) then Some(r.now) else last
  }

  /** Every code is stored at least a minute after the one before. */
  predicate AMinuteApart(cfg: Config, r: Redis, actions: seq<Action>, last: Option<int>)
    decreases |actions|
  {
    actions == [] ||
    (&& (StoresCode(r, actions[0]) && last.Some? ==> r.now >= last.value + 60)
     && AMinuteApart(cfg, Step(cfg, r, actions[0]), actions[1..], LastStore(r, actions[0], last)))
  }

  predicate Finishing(proc: Proc) {
    proc.StoreCounter? || proc.StoreRate?
  }

  /** Since the code of second `last` its send is still finishing, or the rate key holds out for
      the minute, or the minute is over; and it is over for whoever has passed the check. */
  predicate Guarded(r: Redis, last: int) {
    && (|| (exists p :: p in r.procs && Finishing(r.procs[p]))
        || (r.rate.Some? && r.rate.value >= last + 60)
        || r.now >= last + 60)
    && last <= r.now
    && (forall p :: p in r.procs && r.procs[p].StoreCode? ==> r.now >= last + 60)
  }

  lemma RunKeepsGuarded(cfg: Config, r: Redis, p: nat, last: int)
    requires Guarded(r, last) && OneSendAtMost(r) && p in r.procs && !r.procs[p].StoreCode?
    ensures Guarded(RunOne(cfg, r, p), last)
  {
    var next := RunOne(cfg, r, p);
    if Sends(r.procs[p]) {
      assert forall q :: q in r.procs && Finishing(r.procs[q]) ==> q == p;
      assert r.procs[p].StoreCounter? ==> p in next.procs && Finishing(next.procs[p]);
    } else {
      RunReplacesOneProc(cfg, r, p);
      OthersDoNotSend(cfg, r, p);
      if q :| q in r.procs && Finishing(r.procs[q]) {
        assert q in next.procs && Finishing(next.procs[q]);
      }
    }
  }

  /** Requests that are not sends stay no sends and leave the rate key alone. */
  lemma OthersDoNotSend(cfg: Config, r: Redis, p: nat)
    requires p in r.procs && !Sends(r.procs[p])
    ensures
      var next := RunOne(cfg, r, p);
      && next.rate == r.rate && next.now == r.now
      && (p in next.procs ==> !Sends(next.procs[p]))
  {
    match r.procs[p]
    case Fetch(_, _) =>
    case Probe =>
    case Compare(_, _, _, _) =>
    case Restore(_, _) =>
    case ClearCounter(_, _) =>
    case GrantToken(_) =>
    case TakeToken(_) =>
    case Update(_) =>
  }

  lemma StoreBecomesGuarded(cfg: Config, r: Redis, p: nat)
    requires OneSendAtMost(r) && p in r.procs && r.procs[p].StoreCode?
    ensures Guarded(RunOne(cfg, r, p), r.now)
  {
    var next := RunOne(cfg, r, p);
    assert p in next.procs && Finishing(next.procs[p]);
  }

  lemma StepKeepsGuarded(cfg: Config, r: Redis, a: Action, last: int)
    requires Guarded(r, last) && OneSendAtMost(r) && !StoresCode(r, a)
    requires !(a.Die? && a.p in r.procs && Sends(r.procs[a.p]))
    ensures Guarded(Step(cfg, r, a), last)
  {
    var next := Step(cfg, r, a);
    if a.Run? && a.p in r.procs {
      RunKeepsGuarded(cfg, r, a.p, last);
    } else if p :| p in r.procs && Finishing(r.procs[p]) {
      assert p in next.procs && Finishing(next.procs[p]);
    }
  }

  lemma {:induction false} InTurnFrom(cfg: Config, r: Redis, actions: seq<Action>, last: Option<int>)
    requires SendingInTurn(cfg, r, actions) && (last.Some? ==> Guarded(r, last.value))
    ensures AMinuteApart(cfg, r, actions, last)
    decreases |actions|
  {
    if actions != [] {
      if StoresCode(r, actions[0]) {
        StoreBecomesGuarded(cfg, r, actions[0].p);
      } else if last.Some? {
        StepKeepsGuarded(cfg, r, actions[0], last.value);
      }
      InTurnFrom(cfg, Step(cfg, r, actions[0]), actions[1..], LastStore(r, actions[0], last));
    }
  }

  /** If no two sends of an email are ever under way together and none dies on the way, then,
      whatever verifiers and password setters do between, codes are at least a minute apart. */
  lemma SendsInTurnAreSpaced(cfg: Config, now: int, actions: seq<Action>)
    requires SendingInTurn(cfg, Fresh(now), actions)
    ensures AMinuteApart(cfg, Fresh(now), actions, None)
  {
    InTurnFrom(cfg, Fresh(now), actions, None);
  }

  // ── Any run: what two codes within a minute mean ──────────────

  function StateAt(cfg: Config, now: int, actions: seq<Action>, k: nat): Redis
    requires k <= |actions|
  {
    Exec(cfg, Fresh(now), actions[..k])
  }

  predicate StoresAt(cfg: Config, now: int, actions: seq<Action>, k: nat) {
    k < |actions| && StoresCode(StateAt(cfg, now, actions, k), actions[k])
  }

  /** Step `k` stores the rate key. */
  predicate RatesAt(cfg: Config, now: int, actions: seq<Action>, k: nat) {
    && k < |actions| && actions[k].Run?
    && var r := StateAt(cfg, now, actions, k);
       actions[k].p in r.procs && r.procs[actions[k].p].StoreRate?
  }

  /** Step `k` lets request `p` pass the check of the rate key. */
  predicate PassesAt(cfg: Config, now: int, actions: seq<Action>, k: nat, p: nat) {
    && k < |actions| && actions[k] == Run(p)
    && var r := StateAt(cfg, now, actions, k);
       p in r.procs && r.procs[p].CheckRate? && r.rate == None
  }

  predicate HasPassed(r: Redis, p: nat) {
    p in r.procs && r.procs[p].StoreCode?
  }

  lemma HowItPassed(cfg: Config, r: Redis, a: Action, p: nat)
    requires HasPassed(Step(cfg, r, a), p)
    ensures HasPassed(r, p) || (a == Run(p) && p in r.procs && r.procs[p].CheckRate? && r.rate == None)
  {
    StepTouchesOneProc(cfg, r, a);
    if a.Run? && a.p == p && p in r.procs {
      RunPasses(cfg, r, p);
    }
  }

  lemma RunPasses(cfg: Config, r: Redis, p: nat)
    requires p in r.procs
    ensures HasPassed(RunOne(cfg, r, p), p) ==> r.procs[p].CheckRate? && r.rate == None
  {
    match r.procs[p]
    case CheckRate(_) =>
    case StoreCode(_) =>
    case StoreCounter =>
    case StoreRate =>
    case Fetch(_, _) =>
    case Probe =>
    case Compare(_, _, _, _) =>
    case Restore(_, _) =>
    case ClearCounter(_, _) =>
    case GrantToken(_) =>
    case TakeToken(_) =>
    case Update(_) =>
  }

  lemma {:induction false} WhenItPassed(cfg: Config, now: int, actions: seq<Action>, p: nat) returns (c: nat)
    requires HasPassed(Exec(cfg, Fresh(now), actions), p)
    ensures PassesAt(cfg, now, actions, c, p)
    ensures forall j: nat :: c < j <= |actions| ==> HasPassed(StateAt(cfg, now, actions, j), p)
    decreases |actions|
  {
    assert actions != [];
    var n := |actions| - 1;
    var before := actions[..n];
    assert actions == before + [actions[n]];
    ExecOneMore(cfg, Fresh(now), before, actions[n]);
    HowItPassed(cfg, Exec(cfg, Fresh(now), before), actions[n], p);
    if HasPassed(Exec(cfg, Fresh(now), before), p) {
      c := WhenItPassed(cfg, now, before, p);
      assert before[..c] == actions[..c];
    } else {
      c := n;
    }
    forall j: nat | c < j <= |actions|
      ensures HasPassed(StateAt(cfg, now, actions, j), p)
    {
      if j <= n {
        assert before[..j] == actions[..j];
        assert HasPassed(StateAt(cfg, now, before, j), p);
      } else {
        assert actions[..j] == actions;
      }
    }
  }

  lemma FromTo(cfg: Config, now: int, actions: seq<Action>, a: nat, b: nat)
    requires a <= b <= |actions|
    ensures StateAt(cfg, now, actions, b) == Exec(cfg, StateAt(cfg, now, actions, a), actions[a..b])
    ensures StateAt(cfg, now, actions, a).now <= StateAt(cfg, now, actions, b).now
  {
    assert actions[..b] == actions[..a] + actions[a..b];
    ExecConcat(cfg, Fresh(now), actions[..a], actions[a..b]);
    TimePasses(cfg, StateAt(cfg, now, actions, a), actions[a..b]);
  }

  /** Whoever passes the check after a rate key was stored does so a minute later at least. */
  lemma PassingTakesAMinute(cfg: Config, now: int, actions: seq<Action>, k: nat, c: nat, p: nat)
    requires RatesAt(cfg, now, actions, k) && PassesAt(cfg, now, actions, c, p) && k < c
    ensures StateAt(cfg, now, actions, c).now >= StateAt(cfg, now, actions, k).now + 60
  {
    var r, q := StateAt(cfg, now, actions, k), actions[k].p;
    var next := RunOne(cfg, r, q);
    assert actions[..k + 1] == actions[..k] + [actions[k]];
    ExecOneMore(cfg, Fresh(now), actions[..k], actions[k]);
    FromTo(cfg, now, actions, k + 1, c);
    if StateAt(cfg, now, actions, c).now < r.now + 60 {
      ExecKeepsRate(cfg, next, actions[k + 1..c], r.now + 60);
    }
  }

  /** In every interleaving: if two codes are stored less than a minute apart, the second one's
      send passed its check before the first one's had stored the rate key, or the first died
      without storing it. Indeed nobody stored a rate key from the first code to that check. */
  lemma CloseCodesPassedTogether(cfg: Config, now: int, actions: seq<Action>, i: nat, j: nat) returns (c: nat)
    requires StoresAt(cfg, now, actions, i) && StoresAt(cfg, now, actions, j) && i < j
    requires StateAt(cfg, now, actions, j).now < StateAt(cfg, now, actions, i).now + 60
    ensures c < j && PassesAt(cfg, now, actions, c, actions[j].p)
    ensures forall m: nat :: c < m <= j ==> HasPassed(StateAt(cfg, now, actions, m), actions[j].p)
    ensures forall k: nat :: i <= k < c ==> !RatesAt(cfg, now, actions, k)
  {
    var p, before := actions[j].p, actions[..j];
    c := WhenItPassed(cfg, now, before, p);
    assert before[..c] == actions[..c];
    forall m: nat | c < m <= j
      ensures HasPassed(StateAt(cfg, now, actions, m), p)
    {
      assert before[..m] == actions[..m];
      assert HasPassed(StateAt(cfg, now, before, m), p);
    }
    forall k: nat | i <= k < c
      ensures !RatesAt(cfg, now, actions, k)
    {
      if RatesAt(cfg, now, actions, k) {
        PassingTakesAMinute(cfg, now, actions, k, c, p);
        FromTo(cfg, now, actions, i, k);
        FromTo(cfg, now, actions, c, j);
      }
    }
  }
}
