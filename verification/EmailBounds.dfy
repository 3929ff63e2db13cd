/** Counting and timing on the email queue: sends per letter, backoff, and the drain. */
module EmailBounds {
  import opened Wrappers
  import opened EmailQueue

  /** What is pushed: letters as `enqueue_email` makes them, or text that is none. */
  predicate FreshEnqueue(a: Action) {
    a.Enqueue? && a.payload.Letter? ==> a.payload.job.retries == 0
  }

  function Retries(item: Item): nat {
    if item.payload.Letter? then item.payload.job.retries else 0
  }

  // ── Sends per letter ──────────────────────────────────────────

  predicate Tallied(m: Mail) {
    && (forall i :: 0 <= i < |m.queue| ==> m.queue[i].sends == Retries(m.queue[i]) <= MAX_RETRIES)
    && (m.inFlight.Some? ==> m.inFlight.value.item.sends == Retries(m.inFlight.value.item) <= MAX_RETRIES)
    && (forall i :: 0 <= i < |m.finished| ==> m.finished[i].sends <= MAX_RETRIES + 1)
  }

  lemma PopKeepsTallied(m: Mail, drained: bool)
    requires Tallied(m)
    ensures Tallied(Pop(m, drained))
  {}

  lemma SettleKeepsTallied(m: Mail, flight: Flight, d: Delivery)
    requires Tallied(m) && m.inFlight == Some(flight)
    ensures Tallied(SettleOne(m, flight, d))
  {}

  lemma StepKeepsTallied(m: Mail, a: Action)
    requires Tallied(m) && FreshEnqueue(a)
    ensures Tallied(Step(m, a))
  {
    match a
    case Take => PopKeepsTallied(m, false);
    case DrainTake => PopKeepsTallied(m, true);
    case Settle(d) => if m.inFlight.Some? { SettleKeepsTallied(m, m.inFlight.value, d); }
    case _ =>
  }

  lemma {:induction false} ExecKeepsTallied(m: Mail, actions: seq<Action>)
    requires Tallied(m) && forall i :: 0 <= i < |actions| ==> FreshEnqueue(actions[i])
    ensures Tallied(Exec(m, actions))
    decreases |actions|
  {
    if actions != [] {
      StepKeepsTallied(m, actions[0]);
      ExecKeepsTallied(Step(m, actions[0]), actions[1..]);
    }
  }

  /** A letter goes to SMTP at most four times, and its stored retry count says how often the
      queued ones have been. */
  lemma AtMostFourSends(actions: seq<Action>, item: Item)
    requires forall i :: 0 <= i < |actions| ==> FreshEnqueue(actions[i])
    requires item in Line(Exec(EMPTY, actions))
    ensures item.sends <= 4
    ensures item !in Exec(EMPTY, actions).finished ==> item.sends == Retries(item) <= 3
  {
    var m := Exec(EMPTY, actions);
    ExecKeepsTallied(EMPTY, actions);
    if item !in m.finished && item !in Hand(m) {
      ReversedMembers(m.queue, item);
    }
  }

  lemma {:induction false} ReversedMembers(items: seq<Item>, item: Item)
    ensures item in Reversed(items) <==> item in items
  {
    if items != [] {
      ReversedMembers(items[1..], item);
    }
  }

  // ── The dead-letter list ──────────────────────────────────────

  /** How a finished element stands in `email:dead`. */
  function DeadForm(item: Item): Payload {
    match item.payload
    case Poison(_) => item.payload
    case Letter(job) => Letter(job.(retries := MAX_RETRIES))
  }

  /** The dead-lettered ones among the finished, the latest first. */
  function DeadOf(finished: seq<Item>, fates: seq<Fate>): seq<Payload>
    requires |finished| == |fates|
  {
    if finished == [] then []
    else
      var last := |finished| - 1;
      var before := DeadOf(finished[..last], fates[..last]);
      if fates[last] == DeadLettered then [DeadForm(finished[last])] + before else before
  }

  /** What a fate says about a letter `enqueue_email` pushed, and about anything else: text that
      is no letter never goes to SMTP and is kept, unless it is empty. */
  predicate FateExplains(item: Item, fate: Fate) {
    match item.payload
    case Letter(_) =>
      (match fate
       case Delivered => 1 <= item.sends <= 4 && item.sends == Retries(item) + 1
       case DeadLettered => item.sends == 4 && Retries(item) == 3
       case Dropped => item.sends == Retries(item) <= 3)
    case Poison(text) =>
      item.sends == 0 && (fate == DeadLettered || (fate == Dropped && text == ""))
  }

  predicate Accounted(m: Mail) {
    && |m.fates| == |m.finished|
    && m.dead == DeadOf(m.finished, m.fates)
    && (forall i :: 0 <= i < |m.finished| ==> FateExplains(m.finished[i], m.fates[i]))
  }

  lemma OneMoreFinished(m: Mail, next: Mail)
    requires Accounted(m) && |next.finished| == |m.finished| + 1 == |next.fates|
    requires next.finished[..|m.finished|] == m.finished && next.fates[..|m.fates|] == m.fates
    requires FateExplains(next.finished[|m.finished|], next.fates[|m.fates|])
    requires next.dead == if next.fates[|m.fates|] == DeadLettered then [DeadForm(next.finished[|m.finished|])] + m.dead
                          else m.dead
    ensures Accounted(next)
  {
    forall i | 0 <= i < |next.finished|
      ensures FateExplains(next.finished[i], next.fates[i])
    {
      if i < |m.finished| {
        assert next.finished[i] == m.finished[i] && next.fates[i] == m.fates[i];
      }
    }
  }

  /** A settled element is retried, or finished with a fate that explains it. */
  lemma SettleExplains(m: Mail, flight: Flight, d: Delivery)
    requires Tallied(m) && m.inFlight == Some(flight)
    ensures
      var next := SettleOne(m, flight, d);
      || (next.finished == m.finished && next.fates == m.fates && next.dead == m.dead)
      || exists item, fate ::
           && next.finished == m.finished + [item] && next.fates == m.fates + [fate] && FateExplains(item, fate)
           && next.dead == if fate == DeadLettered then [DeadForm(item)] + m.dead else m.dead
  {
    var next, item := SettleOne(m, flight, d), flight.item;
    var tried := item.(sends := item.sends + 1);
    if item.payload.Poison? {
      assert next.finished == m.finished + [item];
      assert next.fates == m.fates + [Dropped] || next.fates == m.fates + [DeadLettered];
    } else if d == Unbuildable {
      assert next.finished == m.finished + [item] && next.fates == m.fates + [Dropped];
    } else if d == Sent {
      assert next.finished == m.finished + [tried] && next.fates == m.fates + [Delivered];
    } else if next.finished != m.finished {
      assert next.finished == m.finished + [tried] && next.fates == m.fates + [DeadLettered];
    }
  }

  lemma SettleKeepsAccounted(m: Mail, flight: Flight, d: Delivery)
    requires Accounted(m) && Tallied(m) && m.inFlight == Some(flight)
    ensures Accounted(SettleOne(m, flight, d))
  {
    SettleExplains(m, flight, d);
    var next := SettleOne(m, flight, d);
    if next.finished != m.finished {
      OneMoreFinished(m, next);
    }
  }

  lemma StepKeepsAccounted(m: Mail, a: Action)
    requires Accounted(m) && Tallied(m)
    ensures Accounted(Step(m, a))
  {
    if a.Settle? && m.inFlight.Some? {
      SettleKeepsAccounted(m, m.inFlight.value, a.delivery);
    } else {
      assert Step(m, a).finished == m.finished && Step(m, a).fates == m.fates && Step(m, a).dead == m.dead;
    }
  }

  lemma {:induction false} ExecKeepsAccounted(m: Mail, actions: seq<Action>)
    requires Accounted(m) && Tallied(m) && forall i :: 0 <= i < |actions| ==> FreshEnqueue(actions[i])
    ensures Accounted(Exec(m, actions))
    decreases |actions|
  {
    if actions != [] {
      StepKeepsAccounted(m, actions[0]);
      StepKeepsTallied(m, actions[0]);
      ExecKeepsAccounted(Step(m, actions[0]), actions[1..]);
    }
  }

  /** `email:dead` holds exactly, in order, the finished letters that SMTP refused four times,
      each with retry count 3, and the text that was no letter, as it came. A letter missing
      from it was delivered or could not be built; other text missing from it was empty. */
  lemma DeadLettersWereRefusedFourTimes(actions: seq<Action>)
    requires forall i :: 0 <= i < |actions| ==> FreshEnqueue(actions[i])
    ensures
      var m := Exec(EMPTY, actions);
      && |m.fates| == |m.finished| && m.dead == DeadOf(m.finished, m.fates)
      && (forall i :: 0 <= i < |m.finished| ==> FateExplains(m.finished[i], m.fates[i]))
  {
    ExecKeepsAccounted(EMPTY, actions);
  }

  // ── Backoff ───────────────────────────────────────────────────

  function Pow2(n: nat): (p: nat)
    ensures p >= 1
  {
    if n == 0 then 1 else 2 * Pow2(n - 1)
  }

  function Capped(n: nat): nat {
    if n <= 60 then n else 60
  }

  predicate BackoffCounts(m: Mail) {
    m.backoff == if m.failures == 0 then 0 else Capped(5 * Pow2(m.failures - 1))
  }

  /** Which steps count as failures of the worker loop: a failing pop, a letter that cannot be
      built, and one that SMTP refuses for the first, second or third time. Every other outcome,
      and a poll that finds nothing, starts the count again; the drain leaves it alone. */
  lemma WhatCountsAsFailure(m: Mail, d: Delivery)
    ensures m.inFlight == None ==> Step(m, PopFails).failures == m.failures + 1
    ensures m.inFlight == None && m.queue == [] ==> Step(m, PollEmpty).failures == 0
    ensures m.inFlight.Some? && m.inFlight.value.drained ==> Step(m, Settle(d)).failures == m.failures
    ensures m.inFlight.Some? && !m.inFlight.value.drained ==>
              var item := m.inFlight.value.item;
              Step(m, Settle(d)).failures ==
              if item.payload.Letter? && (d == Unbuildable || (d == SmtpError && item.payload.job.retries < 3))
              then m.failures + 1 else 0
  {}

  /** What becomes of the letter in hand: sent, it is delivered; refused, it goes back to the end
      that is popped next with one more retry, or after three retries to the dead letters; one
      that cannot be built is dropped. */
  lemma SettlingMeans(m: Mail, job: Job, d: Delivery)
    requires m.inFlight.Some? && m.inFlight.value.item.payload == Letter(job)
    ensures
      var next, item := Step(m, Settle(d)), m.inFlight.value.item;
      var tried := item.(sends := item.sends + 1);
      && next.inFlight == None && next.enqueued == m.enqueued && next.cancelled == m.cancelled
      && (d == Sent ==> next.queue == m.queue && next.dead == m.dead
                        && next.finished == m.finished + [tried] && next.fates == m.fates + [Delivered])
      && (d == Unbuildable ==> next.queue == m.queue && next.dead == m.dead
                               && next.finished == m.finished + [item] && next.fates == m.fates + [Dropped])
      && (d == SmtpError && job.retries < 3 ==>
            && next.queue == m.queue + [tried.(payload := Letter(Job(job.to, job.subject, job.body, job.retries + 1)))]
            && next.dead == m.dead && next.finished == m.finished && next.fates == m.fates)
      && (d == SmtpError && job.retries >= 3 ==>
            && next.queue == m.queue && next.dead == [Letter(Job(job.to, job.subject, job.body, 3))] + m.dead
            && next.finished == m.finished + [tried] && next.fates == m.fates + [DeadLettered])
  {}

  /** Text that is no letter goes to the dead letters as it came; the worker loop drops it if it
      is empty. */
  lemma SettlingTextMeans(m: Mail, text: string, d: Delivery)
    requires m.inFlight.Some? && m.inFlight.value.item.payload == Poison(text)
    ensures
      var next, dropped := Step(m, Settle(d)), text == "" && !m.inFlight.value.drained;
      && next.inFlight == None && next.queue == m.queue && next.finished == m.finished + [m.inFlight.value.item]
      && next.fates == m.fates + [if dropped then Dropped else DeadLettered]
      && next.dead == if dropped then m.dead else [Poison(text)] + m.dead
  {}

  lemma StepKeepsBackoffCounts(m: Mail, a: Action)
    requires BackoffCounts(m)
    ensures BackoffCounts(Step(m, a))
  {
    FailKeepsBackoffCounts(m);
  }

  lemma FailKeepsBackoffCounts(m: Mail)
    requires BackoffCounts(m)
    ensures BackoffCounts(Fail(m))
  {
    if m.failures > 0 {
      assert Pow2(m.failures) == 2 * Pow2(m.failures - 1);
    }
  }

  lemma {:induction false} ExecKeepsBackoffCounts(m: Mail, actions: seq<Action>)
    requires BackoffCounts(m)
    ensures BackoffCounts(Exec(m, actions))
    decreases |actions|
  {
    if actions != [] {
      StepKeepsBackoffCounts(m, actions[0]);
      ExecKeepsBackoffCounts(Step(m, actions[0]), actions[1..]);
    }
  }

  /** k errors in a row, of whatever kind, mean a backoff of min(5 * 2^(k-1), 60) seconds. */
  lemma BackoffAfterFailures(actions: seq<Action>)
    ensures
      var m := Exec(EMPTY, actions);
      m.backoff == if m.failures == 0 then 0 else Capped(5 * Pow2(m.failures - 1))
  {
    ExecKeepsBackoffCounts(EMPTY, actions);
  }

  /** Steps of a worker whose only trouble is SMTP refusing a letter. */
  predicate OnlySmtpFails(a: Action) {
    && FreshEnqueue(a) && (a.Enqueue? ==> a.payload.Letter?)
    && (a.Enqueue? || a == Take || a == PollEmpty || a == Cancel || a == Settle(Sent) || a == Settle(SmtpError))
  }

  /** The element the worker settles next: the one in hand, else the right end of the queue. */
  function NextRetries(m: Mail): nat {
    if m.inFlight.Some? then Retries(m.inFlight.value.item)
    else if m.queue != [] then Retries(m.queue[|m.queue| - 1])
    else 0
  }

  function BackoffFor(retries: nat): nat {
    if retries == 0 then 0 else 5 * Pow2(retries - 1)
  }

  predicate Tracking(m: Mail) {
    && m.backoff == BackoffFor(NextRetries(m)) && NextRetries(m) <= MAX_RETRIES
    && (forall i :: 0 <= i < |m.queue| ==> m.queue[i].payload.Letter?)
    && (m.inFlight.Some? ==> m.inFlight.value.item.payload.Letter? && !m.inFlight.value.drained)
    && (forall i :: 0 <= i < |m.queue| && (m.inFlight.Some? || i != |m.queue| - 1) ==> Retries(m.queue[i]) == 0)
  }

  lemma StepKeepsTracking(m: Mail, a: Action)
    requires Tracking(m) && OnlySmtpFails(a)
    ensures Tracking(Step(m, a))
  {
    assert Pow2(0) == 1 && Pow2(1) == 2 && Pow2(2) == 4;
  }

  lemma {:induction false} ExecKeepsTracking(m: Mail, actions: seq<Action>)
    requires Tracking(m) && forall i :: 0 <= i < |actions| ==> OnlySmtpFails(actions[i])
    ensures Tracking(Exec(m, actions))
    decreases |actions|
  {
    if actions != [] {
      StepKeepsTracking(m, actions[0]);
      ExecKeepsTracking(Step(m, actions[0]), actions[1..]);
    }
  }

  lemma TrackingBoundsBackoff(m: Mail)
    requires Tracking(m)
    ensures m.backoff <= 20
  {
    assert Pow2(0) == 1 && Pow2(1) == 2 && Pow2(2) == 4;
  }

  /** Backoff follows the letter being retried: none before a letter's first send, 5 * 2^(r-1)
      seconds before its r-th retry, hence never more than 20, whatever else is enqueued. */
  lemma BackoffTracksRetry(actions: seq<Action>)
    requires forall i :: 0 <= i < |actions| ==> OnlySmtpFails(actions[i])
    ensures
      var m := Exec(EMPTY, actions);
      && m.backoff == (if NextRetries(m) == 0 then 0 else 5 * Pow2(NextRetries(m) - 1))
      && m.backoff <= 20
  {
    ExecKeepsTracking(EMPTY, actions);
    TrackingBoundsBackoff(Exec(EMPTY, actions));
  }

  // ── Draining ──────────────────────────────────────────────────

  /** How many more turns an element can take before it is finished. */
  function Weight(item: Item): nat {
    if Retries(item) >= MAX_RETRIES || item.payload.Poison? then 1 else MAX_RETRIES + 1 - Retries(item)
  }

  function TotalWeight(queue: seq<Item>): nat {
    if queue == [] then 0 else Weight(queue[|queue| - 1]) + TotalWeight(queue[..|queue| - 1])
  }

  /** One turn of the drain. */
  function DrainTurn(m: Mail, d: Delivery): Mail {
    Step(Step(m, DrainTake), Settle(d))
  }

  lemma DrainTurnShrinks(m: Mail, d: Delivery)
    requires m.cancelled && m.inFlight == None && m.queue != []
    ensures TotalWeight(DrainTurn(m, d).queue) < TotalWeight(m.queue)
    ensures DrainTurn(m, d).cancelled && DrainTurn(m, d).inFlight == None
    ensures DrainTurn(m, d).backoff == m.backoff && DrainTurn(m, d).enqueued == m.enqueued
    ensures Alike(Line(DrainTurn(m, d)), Line(m))
  {
    var rest := m.queue[..|m.queue| - 1];
    var next := DrainTurn(m, d).queue;
    if next != rest {
      assert next[..|next| - 1] == rest;
    }
    StepKeepsLine(m, DrainTake);
    StepKeepsLine(Step(m, DrainTake), Settle(d));
  }
}
