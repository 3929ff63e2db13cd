/** The email queue as a state machine. `email:queue` is a Redis list whose right end is
    popped; producers push on the left, retries go back to the right. Other tasks enqueue at
    any moment, also while the worker has a job in hand. */
module EmailQueue {
  import opened Wrappers

  const MAX_RETRIES := 3
  const MAX_BACKOFF := 60

  datatype Job = Job(to: string, subject: string, body: string, retries: nat)

  /** A list element, by what deserialising it yields. */
  datatype Payload = Letter(job: Job) | Poison(text: string)

  /** `id` numbers the elements in the order they were enqueued and `sends` counts how often
      one went to SMTP. Both are bookkeeping of the model: the stored JSON does not hold them. */
  datatype Item = Item(id: nat, payload: Payload, sends: nat)

  /** How one attempt at a letter ends: it cannot be built, or SMTP refuses or takes it. */
  datatype Delivery = Unbuildable | SmtpError | Sent

  /** The job the worker has popped, and whether the shutdown drain popped it. */
  datatype Flight = Flight(item: Item, drained: bool)

  /** How a finished element ended; a letter that cannot be built is dropped. */
  datatype Fate = Delivered | DeadLettered | Dropped

  /** `enqueued`, `finished` with its `fates`, and `failures` (errors since the last success)
      are history. */
  datatype Mail = Mail(
    queue: seq<Item>,
    dead: seq<Payload>,
    inFlight: Option<Flight>,
    backoff: nat,
    cancelled: bool,
    enqueued: seq<Payload>,
    finished: seq<Item>,
    fates: seq<Fate>,
    failures: nat)

  const EMPTY := Mail([], [], None, 0, false, [], [], [], 0)

  datatype Action =
    | Enqueue(payload: Payload)
    | Take
    | Settle(delivery: Delivery)
    | PollEmpty
    | PopFails
    | Cancel
    | PutBack
    | DrainTake

  function NextBackoff(backoff: nat): nat {
    if backoff == 0 then 5 else if backoff * 2 < MAX_BACKOFF then backoff * 2 else MAX_BACKOFF
  }

  function Succeed(m: Mail): Mail {
    m.(backoff := 0, failures := 0)
  }

  function Fail(m: Mail): Mail {
    m.(backoff := NextBackoff(m.backoff), failures := m.failures + 1)
  }

  /** The worker loop acts on the outcome, the drain ignores it. */
  function Report(m: Mail, ok: bool, drained: bool): Mail {
    if drained then m else if ok then Succeed(m) else Fail(m)
  }

  /** Whether processing reports success to the worker loop. */
  predicate Reports(item: Item, delivery: Delivery) {
    match item.payload
    case Poison(_) => true
    case Letter(job) => delivery == Sent || (delivery == SmtpError && job.retries >= MAX_RETRIES)
  }

  /** The job in hand is over, for better or worse. */
  function Finish(m: Mail, item: Item, fate: Fate): Mail {
    m.(inFlight := None, finished := m.finished + [item], fates := m.fates + [fate])
  }

  /** What `process_one_email_with_transport` does with the popped element. */
  function SettleOne(m: Mail, flight: Flight, delivery: Delivery): Mail {
    var item := flight.item;
    match item.payload
    case Poison(text) =>
      if text == "" && !flight.drained then Succeed(Finish(m, item, Dropped))
      else Report(Finish(m, item, DeadLettered).(dead := [item.payload] + m.dead), true, flight.drained)
    case Letter(job) =>
      match delivery
      case Unbuildable => Report(Finish(m, item, Dropped), false, flight.drained)
      case Sent => Report(Finish(m, item.(sends := item.sends + 1), Delivered), true, flight.drained)
      case SmtpError =>
        var tried := item.(sends := item.sends + 1);
        if job.retries >= MAX_RETRIES then
          Report(Finish(m, tried, DeadLettered).(dead := [Letter(job.(retries := MAX_RETRIES))] + m.dead), true, flight.drained)
        else
          var retry := tried.(payload := Letter(job.(retries := job.retries + 1)));
          Report(m.(inFlight := None, queue := m.queue + [retry]), false, flight.drained)
  }

  function Pop(m: Mail, drained: bool): Mail {
    if m.inFlight == None && m.queue != [] then
      m.(inFlight := Some(Flight(m.queue[|m.queue| - 1], drained)), queue := m.queue[..|m.queue| - 1])
    else m
  }

  function Step(m: Mail, a: Action): Mail {
    match a
    case Enqueue(p) =>
      m.(queue := [Item(|m.enqueued|, p, 0)] + m.queue, enqueued := m.enqueued + [p])
    case Take => Pop(m, false)
    case DrainTake => if m.cancelled then Pop(m, true) else m
    case Settle(d) => if m.inFlight.Some? then SettleOne(m, m.inFlight.value, d) else m
    case PollEmpty => if m.inFlight == None && m.queue == [] then Succeed(m) else m
    case PopFails => if m.inFlight == None then Fail(m) else m
    case Cancel => m.(cancelled := true)
    case PutBack =>
      if m.cancelled && m.inFlight.Some? && !m.inFlight.value.drained && m.inFlight.value.item.payload != Poison("") then
        Succeed(m.(inFlight := None, queue := [m.inFlight.value.item] + m.queue))
      else m
  }

  function Exec(m: Mail, actions: seq<Action>): Mail
    decreases |actions|
  {
    if actions == [] then m else Exec(Step(m, actions[0]), actions[1..])
  }

  lemma {:induction false} ExecConcat(m: Mail, actions: seq<Action>, more: seq<Action>)
    ensures Exec(m, actions + more) == Exec(Exec(m, actions), more)
    decreases |actions|
  {
    if actions == [] {
      assert actions + more == more;
    } else {
      assert (actions + more)[1..] == actions[1..] + more;
      ExecConcat(Step(m, actions[0]), actions[1..], more);
    }
  }

  function Reversed(items: seq<Item>): seq<Item> {
    if items == [] then [] else Reversed(items[1..]) + [items[0]]
  }

  function Hand(m: Mail): seq<Item> {
    if m.inFlight.Some? then [m.inFlight.value.item] else []
  }

  /** Every element ever enqueued, in the order the worker is done with it: the finished ones,
      the one in hand, and the queue from its popping end. */
  function Line(m: Mail): seq<Item> {
    m.finished + Hand(m) + Reversed(m.queue)
  }

  /** The same letter up to its retry count. */
  predicate SameMail(a: Payload, b: Payload) {
    match (a, b)
    case (Letter(x), Letter(y)) => x.(retries := 0) == y.(retries := 0)
    case (Poison(x), Poison(y)) => x == y
    case _ => false
  }

  lemma {:induction false} ReversedLast(items: seq<Item>, x: Item)
    ensures Reversed(items + [x]) == [x] + Reversed(items)
  {
    if items == [] {
      assert (items + [x])[1..] == [];
    } else {
      assert (items + [x])[1..] == items[1..] + [x];
      ReversedLast(items[1..], x);
    }
  }

  // ── First in, first out ───────────────────────────────────────

  /** Position by position the same numbers and letters, up to retry counts. */
  predicate Alike(line: seq<Item>, other: seq<Item>) {
    && |line| == |other|
    && forall i :: 0 <= i < |line| ==> line[i].id == other[i].id && SameMail(line[i].payload, other[i].payload)
  }

  lemma PopKeepsLine(m: Mail, drained: bool)
    ensures Line(Pop(m, drained)) == Line(m)
  {
    if m.inFlight == None && m.queue != [] {
      var last := |m.queue| - 1;
      assert m.queue == m.queue[..last] + [m.queue[last]];
      ReversedLast(m.queue[..last], m.queue[last]);
    }
  }

  /** A finished or retried job stands where the one in hand stood. */
  lemma HandInPlace(m: Mail, next: Mail, item: Item, after: Item)
    requires Hand(m) == [item] && Hand(next) == [] && after.id == item.id && SameMail(after.payload, item.payload)
    requires || (next.queue == m.queue && next.finished == m.finished + [after])
             || (next.queue == m.queue + [after] && next.finished == m.finished)
    ensures Alike(Line(next), Line(m))
  {
    if next.queue == m.queue {
      assert Line(next) == m.finished + [after] + Reversed(m.queue);
    } else {
      ReversedLast(m.queue, after);
      assert Line(next) == m.finished + [after] + Reversed(m.queue);
    }
  }

  lemma SettleKeepsLine(m: Mail, flight: Flight, d: Delivery)
    requires m.inFlight == Some(flight)
    ensures Alike(Line(SettleOne(m, flight, d)), Line(m))
  {
    var next := SettleOne(m, flight, d);
    var after := if next.queue == m.queue then next.finished[|m.finished|] else next.queue[|m.queue|];
    HandInPlace(m, next, flight.item, after);
  }

  lemma EnqueueExtendsLine(m: Mail, p: Payload)
    ensures Line(Step(m, Enqueue(p))) == Line(m) + [Item(|m.enqueued|, p, 0)]
  {
    var next := Step(m, Enqueue(p));
    assert next.queue[1..] == m.queue;
    assert Reversed(next.queue) == Reversed(m.queue) + [Item(|m.enqueued|, p, 0)];
  }

  lemma PutBackMovesHand(m: Mail)
    ensures Line(Step(m, PutBack)) == Line(m) || Line(Step(m, PutBack)) == m.finished + Reversed(m.queue) + Hand(m)
  {
    var next := Step(m, PutBack);
    if next != m {
      assert next.queue[1..] == m.queue;
      assert Reversed(next.queue) == Reversed(m.queue) + Hand(m);
    }
  }

  /** After the signal a letter in hand that is not being drained goes back to the end that is
      popped last; nothing else is ever put back. */
  lemma PutBackMeans(m: Mail)
    ensures
      var back := Step(m, PutBack);
      if m.cancelled && m.inFlight.Some? && !m.inFlight.value.drained && m.inFlight.value.item.payload != Poison("") then
        && back.queue == [m.inFlight.value.item] + m.queue && back.inFlight == None
        && back.finished == m.finished && back.dead == m.dead && back.enqueued == m.enqueued && back.cancelled
      else back == m
  {}

  /** Only two steps do more to the line than change retry counts: an enqueue appends to it,
      and a put-back moves the job in hand to its end. */
  lemma StepKeepsLine(m: Mail, a: Action)
    ensures a.Enqueue? ==> Line(Step(m, a)) == Line(m) + [Item(|m.enqueued|, a.payload, 0)]
    ensures !a.Enqueue? ==> Step(m, a).enqueued == m.enqueued
    ensures a == PutBack ==> Line(Step(m, a)) == Line(m)
                             || Line(Step(m, a)) == m.finished + Reversed(m.queue) + Hand(m)
    ensures !a.Enqueue? && a != PutBack ==> Alike(Line(Step(m, a)), Line(m))
  {
    match a
    case Enqueue(p) => EnqueueExtendsLine(m, p);
    case Take => PopKeepsLine(m, false);
    case DrainTake => PopKeepsLine(m, true);
    case Settle(d) => if m.inFlight.Some? { SettleKeepsLine(m, m.inFlight.value, d); }
    case PutBack => PutBackMovesHand(m);
    case _ =>
  }

  /** Position, number and letter agree all along the line. */
  predicate InOrder(line: seq<Item>, enqueued: seq<Payload>) {
    && |line| == |enqueued|
    && forall i :: 0 <= i < |line| ==> line[i].id == i && SameMail(line[i].payload, enqueued[i])
  }

  lemma {:induction false} ExecKeepsOrder(m: Mail, actions: seq<Action>)
    requires InOrder(Line(m), m.enqueued)
    requires forall i :: 0 <= i < |actions| ==> actions[i] != PutBack
    ensures InOrder(Line(Exec(m, actions)), Exec(m, actions).enqueued)
    decreases |actions|
  {
    if actions != [] {
      StepKeepsLine(m, actions[0]);
      ExecKeepsOrder(Step(m, actions[0]), actions[1..]);
    }
  }

  /** Strict first-in first-out despite retries: until a shutdown puts a job back, finished ++
      in hand ++ queue is the enqueue sequence, whatever fails and whoever enqueues meanwhile. */
  lemma FirstInFirstOut(actions: seq<Action>)
    requires forall i :: 0 <= i < |actions| ==> actions[i] != PutBack
    ensures InOrder(Line(Exec(EMPTY, actions)), Exec(EMPTY, actions).enqueued)
  {
    ExecKeepsOrder(EMPTY, actions);
  }

  // ── Nothing lost, nothing doubled ─────────────────────────────

  function Ids(line: seq<Item>): (ids: seq<nat>)
    ensures |ids| == |line|
  {
    seq(|line|, i requires 0 <= i < |line| => line[i].id)
  }

  function Numbers(n: nat): (numbers: seq<nat>)
    ensures |numbers| == n
  {
    seq(n, i => i)
  }

  predicate Genuine(item: Item, enqueued: seq<Payload>) {
    item.id < |enqueued| && SameMail(item.payload, enqueued[item.id])
  }

  /** Every enqueued element is somewhere on the line, once. */
  predicate Complete(line: seq<Item>, enqueued: seq<Payload>) {
    && multiset(Ids(line)) == multiset(Numbers(|enqueued|))
    && forall i :: 0 <= i < |line| ==> Genuine(line[i], enqueued)
  }

  lemma AppendedStaysComplete(line: seq<Item>, enqueued: seq<Payload>, p: Payload)
    requires Complete(line, enqueued) && SameMail(p, p)
    ensures Complete(line + [Item(|enqueued|, p, 0)], enqueued + [p])
  {
    var n, next := |enqueued|, line + [Item(|enqueued|, p, 0)];
    assert Ids(next) == Ids(line) + [n];
    assert Numbers(n + 1) == Numbers(n) + [n];
    forall i | 0 <= i < |next|
      ensures Genuine(next[i], enqueued + [p])
    {
      if i < |line| { assert Genuine(line[i], enqueued); }
    }
  }

  lemma AlikeStaysComplete(line: seq<Item>, next: seq<Item>, enqueued: seq<Payload>)
    requires Complete(line, enqueued) && Alike(next, line)
    ensures Complete(next, enqueued)
  {
    assert Ids(next) == Ids(line);
    forall i | 0 <= i < |next|
      ensures Genuine(next[i], enqueued)
    {
      assert Genuine(line[i], enqueued);
    }
  }

  lemma MovedStaysComplete(done: seq<Item>, hand: seq<Item>, rest: seq<Item>, enqueued: seq<Payload>)
    requires Complete(done + hand + rest, enqueued)
    ensures Complete(done + rest + hand, enqueued)
  {
    var line, next := done + hand + rest, done + rest + hand;
    assert Ids(line) == Ids(done) + Ids(hand) + Ids(rest);
    assert Ids(next) == Ids(done) + Ids(rest) + Ids(hand);
    forall i | 0 <= i < |next|
      ensures Genuine(next[i], enqueued)
    {
      assert next[i] in line;
    }
  }

  lemma StepKeepsComplete(m: Mail, a: Action)
    requires Complete(Line(m), m.enqueued)
    ensures Complete(Line(Step(m, a)), Step(m, a).enqueued)
  {
    StepKeepsLine(m, a);
    if a.Enqueue? {
      AppendedStaysComplete(Line(m), m.enqueued, a.payload);
    } else if a == PutBack {
      MovedStaysComplete(m.finished, Hand(m), Reversed(m.queue), m.enqueued);
    } else {
      AlikeStaysComplete(Line(m), Line(Step(m, a)), m.enqueued);
    }
  }

  lemma {:induction false} ExecKeepsComplete(m: Mail, actions: seq<Action>)
    requires Complete(Line(m), m.enqueued)
    ensures Complete(Line(Exec(m, actions)), Exec(m, actions).enqueued)
    decreases |actions|
  {
    if actions != [] {
      StepKeepsComplete(m, actions[0]);
      ExecKeepsComplete(Step(m, actions[0]), actions[1..]);
    }
  }

  /** Shutdown included, order may go but no letter is lost or doubled: the numbers of the
      finished ones, the one in hand and the queued ones are 0, 1, …, each exactly once. */
  lemma NothingLostOrDoubled(actions: seq<Action>)
    ensures Complete(Line(Exec(EMPTY, actions)), Exec(EMPTY, actions).enqueued)
  {
    assert Ids([]) == Numbers(0);
    ExecKeepsComplete(EMPTY, actions);
  }
}
