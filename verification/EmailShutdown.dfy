/** The worker's loop around the queue: turns, backoffs, the shutdown signal and the drain. The
    drain is as written: a pop that finds nothing waits. */
module EmailShutdown {
  import opened EmailQueue
  import opened EmailBounds

  /** Where the worker is: at the top of its loop, in the blocking pop, between pop and check,
      sending, waiting out a backoff (and whether its timer has fired), in the drain, or
      returned. */
  datatype Phase = Top | Polling | Popped | Processing | Resting(fired: bool) | Draining | Gone

  datatype Server = Server(mail: Mail, phase: Phase)

  /** What happens next: somebody pushes, the signal comes, a backoff's timer fires, a pop fails,
      or the worker goes on. When signal and timer are both there the runtime picks one. */
  datatype Event =
    | Arrives(pushed: Payload)
    | Signal
    | TimerFires
    | PopError
    | Advance(outcome: Delivery, timerPicked: bool)

  function GoOn(sv: Server, d: Delivery, timerPicked: bool): Server {
    var m := sv.mail;
    match sv.phase
    case Top => sv.(phase := if m.cancelled then Draining else Polling)
    case Polling => if m.queue == [] then Server(Step(m, PollEmpty), Top) else Server(Step(m, Take), Popped)
    case Popped =>
      if m.inFlight.None? then sv
      else if m.inFlight.value.item.payload == Poison("") then Server(Step(m, Settle(d)), Top)
      else if m.cancelled then Server(Step(m, PutBack), Top)
      else sv.(phase := Processing)
    case Processing =>
      if m.inFlight.None? then sv
      else Server(Step(m, Settle(d)), if Reports(m.inFlight.value.item, d) then Top else Resting(false))
    case Resting(fired) =>
      if m.cancelled && !(fired && timerPicked) then sv.(phase := Gone)
      else if fired then sv.(phase := Top)
      else sv
    case Draining => if m.queue == [] then sv else Server(DrainTurn(m, d), Draining)
    case Gone => sv
  }

  function Next(sv: Server, e: Event): Server {
    match e
    case Arrives(p) => sv.(mail := Step(sv.mail, Enqueue(p)))
    case Signal => sv.(mail := Step(sv.mail, Cancel))
    case TimerFires => if sv.phase.Resting? then sv.(phase := Resting(true)) else sv
    case PopError =>
      if sv.phase == Polling then Server(Step(sv.mail, PopFails), Resting(false))
      else if sv.phase == Draining then sv.(phase := Gone)
      else sv
    case Advance(d, timerPicked) => GoOn(sv, d, timerPicked)
  }

  function Run(sv: Server, events: seq<Event>): Server
    decreases |events|
  {
    if events == [] then sv else Run(Next(sv, events[0]), events[1..])
  }

  const STARTED := Server(EMPTY, Top)

  lemma {:induction false} RunConcat(sv: Server, events: seq<Event>, more: seq<Event>)
    ensures Run(sv, events + more) == Run(Run(sv, events), more)
    decreases |events|
  {
    if events == [] {
      assert events + more == more;
    } else {
      assert (events + more)[1..] == events[1..] + more;
      RunConcat(Next(sv, events[0]), events[1..], more);
    }
  }

  lemma RunOneMore(sv: Server, events: seq<Event>, e: Event)
    ensures Run(sv, events + [e]) == Next(Run(sv, events), e)
  {
    RunConcat(sv, events, [e]);
    assert [e][1..] == [];
  }

  // ── The queue underneath ──────────────────────────────────────

  /** The steps of the queue that an event is. */
  function QueueSteps(sv: Server, e: Event): seq<Action> {
    match e
    case Arrives(p) => [Enqueue(p)]
    case Signal => [Cancel]
    case TimerFires => []
    case PopError => if sv.phase == Polling then [PopFails] else []
    case Advance(d, _) =>
      match sv.phase
      case Polling => if sv.mail.queue == [] then [PollEmpty] else [Take]
      case Popped =>
        if sv.mail.inFlight.None? then []
        else if sv.mail.inFlight.value.item.payload == Poison("") then [Settle(d)]
        else if sv.mail.cancelled then [PutBack]
        else []
      case Processing => if sv.mail.inFlight.None? then [] else [Settle(d)]
      case Draining => if sv.mail.queue == [] then [] else [DrainTake, Settle(d)]
      case _ => []
  }

  function QueueRun(sv: Server, events: seq<Event>): seq<Action>
    decreases |events|
  {
    if events == [] then [] else QueueSteps(sv, events[0]) + QueueRun(Next(sv, events[0]), events[1..])
  }

  lemma OneQueueStep(m: Mail, a: Action)
    ensures Exec(m, [a]) == Step(m, a)
  {
    assert [a][1..] == [];
  }

  lemma TwoQueueSteps(m: Mail, a: Action, b: Action)
    ensures Exec(m, [a, b]) == Step(Step(m, a), b)
  {
    assert [a, b][1..] == [b];
    OneQueueStep(Step(m, a), b);
  }

  lemma NextIsQueueSteps(sv: Server, e: Event)
    ensures Next(sv, e).mail == Exec(sv.mail, QueueSteps(sv, e))
  {
    var steps := QueueSteps(sv, e);
    if |steps| == 1 { OneQueueStep(sv.mail, steps[0]); }
    if |steps| == 2 { TwoQueueSteps(sv.mail, steps[0], steps[1]); }
  }

  /** Whatever holds of all runs of the queue holds of all runs of the worker. */
  lemma {:induction false} RunIsQueueRun(sv: Server, events: seq<Event>)
    ensures Run(sv, events).mail == Exec(sv.mail, QueueRun(sv, events))
    decreases |events|
  {
    if events != [] {
      NextIsQueueSteps(sv, events[0]);
      RunIsQueueRun(Next(sv, events[0]), events[1..]);
      ExecConcat(sv.mail, QueueSteps(sv, events[0]), QueueRun(Next(sv, events[0]), events[1..]));
    }
  }

  /** So no run of the worker loses or doubles a letter, shutdown and backoffs included. */
  lemma WorkerLosesNothing(events: seq<Event>)
    ensures
      var m := Run(STARTED, events).mail;
      Complete(Line(m), m.enqueued)
  {
    RunIsQueueRun(STARTED, events);
    NothingLostOrDoubled(QueueRun(STARTED, events));
  }

  predicate InStep(sv: Server) {
    && (sv.mail.inFlight.Some? <==> sv.phase == Popped || sv.phase == Processing)
    && (sv.mail.inFlight.Some? ==> !sv.mail.inFlight.value.drained)
    && (sv.phase == Draining ==> sv.mail.cancelled)
  }

  lemma NextStaysInStep(sv: Server, e: Event)
    requires InStep(sv)
    ensures InStep(Next(sv, e))
  {
    if e.Advance? && sv.phase == Draining && sv.mail.queue != [] {
      DrainTurnShrinks(sv.mail, e.outcome);
    }
  }

  lemma {:induction false} RunStaysInStep(sv: Server, events: seq<Event>)
    requires InStep(sv)
    ensures InStep(Run(sv, events))
    decreases |events|
  {
    if events != [] {
      NextStaysInStep(sv, events[0]);
      RunStaysInStep(Next(sv, events[0]), events[1..]);
    }
  }

  /** The signal is seen whatever the worker does, and one at the top of its loop goes into the
      drain. */
  lemma SignalMeans(sv: Server, d: Delivery, timerPicked: bool)
    ensures Next(sv, Signal) == sv.(mail := sv.mail.(cancelled := true))
    ensures sv.phase == Top ==> GoOn(Next(sv, Signal), d, timerPicked).phase == Draining
  {}

  // ── The loop before the signal ────────────────────────────────

  /** With nothing in the way four steps of the worker handle the next letter: it is popped,
      checked and settled, and if SMTP or the builder refused it a backoff begins. */
  lemma WorkerHandlesNext(sv: Server, d: Delivery, timerPicked: bool)
    requires InStep(sv) && sv.phase == Top && !sv.mail.cancelled
    requires sv.mail.queue != [] && sv.mail.queue[|sv.mail.queue| - 1].payload.Letter?
    ensures
      var one := GoOn(GoOn(sv, d, timerPicked), d, timerPicked);
      var last := GoOn(GoOn(one, d, timerPicked), d, timerPicked);
      var job := sv.mail.queue[|sv.mail.queue| - 1].payload.job;
      && last.mail == Step(Step(sv.mail, Take), Settle(d))
      && last.phase == if d == Sent || (d == SmtpError && job.retries >= 3) then Top else Resting(false)
  {}

  /** A backoff ends with the timer and leads back to the top; until then the worker waits. */
  lemma BackoffEndsWithTimer(sv: Server, d: Delivery, timerPicked: bool)
    requires sv.phase == Resting(false) && !sv.mail.cancelled
    ensures GoOn(sv, d, timerPicked) == sv
    ensures GoOn(Next(sv, TimerFires), d, timerPicked) == sv.(phase := Top)
  {}

  // ── The drain as written ──────────────────────────────────────

  lemma {:induction false} GoneForGood(sv: Server, events: seq<Event>)
    requires sv.phase == Gone
    ensures Run(sv, events).phase == Gone
    decreases |events|
  {
    if events != [] {
      GoneForGood(Next(sv, events[0]), events[1..]);
    }
  }

  /** The drain returns if and only if a pop fails: an empty queue does not end it. */
  lemma {:induction false} DrainReturnsIffPopFails(sv: Server, events: seq<Event>)
    requires sv.phase == Draining
    ensures Run(sv, events).phase == if PopError in events then Gone else Draining
    decreases |events|
  {
    if events != [] {
      if events[0] == PopError {
        GoneForGood(Next(sv, events[0]), events[1..]);
      } else {
        DrainReturnsIffPopFails(Next(sv, events[0]), events[1..]);
      }
    }
  }

  /** Undisturbed it finishes every letter, in the order of the line, in at most the queue's
      weight of turns, and then waits. */
  lemma {:induction false} DrainEmptiesThenWaits(sv: Server, events: seq<Event>)
    requires InStep(sv) && sv.phase == Draining
    requires (forall k :: 0 <= k < |events| ==> events[k].Advance?) && |events| >= TotalWeight(sv.mail.queue)
    ensures
      var last := Run(sv, events);
      && last.phase == Draining && last.mail.queue == [] && Alike(last.mail.finished, Line(sv.mail))
      && forall d, timerPicked :: Next(last, Advance(d, timerPicked)) == last
    decreases |events|
  {
    if sv.mail.queue == [] {
      WaitingStays(sv, events);
      assert Line(sv.mail) == sv.mail.finished;
    } else {
      var next := Next(sv, events[0]);
      DrainTurnShrinks(sv.mail, events[0].outcome);
      DrainEmptiesThenWaits(next, events[1..]);
      AlikeTransitive(Run(sv, events).mail.finished, Line(next.mail), Line(sv.mail));
    }
  }

  lemma {:induction false} WaitingStays(sv: Server, events: seq<Event>)
    requires sv.phase == Draining && sv.mail.queue == [] && forall k :: 0 <= k < |events| ==> events[k].Advance?
    ensures Run(sv, events) == sv
    decreases |events|
  {
    if events != [] {
      WaitingStays(sv, events[1..]);
    }
  }

  lemma AlikeTransitive(a: seq<Item>, b: seq<Item>, c: seq<Item>)
    requires Alike(a, b) && Alike(b, c)
    ensures Alike(a, c)
  {
    forall i | 0 <= i < |a|
      ensures a[i].id == c[i].id && SameMail(a[i].payload, c[i].payload)
    {
      assert SameMail(a[i].payload, b[i].payload) && SameMail(b[i].payload, c[i].payload);
    }
  }

  /** A letter pushed while the drain waits is taken after all: it stands at the end of the
      line, and in four turns at the latest it is finished. */
  lemma LateLetterIsTaken(sv: Server, p: Payload, turns: seq<Event>)
    requires InStep(sv) && sv.phase == Draining && sv.mail.queue == []
    requires (forall k :: 0 <= k < |turns| ==> turns[k].Advance?) && |turns| >= 4
    ensures
      var last := Run(sv, [Arrives(p)] + turns);
      && last.phase == Draining && last.mail.queue == []
      && Alike(last.mail.finished, sv.mail.finished + [Item(|sv.mail.enqueued|, p, 0)])
  {
    var next := Next(sv, Arrives(p));
    assert ([Arrives(p)] + turns)[1..] == turns;
    StepKeepsLine(sv.mail, Enqueue(p));
    var item := Item(|sv.mail.enqueued|, p, 0);
    assert next.mail.queue == [item] && next.mail.queue[..0] == [];
    assert TotalWeight(next.mail.queue) == Weight(item) <= 4;
    DrainEmptiesThenWaits(next, turns);
    assert Line(sv.mail) == sv.mail.finished;
  }

  // ── Who drains after the signal ───────────────────────────────

  /** The worker's own next step; a pop it is waiting in may fail. */
  function WorkerStep(sv: Server, d: Delivery, timerPicked: bool, popFails: bool): Server {
    Next(sv, if sv.phase == Polling && popFails then PopError else Advance(d, timerPicked))
  }

  /** The worker gets to the drain: it is not waiting out a backoff, nor about to begin one
      because its pop or what it is sending fails; or the timer has fired too and is picked. */
  predicate WillDrain(sv: Server, d: Delivery, timerPicked: bool, popFails: bool) {
    match sv.phase
    case Top => true
    case Polling => !popFails
    case Popped => true
    case Processing => sv.mail.inFlight.Some? && Reports(sv.mail.inFlight.value.item, d)
    case Resting(fired) => fired && timerPicked
    case Draining => true
    case Gone => false
  }

  /** What the last thing tried, if anything, has left in the queue. */
  function LeftBehind(sv: Server, d: Delivery): Mail {
    match sv.phase
    case Polling => Step(sv.mail, PopFails)
    case Processing => Step(sv.mail, Settle(d))
    case _ => sv.mail
  }

  /** After the signal three steps of the worker decide: it is in the drain if and only if
      `WillDrain`, and otherwise it has returned. Then the queue is as it was,
      but for a letter in hand that was refused and put back or could not be built. */
  lemma SignalDrainsIff(events: seq<Event>, d: Delivery, timerPicked: bool, popFails: bool)
    requires Run(STARTED, events).mail.cancelled
    ensures
      var sv := Run(STARTED, events);
      var one := WorkerStep(sv, d, timerPicked, popFails);
      var last := WorkerStep(WorkerStep(one, d, timerPicked, popFails), d, timerPicked, popFails);
      && (last.phase == Draining <==> WillDrain(sv, d, timerPicked, popFails))
      && (last.phase == Gone <==> !WillDrain(sv, d, timerPicked, popFails))
      && (last.phase == Gone ==> last.mail == LeftBehind(sv, d))
  {
    RunStaysInStep(STARTED, events);
    var sv := Run(STARTED, events);
    var one := WorkerStep(sv, d, timerPicked, popFails);
    FirstStepAfterSignal(sv, d, timerPicked, popFails);
    FirstStepAfterSignal(one, d, timerPicked, popFails);
    FirstStepAfterSignal(WorkerStep(one, d, timerPicked, popFails), d, timerPicked, popFails);
  }

  lemma FirstStepAfterSignal(sv: Server, d: Delivery, timerPicked: bool, popFails: bool)
    requires InStep(sv) && sv.mail.cancelled
    ensures
      var next := WorkerStep(sv, d, timerPicked, popFails);
      && InStep(next) && next.mail.cancelled
      && (sv.phase == Top ==> next.phase == Draining)
      && (sv.phase == Polling ==>
            if popFails then next == Server(Step(sv.mail, PopFails), Resting(false))
            else next.phase == Top || next.phase == Popped)
      && (sv.phase == Popped ==> next.phase == Top)
      && (sv.phase == Processing ==> next.phase == (if Reports(sv.mail.inFlight.value.item, d) then Top else Resting(false))
                                     && next.mail == Step(sv.mail, Settle(d)))
      && (sv.phase.Resting? ==> next == sv.(phase := if sv.phase.fired && timerPicked then Top else Gone))
      && (sv.phase == Draining ==> next.phase == Draining)
      && (sv.phase == Gone ==> next == sv)
  {
    NextStaysInStep(sv, if sv.phase == Polling && popFails then PopError else Advance(d, timerPicked));
    if sv.phase == Draining && sv.mail.queue != [] {
      DrainTurnShrinks(sv.mail, d);
    }
  }
}
