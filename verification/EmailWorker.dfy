/** The background worker and its Redis lists as an object: one turn of the worker loop, and
    the loop that drains the queue after the shutdown signal. */
module EmailWorker {
  import opened Wrappers
  import opened EmailQueue
  import opened EmailBounds
  import opened EmailShutdown

  class Worker {
    var queue: seq<Item>
    var dead: seq<Payload>
    var inFlight: Option<Flight>
    var backoff: nat
    var cancelled: bool
    var enqueued: seq<Payload>
    var finished: seq<Item>
    var fates: seq<Fate>
    var failures: nat

    function View(): Mail
      reads this
    {
      Mail(queue, dead, inFlight, backoff, cancelled, enqueued, finished, fates, failures)
    }

    constructor ()
      ensures View() == EMPTY
    {
      queue, dead, inFlight, backoff := [], [], None, 0;
      cancelled, enqueued, finished, fates, failures := false, [], [], [], 0;
    }

    /** The cancellation token is set; the worker sees it when it looks next. */
    method SignalShutdown()
      modifies this`cancelled
      ensures View() == Step(old(View()), Cancel) && cancelled
    {
      cancelled := true;
    }

    /** LPUSH on `email:queue`. */
    method Push(payload: Payload)
      modifies this`queue, this`enqueued
      ensures View() == Step(old(View()), Enqueue(payload))
    {
      queue := [Item(|enqueued|, payload, 0)] + queue;
      enqueued := enqueued + [payload];
    }

    method EnqueueEmail(to: string, subject: string, body: string)
      modifies this`queue, this`enqueued
      ensures View() == Step(old(View()), Enqueue(Letter(Job(to, subject, body, 0))))
      ensures FreshEnqueue(Enqueue(Letter(Job(to, subject, body, 0))))
    {
      Push(Letter(Job(to, subject, body, 0)));
    }

    /** BRPOP on `email:queue`: the right end comes out, or nothing. */
    method Dequeue(drained: bool) returns (found: bool)
      requires inFlight == None
      modifies this`queue, this`inFlight
      ensures View() == Pop(old(View()), drained)
      ensures found <==> old(queue) != []
    {
      found := queue != [];
      if found {
        inFlight := Some(Flight(queue[|queue| - 1], drained));
        queue := queue[..|queue| - 1];
      }
    }

    /** `process_one_email_with_transport` on the popped element; the caller looks at `ok`. */
    method ProcessOne(delivery: Delivery) returns (ok: bool)
      requires inFlight.Some?
      modifies this`queue, this`dead, this`inFlight, this`finished, this`fates
      ensures View() == SettleOne(old(View()), Flight(old(inFlight).value.item, true), delivery)
      ensures ok == Reports(old(inFlight).value.item, delivery)
    {
      var item := inFlight.value.item;
      inFlight := None;
      match item.payload {
        case Poison(_) =>
          dead := [item.payload] + dead;
          finished, fates := finished + [item], fates + [DeadLettered];
          return true;
        case Letter(job) =>
          if delivery == Unbuildable {
            finished, fates := finished + [item], fates + [Dropped];
            return false;
          }
          var tried := item.(sends := item.sends + 1);
          if delivery == SmtpError {
            if job.retries >= MAX_RETRIES {
              dead := [Letter(job.(retries := MAX_RETRIES))] + dead;
              finished, fates := finished + [tried], fates + [DeadLettered];
              return true;
            }
            queue := queue + [tried.(payload := Letter(job.(retries := job.retries + 1)))];
            return false;
          }
          finished, fates := finished + [tried], fates + [Delivered];
          return true;
      }
    }

    /** Success resets the backoff, an error lengthens it. */
    method NoteResult(ok: bool)
      modifies this`backoff, this`failures
      ensures View() == Report(old(View()), ok, false)
    {
      if ok {
        backoff, failures := 0, 0;
      } else {
        backoff := if backoff == 0 then 5 else if backoff * 2 < MAX_BACKOFF then backoff * 2 else MAX_BACKOFF;
        failures := failures + 1;
      }
    }

    /** What the loop does with a popped element. `signal` tells whether the shutdown signal is
        seen right after the pop; `delivery` is what happens to the letter if it is processed. */
    method HandlePopped(signal: bool, delivery: Delivery) returns (ok: bool)
      requires inFlight.Some? && !inFlight.value.drained && !cancelled
      modifies this
      ensures !signal || old(inFlight).value.item.payload == Poison("") ==>
                Report(View(), ok, false) == Step(old(View()), Settle(delivery))
      ensures signal && old(inFlight).value.item.payload != Poison("") ==>
                ok && Report(View(), ok, false) == Step(Step(old(View()), Cancel), PutBack)
    {
      ok := true;
      var item := inFlight.value.item;
      if item.payload == Poison("") {
        inFlight, finished, fates := None, finished + [item], fates + [Dropped];
      } else if signal {
        cancelled := true;
        inFlight, queue := None, [item] + queue;
      } else {
        ok := ProcessOne(delivery);
      }
    }

    /** One turn of the worker loop; `ok` tells that no backoff follows. */
    method Turn(popFails: bool, signal: bool, delivery: Delivery) returns (ok: bool)
      requires inFlight == None && !cancelled
      modifies this
      ensures popFails ==> !ok && View() == Step(old(View()), PopFails)
      ensures !popFails && old(queue) == [] ==> ok && View() == Step(old(View()), PollEmpty)
      ensures !popFails && old(queue) != [] && (!signal || old(queue)[|old(queue)| - 1].payload == Poison("")) ==>
                View() == Step(Step(old(View()), Take), Settle(delivery))
      ensures !popFails && old(queue) != [] && signal && old(queue)[|old(queue)| - 1].payload != Poison("") ==>
                ok && View() == Step(Step(Step(old(View()), Take), Cancel), PutBack)
    {
      ok := !popFails;
      if !popFails {
        var found := Dequeue(false);
        if found {
          ok := HandlePopped(signal, delivery);
        }
      }
      NoteResult(ok);
    }

    /** The turns of the shutdown drain up to the pop that finds nothing, where the loop waits as
        it is written and would end as it is commented. With nothing new enqueued they empty the
        queue, whatever becomes of each letter, finish everything in the order of the line and
        are at most `TotalWeight`. `deliveries` is what the world does in turn 0, 1, …. */
    method DrainUntilItWaits(deliveries: nat -> Delivery) returns (turns: nat)
      requires inFlight == None && cancelled
      modifies this
      ensures queue == [] && inFlight == None
      ensures Alike(finished, Line(old(View()))) && enqueued == old(enqueued)
      ensures turns <= TotalWeight(old(queue))
    {
      turns := 0;
      ghost var line := Line(View());
      AlikeReflexive(line);
      while queue != []
        invariant inFlight == None && cancelled && enqueued == old(enqueued)
        invariant Alike(Line(View()), line)
        invariant turns + TotalWeight(queue) <= TotalWeight(old(queue))
        decreases TotalWeight(queue)
      {
        ghost var before := View();
        DrainTurnShrinks(before, deliveries(turns));
        var _ := Dequeue(true);
        var _ := ProcessOne(deliveries(turns));
        assert View() == DrainTurn(before, deliveries(turns));
        turns := turns + 1;
      }
      assert Line(View()) == finished;
    }

    /** The shutdown drain as it is written: on an empty queue the pop waits, a letter pushed
        meanwhile is taken, and nothing but a failing pop ends the loop. `world` is what happens,
        in order, the worker's own turns being its `Advance`; `used` is how much of it happens
        before the loop ends, if it does. */
    method DrainAsWritten(world: seq<Event>) returns (used: nat, returned: bool)
      requires inFlight == None && cancelled
      modifies this
      ensures used <= |world| && (!returned ==> used == |world|)
      ensures Server(View(), if returned then Gone else Draining) == Run(Server(old(View()), Draining), world[..used])
      ensures returned <==> PopError in world
    {
      used, returned := 0, false;
      ghost var start := Server(View(), Draining);
      while used < |world| && !returned
        invariant used <= |world| && inFlight == None && cancelled
        invariant Server(View(), if returned then Gone else Draining) == Run(start, world[..used])
        invariant returned <==> PopError in world[..used]
      {
        ghost var before := View();
        RunOneMore(start, world[..used], world[used]);
        assert world[..used + 1] == world[..used] + [world[used]];
        match world[used] {
          case Arrives(payload) => Push(payload);
          case PopError => returned := true;
          case Advance(delivery, _) =>
            var found := Dequeue(true);
            if found {
              var _ := ProcessOne(delivery);
              assert View() == DrainTurn(before, delivery);
            }
          case Signal =>
          case TimerFires =>
        }
        used := used + 1;
      }
    }
  }

  lemma AlikeReflexive(line: seq<Item>)
    ensures Alike(line, line)
  {}
}
