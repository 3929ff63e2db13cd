/** The life of one slot over a whole run: bookings and releases alternate, each release is
    by the user of the booking before it, and the slot carries at most one game ever. */
module SlotHistory {
  import opened Wrappers
  import opened Tables
  import opened Transactions
  import opened Invariants
  import opened LockStep
  import opened Guarantees

  datatype SlotEvent = BookedBy(user: UserId) | ReleasedBy(user: UserId)

  /** What the committed request `e` means for slot `s`; the user is the one who asked. */
  function EventOf(db: Db, e: Entry, s: SlotId): seq<SlotEvent> {
    match e.req
    case Book(_, slot, u) => if slot == s then [BookedBy(u)] else []
    case CancelBooking(_, slot, u) => if slot == s then [ReleasedBy(u)] else []
    case CancelGame(g, u) => if g in db.games && db.games[g].slot == s then [ReleasedBy(u)] else []
    case _ => []
  }

  function History(db: Db, log: seq<Entry>, s: SlotId): seq<SlotEvent>
    requires Replay(db, log).Some?
    decreases |log|
  {
    if log == [] then []
    else EventOf(db, log[0], s) + History(Serial(db, log[0].req, log[0].env).value, log[1..], s)
  }

  function Creations(log: seq<Entry>, s: SlotId): nat {
    if log == [] then 0
    else (if log[0].req.Create? && log[0].req.slot == s then 1 else 0) + Creations(log[1..], s)
  }

  /** Starting with `holder`, bookings fall on a free slot and releases come from the holder;
      at the end `last` holds the slot. */
  predicate Alternates(holder: Option<UserId>, events: seq<SlotEvent>, last: Option<UserId>)
    decreases |events|
  {
    if events == [] then holder == last
    else if events[0].BookedBy? then holder == None && Alternates(Some(events[0].user), events[1..], last)
    else holder == Some(events[0].user) && Alternates(None, events[1..], last)
  }

  /** The row of a slot after one commit; `None` if the commit leaves it alone. */
  function RowAfter(db: Db, e: Entry, s: SlotId): Option<Option<UserId>> {
    match e.req
    case Book(_, slot, u) => if slot == s then Some(Some(u)) else None
    case CancelBooking(_, slot, _) => if slot == s then Some(None) else None
    case CancelGame(g, _) => if g in db.games && db.games[g].slot == s then Some(None) else None
    case _ => None
  }

  lemma CommitSetsRow(db: Db, e: Entry, s: SlotId)
    requires s in db.slots && Serial(db, e.req, e.env).Ok?
    ensures
      var after, row := Serial(db, e.req, e.env).value, RowAfter(db, e, s);
      s in after.slots && after.slots[s].bookedBy == if row.Some? then row.value else db.slots[s].bookedBy
  {
    match e.req
    case Book(_, _, _) =>
    case CancelBooking(_, _, _) =>
    case Create(_, _, _, _) =>
    case Join(_, _) =>
    case Leave(_, _) =>
    case CancelGame(_, _) =>
    case SetStatus(_, _, _) =>
  }

  lemma EventMatchesRow(db: Db, e: Entry, s: SlotId)
    requires Good(db) && s in db.slots && Serial(db, e.req, e.env).Ok?
    ensures
      var after := Serial(db, e.req, e.env).value;
      && s in after.slots
      && Alternates(db.slots[s].bookedBy, EventOf(db, e, s), after.slots[s].bookedBy)
  {
    CommitSetsRow(db, e, s);
    match e.req
    case Book(_, slot, _) => assert SlotStatusAgrees(db.slots[slot]);
    case CancelBooking(_, _, _) =>
    case CancelGame(g, _) => assert HeldByCreator(db, g);
    case _ =>
  }

  lemma {:induction false} HistoryAlternates(db: Db, log: seq<Entry>, s: SlotId)
    requires Good(db) && s in db.slots && Replay(db, log).Some?
    ensures s in Replay(db, log).value.slots
    ensures Alternates(db.slots[s].bookedBy, History(db, log, s), Replay(db, log).value.slots[s].bookedBy)
    decreases |log|
  {
    if log != [] {
      var next := Serial(db, log[0].req, log[0].env).value;
      EventMatchesRow(db, log[0], s);
      SerialKeepsGood(db, log[0].req, log[0].env);
      HistoryAlternates(next, log[1..], s);
      if EventOf(db, log[0], s) != [] {
        var events := History(db, log, s);
        assert events[1..] == History(next, log[1..], s);
      } else {
        assert History(db, log, s) == History(next, log[1..], s);
      }
    }
  }

  lemma {:induction false} AlternatesByIndex(holder: Option<UserId>, events: seq<SlotEvent>, last: Option<UserId>, i: nat)
    requires Alternates(holder, events, last) && i < |events|
    ensures events[i].BookedBy? <==> (if holder == None then i % 2 == 0 else i % 2 == 1)
    ensures events[i].ReleasedBy? ==>
              if i == 0 then holder == Some(events[0].user)
              else events[i - 1] == BookedBy(events[i].user)
    decreases |events|
  {
    if i > 0 {
      AlternatesByIndex(if events[0].BookedBy? then Some(events[0].user) else None, events[1..], last, i - 1);
    }
  }

  lemma {:induction false} AlternatesEnd(holder: Option<UserId>, events: seq<SlotEvent>, last: Option<UserId>)
    requires Alternates(holder, events, last)
    ensures last == if events == [] then holder
                    else if events[|events| - 1].BookedBy? then Some(events[|events| - 1].user) else None
    decreases |events|
  {
    if events != [] {
      AlternatesEnd(if events[0].BookedBy? then Some(events[0].user) else None, events[1..], last);
    }
  }

  predicate BookReleaseBook(events: seq<SlotEvent>) {
    && (forall i :: 0 <= i < |events| ==> (events[i].BookedBy? <==> i % 2 == 0))
    && (forall i :: 0 <= i < |events| && i % 2 == 1 ==> events[i - 1] == BookedBy(events[i].user))
  }

  lemma AlternatesFromFree(events: seq<SlotEvent>, last: Option<UserId>)
    requires Alternates(None, events, last)
    ensures BookReleaseBook(events)
    ensures last == if |events| % 2 == 1 then Some(events[|events| - 1].user) else None
  {
    forall i | 0 <= i < |events|
      ensures events[i].BookedBy? <==> i % 2 == 0
      ensures i % 2 == 1 ==> events[i - 1] == BookedBy(events[i].user)
    {
      AlternatesByIndex(None, events, last, i);
    }
    AlternatesEnd(None, events, last);
  }

  /** In every interleaving, the commits that touch a slot are book, release, book, release, …,
      and a release, be it `cancel_booking` or `cancel_game`, is asked for by the user of the
      booking just before it; the row names the last booker exactly while it is booked. */
  lemma SlotHistoryAlternates(first: Db, actions: seq<Action>, s: SlotId)
    requires Initial(first) && s in first.slots
    ensures
      var last := Exec(Start(first), actions);
      && Replay(first, last.log).Some?
      && s in last.db.slots
      && var events := History(first, last.log, s);
         && BookReleaseBook(events)
         && last.db.slots[s].bookedBy == (if |events| % 2 == 1 then Some(events[|events| - 1].user) else None)
  {
    ReachableIsSound(first, actions);
    InitialIsGood(first);
    var last := Exec(Start(first), actions);
    HistoryAlternates(first, last.log, s);
    AlternatesFromFree(History(first, last.log, s), last.db.slots[s].bookedBy);
  }

  lemma {:induction false} CreationsBound(db: Db, log: seq<Entry>, s: SlotId)
    requires Replay(db, log).Some?
    ensures Creations(log, s) <= (if SlotHasGame(db, s) then 0 else 1)
    ensures SlotHasGame(Replay(db, log).value, s) <==> SlotHasGame(db, s) || Creations(log, s) == 1
    decreases |log|
  {
    if log != [] {
      var next := Serial(db, log[0].req, log[0].env).value;
      SlotGamesAfter(db, log[0], s);
      CreationsBound(next, log[1..], s);
    }
  }

  lemma SlotGamesAfter(db: Db, e: Entry, s: SlotId)
    requires Serial(db, e.req, e.env).Ok?
    ensures SlotHasGame(Serial(db, e.req, e.env).value, s)
            <==> SlotHasGame(db, s) || (e.req.Create? && e.req.slot == s)
    ensures e.req.Create? && e.req.slot == s ==> !SlotHasGame(db, s)
  {
    var next := Serial(db, e.req, e.env).value;
    SerialMovesForward(db, e.req, e.env);
    if e.req.Create? {
      assert next.games[e.env.newId].slot == e.req.slot;
    } else {
      assert next.games.Keys == db.games.Keys;
    }
    if SlotHasGame(db, s) {
      var g :| g in db.games && db.games[g].slot == s;
      assert next.games[g].slot == s;
    }
  }

  /** At most one game is ever created for a slot, even after the first was cancelled and the
      slot booked again: the unique index is stricter than the `status != 'cancelled'` query. */
  lemma OneGamePerSlotEver(first: Db, actions: seq<Action>, s: SlotId)
    requires Initial(first)
    ensures
      var last := Exec(Start(first), actions);
      && Creations(last.log, s) <= 1
      && (Creations(last.log, s) == 1 <==> SlotHasGame(last.db, s))
  {
    ReachableIsSound(first, actions);
    CreationsBound(first, Exec(Start(first), actions).log, s);
  }

  /** What a later `create_game` on such a slot is told: the query passes, the index refuses. */
  lemma CreateAfterCancelHitsTheIndex(db: Db, s: SlotId, u: UserId, sport: Sport, n: int, env: Env)
    requires Good(db) && s in db.slots && db.slots[s].status == Booked && db.slots[s].bookedBy == Some(u)
    requires db.courts[db.slots[s].court].sport == sport && 2 <= AsI16(n) <= 30 && env.newId !in db.games
    ensures CreateGame(db, s, u, sport, n, env).Ok? <==> !SlotHasGame(db, s)
    ensures CreateGame(db, s, u, sport, n, env) == Err(UniqueViolation)
            <==> SlotHasGame(db, s) && forall g :: g in db.games && db.games[g].slot == s ==> db.games[g].status == Cancelled
  {}
}
