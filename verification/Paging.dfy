/** Pagination in saturating 64-bit arithmetic, against LIMIT/OFFSET lists and their counts. */
module Paging {
  import opened Wrappers
  import opened Tables

  const I64_MAX := 0x7fff_ffff_ffff_ffff

  type I64 = x: int | -0x8000_0000_0000_0000 <= x <= 0x7fff_ffff_ffff_ffff

  function Saturate(x: int): I64 {
    if x > I64_MAX then I64_MAX else if x < -I64_MAX - 1 then -I64_MAX - 1 else x
  }

  datatype Pagination = Pagination(page: Option<I64>, perPage: Option<I64>) {
    function Page(): I64 {
      var requested := if page.Some? then page.value else 1;
      if requested > 1 then requested else 1
    }

    function EffectiveLimit(): I64 {
      var requested := if perPage.Some? then perPage.value else 20;
      if requested < 1 then 1 else if requested > 50 then 50 else requested
    }

    function Offset(): I64 {
      Saturate(Saturate(Page() - 1) * EffectiveLimit())
    }
  }

  function Min(a: int, b: int): int {
    if a < b then a else b
  }

  /** `LIMIT l OFFSET o`. */
  function Window<T>(rows: seq<T>, limit: nat, offset: nat): seq<T> {
    var from := Min(offset, |rows|);
    rows[from..Min(from + limit, |rows|)]
  }

  function PageOf<T>(rows: seq<T>, p: Pagination): seq<T> {
    OffsetIsNatural(p);
    Window(rows, p.EffectiveLimit(), p.Offset())
  }

  lemma OffsetIsNatural(p: Pagination)
    ensures p.Offset() >= 0
  {
    assert p.Page() - 1 >= 0;
    assert (p.Page() - 1) * p.EffectiveLimit() >= 0;
  }

  /** Saturation shows nowhere: a page is the slice exact arithmetic gives. */
  lemma PageIsExactSlice<T>(rows: seq<T>, p: Pagination)
    requires |rows| <= I64_MAX
    ensures
      var limit := p.EffectiveLimit();
      && 0 <= (p.Page() - 1) * limit <= p.Page() * limit
      && PageOf(rows, p) == rows[Min((p.Page() - 1) * limit, |rows|)..Min(p.Page() * limit, |rows|)]
  {
    OffsetIsNatural(p);
    var limit := p.EffectiveLimit();
    assert p.Page() * limit == (p.Page() - 1) * limit + limit;
    assert (p.Page() - 1) * limit >= 0;
  }

  /** What the clamps let through: page 1 unless a later one is asked for, and 20 rows unless
      asked otherwise, between 1 and 50. */
  lemma ClampsMean(p: Pagination)
    ensures p.page == None ==> p.Page() == 1
    ensures p.page.Some? && p.page.value >= 1 ==> p.Page() == p.page.value
    ensures p.page.Some? && p.page.value < 1 ==> p.Page() == 1
    ensures p.perPage == None ==> p.EffectiveLimit() == 20
    ensures p.perPage.Some? && 1 <= p.perPage.value <= 50 ==> p.EffectiveLimit() == p.perPage.value
    ensures p.perPage.Some? && p.perPage.value < 1 ==> p.EffectiveLimit() == 1
    ensures p.perPage.Some? && p.perPage.value > 50 ==> p.EffectiveLimit() == 50
  {}

  /** Pages 1 to `n` in one piece. */
  function FirstPages<T>(rows: seq<T>, perPage: Option<I64>, n: nat): seq<T>
    requires n <= I64_MAX
  {
    if n == 0 then [] else FirstPages(rows, perPage, n - 1) + PageOf(rows, Pagination(Some(n), perPage))
  }

  lemma {:induction false} FirstPagesArePrefix<T>(rows: seq<T>, perPage: Option<I64>, n: nat)
    requires |rows| <= I64_MAX && n <= I64_MAX
    ensures
      var limit := Pagination(None, perPage).EffectiveLimit();
      0 <= n * limit && FirstPages(rows, perPage, n) == rows[..Min(n * limit, |rows|)]
  {
    var limit := Pagination(None, perPage).EffectiveLimit();
    if n > 0 {
      var p := Pagination(Some(n), perPage);
      assert p.EffectiveLimit() == limit && p.Page() == n;
      FirstPagesArePrefix(rows, perPage, n - 1);
      PageIsExactSlice(rows, p);
      assert n * limit == (n - 1) * limit + limit;
    }
  }

  /** Pages tile the list: once they reach its length they are the whole list, no gap and no
      repeat, and their lengths sum to its length. */
  lemma PagesTile<T>(rows: seq<T>, perPage: Option<I64>, n: nat)
    requires |rows| <= I64_MAX && n <= I64_MAX
    requires n * Pagination(None, perPage).EffectiveLimit() >= |rows|
    ensures FirstPages(rows, perPage, n) == rows
  {
    FirstPagesArePrefix(rows, perPage, n);
  }

  /** A page past the end is empty, also where the offset saturates. */
  lemma PageIsEmptyIff<T>(rows: seq<T>, p: Pagination)
    requires |rows| <= I64_MAX
    ensures PageOf(rows, p) == [] <==> (p.Page() - 1) * p.EffectiveLimit() >= |rows|
  {
    PageIsExactSlice(rows, p);
    assert p.Page() * p.EffectiveLimit() == (p.Page() - 1) * p.EffectiveLimit() + p.EffectiveLimit();
  }

  // ── The game list against its count ───────────────────────────

  /** `near` is the set of courts within the radius, for the geo queries. */
  datatype GameQuery = GameQuery(
    status: Option<GameStatus>,
    sport: Option<Sport>,
    day: Option<int>,
    dayLength: nat,
    near: Option<set<CourtId>>)

  predicate Matches(db: Db, q: GameQuery, g: GameId)
    requires g in db.games && db.games[g].slot in db.slots
  {
    var game, slot := db.games[g], db.slots[db.games[g].slot];
    && (if q.status.Some? then game.status == q.status.value else game.status == Open || game.status == Full)
    && (q.sport.Some? ==> game.sport == q.sport.value)
    && (q.day.Some? ==> q.day.value <= slot.start < q.day.value + q.dayLength)
    && (q.near.Some? ==> slot.court in q.near.value)
  }

  /** The list query joins slots, courts and users; a game whose joins find nothing drops out. */
  predicate Listed(db: Db, users: set<UserId>, q: GameQuery, g: GameId) {
    && g in db.games && db.games[g].slot in db.slots
    && db.slots[db.games[g].slot].court in db.courts
    && db.games[g].creator in users
    && Matches(db, q, g)
  }

  /** The rows in the order `ordered` puts the games table in. */
  function ListRows(db: Db, users: set<UserId>, q: GameQuery, ordered: seq<GameId>): seq<GameId> {
    if ordered == [] then []
    else
      var rest := ListRows(db, users, q, ordered[1..]);
      if Listed(db, users, q, ordered[0]) then [ordered[0]] + rest else rest
  }

  /** Whose creators have an account, as the foreign key says. */
  predicate CreatorsKnown(db: Db, users: set<UserId>) {
    forall g :: g in db.games ==> db.games[g].creator in users
  }

  /** A game is listed if and only if its status is the one asked for, or open or full when none
      is; its sport is the one asked for, if one is; its slot begins on the day asked for, if one
      is; and its court is within the radius asked for, if one is. */
  lemma ListedIff(db: Db, users: set<UserId>, q: GameQuery, g: GameId)
    requires Constraints(db) && CreatorsKnown(db, users)
    ensures
      Listed(db, users, q, g) <==>
        && g in db.games
        && (q.status == None ==> db.games[g].status == Open || db.games[g].status == Full)
        && (q.status.Some? ==> db.games[g].status == q.status.value)
        && (q.sport.Some? ==> db.games[g].sport == q.sport.value)
        && (q.day.Some? ==> q.day.value <= db.slots[db.games[g].slot].start
                            && db.slots[db.games[g].slot].start < q.day.value + q.dayLength)
        && (q.near.Some? ==> db.slots[db.games[g].slot].court in q.near.value)
  {}

  /** Without the foreign keys the joins would drop a game whose slot, court or creator is gone. */
  lemma JoinsFindRows(db: Db, users: set<UserId>, q: GameQuery, g: GameId)
    requires Listed(db, users, q, g)
    ensures g in db.games && db.games[g].slot in db.slots && db.slots[db.games[g].slot].court in db.courts
            && db.games[g].creator in users
  {}

  /** The rows are the listed games, in the order of the table. */
  lemma {:induction false} ListRowsInOrder(db: Db, users: set<UserId>, q: GameQuery, before: seq<GameId>, after: seq<GameId>)
    ensures ListRows(db, users, q, before + after) == ListRows(db, users, q, before) + ListRows(db, users, q, after)
    decreases |before|
  {
    if before == [] {
      assert before + after == after;
    } else {
      assert (before + after)[1..] == before[1..] + after;
      ListRowsInOrder(db, users, q, before[1..], after);
    }
  }

  lemma OneRow(db: Db, users: set<UserId>, q: GameQuery, g: GameId)
    ensures ListRows(db, users, q, [g]) == if Listed(db, users, q, g) then [g] else []
  {
    assert [g][1..] == [];
  }

  lemma {:induction false} RowsAreListed(db: Db, users: set<UserId>, q: GameQuery, ordered: seq<GameId>, g: GameId)
    ensures g in ListRows(db, users, q, ordered) <==> g in ordered && Listed(db, users, q, g)
  {
    if ordered != [] {
      RowsAreListed(db, users, q, ordered[1..], g);
    }
  }

  /** The list without a status is those of the open and of the full games, and the lists of the
      five statuses have every game once. */
  lemma StatusListsPartition(db: Db, users: set<UserId>, q: GameQuery, ordered: seq<GameId>, g: GameId)
    requires Constraints(db) && CreatorsKnown(db, users)
    ensures g in ListRows(db, users, q.(status := None), ordered)
            <==> g in ListRows(db, users, q.(status := Some(Open)), ordered)
                 || g in ListRows(db, users, q.(status := Some(Full)), ordered)
    ensures g in ordered && g in db.games && q.sport == None && q.day == None && q.near == None
            ==> forall status :: g in ListRows(db, users, q.(status := Some(status)), ordered) <==> status == db.games[g].status
  {
    RowsAreListed(db, users, q.(status := None), ordered, g);
    ListedIff(db, users, q.(status := None), g);
    forall status: GameStatus
      ensures g in ListRows(db, users, q.(status := Some(status)), ordered)
              <==> g in ordered && Listed(db, users, q.(status := Some(status)), g)
    {
      RowsAreListed(db, users, q.(status := Some(status)), ordered, g);
    }
    forall status: GameStatus
      ensures g in db.games && Listed(db, users, q.(status := Some(status)), g) ==> status == db.games[g].status
    {
      ListedIff(db, users, q.(status := Some(status)), g);
    }
  }

  /** The count query joins slots only, and courts for the radius. */
  function Counted(db: Db, q: GameQuery): set<GameId> {
    set g | g in db.games && db.games[g].slot in db.slots && Matches(db, q, g)
  }

  ghost predicate Enumerates(ordered: seq<GameId>, games: set<GameId>) {
    && (forall g :: g in games <==> g in ordered)
    && (forall i, j :: 0 <= i < j < |ordered| ==> ordered[i] != ordered[j])
  }

  lemma {:induction false} ListRowsAre(db: Db, users: set<UserId>, q: GameQuery, ordered: seq<GameId>)
    requires forall i, j :: 0 <= i < j < |ordered| ==> ordered[i] != ordered[j]
    ensures |ListRows(db, users, q, ordered)| == |set g | g in ordered && Listed(db, users, q, g)|
  {
    var listed := set g | g in ordered && Listed(db, users, q, g);
    if ordered == [] {
      assert listed == {};
    } else {
      var rest := set g | g in ordered[1..] && Listed(db, users, q, g);
      ListRowsAre(db, users, q, ordered[1..]);
      assert ordered[0] !in ordered[1..];
      if Listed(db, users, q, ordered[0]) {
        assert listed == {ordered[0]} + rest;
      } else {
        assert listed == rest;
      }
    }
  }

  /** `total` counts the rows the list would give without LIMIT: the joins the count leaves
      out find a row for every game, by the foreign keys on courts and users. */
  lemma TotalCountsTheList(db: Db, users: set<UserId>, q: GameQuery, ordered: seq<GameId>)
    requires Constraints(db) && Enumerates(ordered, db.games.Keys)
    requires CreatorsKnown(db, users)
    ensures |ListRows(db, users, q, ordered)| == |Counted(db, q)|
    ensures forall g :: g in ListRows(db, users, q, ordered) <==> g in Counted(db, q)
  {
    forall g
      ensures g in ListRows(db, users, q, ordered) <==> g in ordered && Listed(db, users, q, g)
    {
      RowsAreListed(db, users, q, ordered, g);
    }
    ListRowsAre(db, users, q, ordered);
    assert (set g | g in ordered && Listed(db, users, q, g)) == Counted(db, q);
  }

  /** Paging through a game list shows `total` rows, each listed game once. */
  lemma PagesShowTotal(db: Db, users: set<UserId>, q: GameQuery, ordered: seq<GameId>, perPage: Option<I64>, n: nat)
    requires Constraints(db) && Enumerates(ordered, db.games.Keys)
    requires CreatorsKnown(db, users)
    requires |Counted(db, q)| <= I64_MAX && n <= I64_MAX
    requires n * Pagination(None, perPage).EffectiveLimit() >= |Counted(db, q)|
    ensures FirstPages(ListRows(db, users, q, ordered), perPage, n) == ListRows(db, users, q, ordered)
    ensures |FirstPages(ListRows(db, users, q, ordered), perPage, n)| == |Counted(db, q)|
  {
    TotalCountsTheList(db, users, q, ordered);
    PagesTile(ListRows(db, users, q, ordered), perPage, n);
  }
}
