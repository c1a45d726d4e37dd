/** The sellable calendar the picker is drawn from, against the search that decides
    what is sold (internal/availability). */
module Calendar {
  import opened Common
  import opened Inn
  import Protocol

  datatype Room = Room(slug: string, maxOccupancy: int, sortOrder: int)

  datatype Rate = Rate(price: int, minStay: int)

  /** A room-night is the primary key of the rate calendar. */
  datatype RoomNight = RoomNight(room: int, night: int)

  datatype Tables = Tables(rooms: map<int, Room>, rates: map<RoomNight, Rate>, occupied: Occupied)

  /** The constraints on the three tables: slugs are unique, a minimum stay is at
      least a night, and an occupied span is never empty. */
  ghost predicate TablesOk(t: Tables) {
    && (forall a, b :: a in t.rooms && b in t.rooms && t.rooms[a].slug == t.rooms[b].slug ==> a == b)
    && (forall k :: k in t.rates ==> t.rates[k].minStay >= 1)
    && (forall s :: s in t.occupied ==> s.checkin < s.checkout)
  }

  // ---------------------------------------------------------------- the two queries

  predicate Occupies(t: Tables, room: int, night: int) {
    exists s :: s in t.occupied && s.room == room && s.checkin <= night < s.checkout
  }

  predicate Sellable(t: Tables, room: int, night: int, guests: int) {
    && room in t.rooms && RoomNight(room, night) in t.rates
    && t.rooms[room].maxOccupancy >= guests
    && !Occupies(t, room, night)
  }

  datatype Row = Row(room: int, slug: string, night: int, minStay: int)

  /** ORDER BY r.sort_order, c.room_id, c.date. */
  predicate Before(t: Tables, a: Row, b: Row)
    requires a.room in t.rooms && b.room in t.rooms
  {
    var x, y := t.rooms[a.room].sortOrder, t.rooms[b.room].sortOrder;
    x < y || (x == y && (a.room < b.room || (a.room == b.room && a.night < b.night)))
  }

  predicate IsRowOf(t: Tables, r: Row, guests: int) {
    && Sellable(t, r.room, r.night, guests)
    && r.slug == t.rooms[r.room].slug && r.minStay == t.rates[RoomNight(r.room, r.night)].minStay
  }

  /** ListSellableNights: every sellable room-night of the window, once, in order. */
  ghost predicate IsListing(t: Tables, rows: seq<Row>, from: int, to: int, guests: int) {
    && (forall i :: 0 <= i < |rows| ==> IsRowOf(t, rows[i], guests) && from <= rows[i].night < to)
    && (forall i, j :: 0 <= i < j < |rows| ==> Before(t, rows[i], rows[j]))
    && (forall room, night :: Sellable(t, room, night, guests) && from <= night < to ==> Listed(rows, room, night))
  }

  ghost predicate Listed(rows: seq<Row>, room: int, night: int) {
    exists i :: 0 <= i < |rows| && rows[i].room == room && rows[i].night == night
  }

  function PricedNights(t: Tables, room: int, checkin: int, checkout: int): set<int> {
    set n | checkin <= n < checkout && RoomNight(room, n) in t.rates
  }

  /** SearchAvailability, for one room: the joined nights are counted, not compared
      one by one, and a room without any is in no group at all. */
  ghost predicate Offered(t: Tables, room: int, checkin: int, checkout: int, guests: int) {
    && room in t.rooms && t.rooms[room].maxOccupancy >= guests
    && !Taken(t.occupied, Stay(room, checkin, checkout))
    && PricedNights(t, room, checkin, checkout) != {}
    && |PricedNights(t, room, checkin, checkout)| == checkout - checkin
    && RoomNight(room, checkin) in t.rates
    && checkout - checkin >= t.rates[RoomNight(room, checkin)].minStay
  }

  function Nights(checkin: int, checkout: int): (s: set<int>)
    requires checkin <= checkout
    ensures |s| == checkout - checkin
    ensures forall n :: n in s <==> checkin <= n < checkout
    decreases checkout - checkin
  {
    if checkin == checkout then {} else Nights(checkin, checkout - 1) + {checkout - 1}
  }

  lemma {:induction false} SubsetOfSameSize(a: set<int>, b: set<int>)
    requires a <= b && |a| == |b|
    ensures a == b
  {
    assert b == a + (b - a);
    assert |b - a| == 0;
  }

  /** Counting the priced nights is the same as asking for every one of them. */
  lemma {:induction false} CountMeansEveryNight(t: Tables, room: int, checkin: int, checkout: int)
    requires checkin < checkout
    ensures |PricedNights(t, room, checkin, checkout)| == checkout - checkin
       <==> forall n :: checkin <= n < checkout ==> RoomNight(room, n) in t.rates
  {
    var priced, all := PricedNights(t, room, checkin, checkout), Nights(checkin, checkout);
    if |priced| == checkout - checkin {
      SubsetOfSameSize(priced, all);
      forall n | checkin <= n < checkout ensures RoomNight(room, n) in t.rates {
        assert n in all;
      }
    }
    if forall n :: checkin <= n < checkout ==> RoomNight(room, n) in t.rates {
      assert priced == all;
    }
  }

  /** Two non-empty half-open spans overlap exactly when they share a night. */
  lemma {:induction false} OverlapMeansASharedNight(t: Tables, room: int, checkin: int, checkout: int)
    requires TablesOk(t) && checkin < checkout
    ensures Taken(t.occupied, Stay(room, checkin, checkout))
        <==> exists n :: checkin <= n < checkout && Occupies(t, room, n)
  {
    var stay := Stay(room, checkin, checkout);
    if Taken(t.occupied, stay) {
      var s :| s in t.occupied && Overlap(s, stay);
      var n := if s.checkin > checkin then s.checkin else checkin;
      assert Occupies(t, room, n);
    }
    if n :| checkin <= n < checkout && Occupies(t, room, n) {
      var s :| s in t.occupied && s.room == room && s.checkin <= n < s.checkout;
      assert Overlap(s, stay);
    }
  }

  /** The search, night by night: what the calendar has to agree with. */
  lemma {:induction false} OfferedNightByNight(t: Tables, room: int, checkin: int, checkout: int, guests: int)
    requires TablesOk(t) && checkin < checkout
    ensures Offered(t, room, checkin, checkout, guests)
       <==> (forall n :: checkin <= n < checkout ==> Sellable(t, room, n, guests))
            && Sellable(t, room, checkin, guests)
            && checkout - checkin >= t.rates[RoomNight(room, checkin)].minStay
  {
    CountMeansEveryNight(t, room, checkin, checkout);
    OverlapMeansASharedNight(t, room, checkin, checkout);
    if Offered(t, room, checkin, checkout, guests) {
      forall n | checkin <= n < checkout ensures Sellable(t, room, n, guests) {
        assert !Occupies(t, room, n);
      }
    }
    if (forall n :: checkin <= n < checkout ==> Sellable(t, room, n, guests)) && Sellable(t, room, checkin, guests) {
      assert checkin in PricedNights(t, room, checkin, checkout);
      forall n | checkin <= n < checkout ensures RoomNight(room, n) in t.rates && !Occupies(t, room, n) {
        assert Sellable(t, room, n, guests);
      }
    }
  }

  /** A room is sold to every party it sleeps, and to no larger one. */
  lemma {:induction false} SoldToPartiesThatFit(t: Tables, room: int, checkin: int, checkout: int, guests: int)
    requires room in t.rooms
    ensures var most := t.rooms[room].maxOccupancy;
      && (Offered(t, room, checkin, checkout, guests) <==>
            guests <= most && Offered(t, room, checkin, checkout, most))
      && (Sellable(t, room, checkin, guests) <==> guests <= most && Sellable(t, room, checkin, most))
  {
  }

  /** The listing goes by the rooms' own order, room by room and night by night. */
  lemma {:induction false} ListingGoesByRoomAndNight(t: Tables, rows: seq<Row>, from: int, to: int, guests: int,
        i: nat, j: nat)
    requires IsListing(t, rows, from, to, guests) && i < j < |rows|
    ensures rows[i].room in t.rooms && rows[j].room in t.rooms
    ensures t.rooms[rows[i].room].sortOrder <= t.rooms[rows[j].room].sortOrder
    ensures rows[i].room == rows[j].room ==> rows[i].night < rows[j].night
  {
    assert IsRowOf(t, rows[i], guests) && IsRowOf(t, rows[j], guests) && Before(t, rows[i], rows[j]);
  }

  // ---------------------------------------------------------------- grouping

  /** A run of sellable nights, with the minimum stay in force on each. */
  datatype Span = Span(start: int, minStays: seq<int>)

  datatype RoomSpans = RoomSpans(slug: string, spans: seq<Span>)

  ghost predicate NoneEmpty(out: seq<RoomSpans>) {
    forall r :: 0 <= r < |out| ==> |out[r].spans| > 0
  }

  /** The last room of the list with one more row in it: appended to its last run
      when the row follows on from it, and otherwise the start of another. */
  function AddNight(spans: seq<Span>, follows: bool, row: Row): (r: seq<Span>)
    requires follows ==> |spans| > 0
    ensures |r| > 0
  {
    var n := |spans| - 1;
    if follows then spans[n := Span(spans[n].start, spans[n].minStays + [row.minStay])]
    else spans + [Span(row.night, [row.minStay])]
  }

  function Stitch(out: seq<RoomSpans>, prev: int, row: Row): (r: seq<RoomSpans>)
    requires NoneEmpty(out)
    ensures |r| > 0 && NoneEmpty(r)
  {
    var n := |out| - 1;
    if n < 0 || out[n].slug != row.slug then out + [RoomSpans(row.slug, AddNight([], false, row))]
    else out[n := RoomSpans(row.slug, AddNight(out[n].spans, row.night == prev + 1, row))]
  }

  /** What the loop has built after these rows; the night before the first is of no account. */
  function Grouped(rows: seq<Row>): (out: seq<RoomSpans>)
    ensures NoneEmpty(out) && (|rows| > 0 ==> |out| > 0)
  {
    if |rows| == 0 then []
    else Stitch(Grouped(rows[..|rows| - 1]), Prev(rows), rows[|rows| - 1])
  }

  function Prev(rows: seq<Row>): int {
    if |rows| < 2 then 0 else rows[|rows| - 2].night
  }

  /** group: one pass, appending to the last span of the last room or opening a new one. */
  method Group(rows: seq<Row>) returns (out: seq<RoomSpans>)
    ensures out == Grouped(rows)
  {
    out := [];
    var roomIdx, prev := -1, 0;
    for i := 0 to |rows|
      invariant out == Grouped(rows[..i]) && roomIdx == |out| - 1
      invariant prev == if i == 0 then 0 else rows[i - 1].night
    {
      assert rows[..i + 1][..i] == rows[..i] && Prev(rows[..i + 1]) == prev;
      var row := rows[i];
      out := PlaceNight(out, roomIdx, prev, row);
      roomIdx := |out| - 1;
      prev := row.night;
    }
    assert rows[..|rows|] == rows;
  }

  /** The body of the loop. */
  method PlaceNight(rooms: seq<RoomSpans>, roomIdx: int, prev: int, row: Row) returns (out: seq<RoomSpans>)
    requires NoneEmpty(rooms) && roomIdx == |rooms| - 1
    ensures out == Stitch(rooms, prev, row)
  {
    out := rooms;
    var at := roomIdx;
    var newRoom := at < 0 || out[at].slug != row.slug;
    if newRoom {
      out := out + [RoomSpans(row.slug, [])];
      at := |out| - 1;
    }
    var spans := out[at].spans;
    if newRoom || row.night != prev + 1 {
      spans := spans + [Span(row.night, [])];
    }
    var last := |spans| - 1;
    spans := spans[last := spans[last].(minStays := spans[last].minStays + [row.minStay])];
    assert newRoom || row.night != prev + 1 ==> spans == out[at].spans + [Span(row.night, [] + [row.minStay])];
    assert [] + [row.minStay] == [row.minStay]
      && [] + [Span(row.night, [row.minStay])] == [Span(row.night, [row.minStay])];
    out := out[at := out[at].(spans := spans)];
    assert newRoom ==> out == rooms + [RoomSpans(row.slug, spans)];
  }

  // ---------------------------------------------------------------- nothing lost, nothing added

  datatype Night = Night(slug: string, night: int, minStay: int)

  function NightOf(r: Row): Night {
    Night(r.slug, r.night, r.minStay)
  }

  function NightsOfRows(rows: seq<Row>): seq<Night> {
    if |rows| == 0 then [] else NightsOfRows(rows[..|rows| - 1]) + [NightOf(rows[|rows| - 1])]
  }

  function NightsOfRun(slug: string, start: int, minStays: seq<int>): seq<Night> {
    if |minStays| == 0 then []
    else
      NightsOfRun(slug, start, minStays[..|minStays| - 1])
        + [Night(slug, start + |minStays| - 1, minStays[|minStays| - 1])]
  }

  function NightsOfSpans(slug: string, spans: seq<Span>): seq<Night> {
    if |spans| == 0 then []
    else
      NightsOfSpans(slug, spans[..|spans| - 1])
      + NightsOfRun(slug, spans[|spans| - 1].start, spans[|spans| - 1].minStays)
  }

  function NightsOfRooms(out: seq<RoomSpans>): seq<Night> {
    if |out| == 0 then []
    else NightsOfRooms(out[..|out| - 1]) + NightsOfSpans(out[|out| - 1].slug, out[|out| - 1].spans)
  }

  function End(s: Span): int {
    s.start + |s.minStays|
  }

  function LastSpan(out: seq<RoomSpans>): Span
    requires |out| > 0 && NoneEmpty(out)
  {
    var spans := out[|out| - 1].spans;
    spans[|spans| - 1]
  }

  /** The run being extended always ends with the row before. */
  lemma {:induction false} LastRunEndsAtLastRow(rows: seq<Row>)
    requires |rows| > 0
    ensures var out, row := Grouped(rows), rows[|rows| - 1];
      && out[|out| - 1].slug == row.slug
      && |LastSpan(out).minStays| > 0 && End(LastSpan(out)) == row.night + 1
      && LastSpan(out).minStays[|LastSpan(out).minStays| - 1] == row.minStay
  {
    var init := rows[..|rows| - 1];
    if |init| > 0 {
      LastRunEndsAtLastRow(init);
    }
    StitchEnds(Grouped(init), Prev(rows), rows[|rows| - 1]);
    hide Stitch;
  }

  lemma {:induction false} StitchEnds(out: seq<RoomSpans>, prev: int, row: Row)
    requires NoneEmpty(out) && (|out| > 0 ==> End(LastSpan(out)) == prev + 1)
    ensures var after := Stitch(out, prev, row);
      && after[|after| - 1].slug == row.slug
      && |LastSpan(after).minStays| > 0 && End(LastSpan(after)) == row.night + 1
      && LastSpan(after).minStays[|LastSpan(after).minStays| - 1] == row.minStay
  {
  }

  lemma {:induction false} AddNightAdds(slug: string, spans: seq<Span>, follows: bool, row: Row)
    requires follows ==> |spans| > 0 && End(spans[|spans| - 1]) == row.night
    ensures NightsOfSpans(slug, AddNight(spans, follows, row))
        == NightsOfSpans(slug, spans) + [Night(slug, row.night, row.minStay)]
  {
    var after := AddNight(spans, follows, row);
    var n := |after| - 1;
    var run := after[n].minStays;
    assert run[..|run| - 1] == if follows then spans[n].minStays else [];
    assert after[..n] == if follows then spans[..n] else spans;
    assert NightsOfRun(slug, after[n].start, run)
      == NightsOfRun(slug, after[n].start, run[..|run| - 1]) + [Night(slug, row.night, row.minStay)];
    if !follows {
      assert NightsOfRun(slug, after[n].start, []) == [];
    }
  }

  /** The runs, read off room by room, are exactly the rows in their order. */
  lemma {:induction false} GroupingLosesNothing(rows: seq<Row>)
    ensures NightsOfRooms(Grouped(rows)) == NightsOfRows(rows)
  {
    if |rows| > 0 {
      var init, row := rows[..|rows| - 1], rows[|rows| - 1];
      GroupingLosesNothing(init);
      if |init| > 0 {
        LastRunEndsAtLastRow(init);
      }
      StitchAdds(Grouped(init), Prev(rows), row);
    }
  }

  lemma {:induction false} StitchAdds(out: seq<RoomSpans>, prev: int, row: Row)
    requires NoneEmpty(out) && (|out| > 0 ==> End(LastSpan(out)) == prev + 1)
    ensures NightsOfRooms(Stitch(out, prev, row)) == NightsOfRooms(out) + [NightOf(row)]
  {
    var after, n := Stitch(out, prev, row), |out| - 1;
    if n < 0 || out[n].slug != row.slug {
      AddNightAdds(row.slug, [], false, row);
      assert after[..|after| - 1] == out;
      assert NightsOfSpans(row.slug, []) == [];
    } else {
      AddNightAdds(row.slug, out[n].spans, row.night == prev + 1, row);
      assert after[..n] == out[..n];
    }
  }

  /** No run could be longer: two runs side by side in a room leave a night between
      them unsold, and two rooms side by side are different rooms. */
  ghost predicate Maximal(out: seq<RoomSpans>) {
    && (forall r {:trigger out[r]} :: 0 <= r < |out| ==> RunsApart(out[r].spans))
    && forall r {:trigger out[r + 1]} :: 0 <= r < |out| - 1 ==> out[r].slug != out[r + 1].slug
  }

  ghost predicate RunsApart(spans: seq<Span>) {
    && (forall s :: 0 <= s < |spans| ==> |spans[s].minStays| > 0)
    && forall s {:trigger spans[s + 1]} :: 0 <= s < |spans| - 1 ==> End(spans[s]) != spans[s + 1].start
  }

  lemma {:induction false} RunsAreMaximal(rows: seq<Row>)
    ensures Maximal(Grouped(rows))
  {
    if |rows| > 0 {
      var init, row := rows[..|rows| - 1], rows[|rows| - 1];
      RunsAreMaximal(init);
      if |init| > 0 {
        LastRunEndsAtLastRow(init);
      }
      StitchStaysMaximal(Grouped(init), Prev(rows), row);
    }
  }

  lemma {:induction false} AddNightStaysApart(spans: seq<Span>, follows: bool, row: Row)
    requires RunsApart(spans) && (follows ==> |spans| > 0)
    requires |spans| > 0 ==> (follows <==> End(spans[|spans| - 1]) == row.night)
    ensures RunsApart(AddNight(spans, follows, row))
  {
    var after := AddNight(spans, follows, row);
    forall k | 0 <= k < |after| - 1 ensures End(after[k]) != after[k + 1].start {
      if k + 1 < |spans| {
        assert End(spans[k]) != spans[k + 1].start;
      }
    }
  }

  lemma {:induction false} StitchStaysMaximal(out: seq<RoomSpans>, prev: int, row: Row)
    requires NoneEmpty(out) && Maximal(out) && (|out| > 0 ==> End(LastSpan(out)) == prev + 1)
    ensures Maximal(Stitch(out, prev, row))
  {
    var after, n := Stitch(out, prev, row), |out| - 1;
    if n < 0 || out[n].slug != row.slug {
      AddNightStaysApart([], false, row);
    } else {
      AddNightStaysApart(out[n].spans, row.night == prev + 1, row);
    }
    hide AddNight, RunsApart, End;
    forall r | 0 <= r < |after| - 1 ensures after[r].slug != after[r + 1].slug {
      if r + 1 < |out| {
        assert out[r].slug != out[r + 1].slug;
      }
    }
  }

  // ---------------------------------------------------------------- runs and rows

  /** Row k is followed by the next night of the same room. */
  predicate Follows(rows: seq<Row>, k: int)
    requires 0 <= k < |rows| - 1
  {
    rows[k + 1].slug == rows[k].slug && rows[k + 1].night == rows[k].night + 1
  }

  /** Rows i to j are consecutive nights of one room. */
  ghost predicate Consecutive(rows: seq<Row>, i: nat, j: nat)
    requires i <= j < |rows|
  {
    forall k :: i <= k < j ==> Follows(rows, k)
  }

  lemma {:induction false} ConsecutiveBefore(rows: seq<Row>, i: nat, j: nat, n: nat)
    requires i <= j < n < |rows| && Consecutive(rows, i, j)
    ensures Consecutive(rows[..n], i, j)
  {
    forall k | i <= k < j ensures Follows(rows[..n], k) {
      assert Follows(rows, k);
    }
  }

  lemma {:induction false} FollowsWithin(rows: seq<Row>, i: nat, j: nat, k: nat)
    requires i <= k < j < |rows| && Consecutive(rows, i, j)
    ensures Follows(rows, k) && Consecutive(rows, i, k)
  {
  }

  lemma {:induction false} StitchExtends(out: seq<RoomSpans>, prev: int, row: Row)
    requires NoneEmpty(out) && |out| > 0 && out[|out| - 1].slug == row.slug && row.night == prev + 1
    ensures var after, span := Stitch(out, prev, row), LastSpan(out);
      |after| == |out| && after[|out| - 1].slug == row.slug
        && LastSpan(after) == Span(span.start, span.minStays + [row.minStay])
  {
  }

  /** A run already there stays where it is, perhaps with a night more. */
  lemma {:induction false} StitchKeepsSpan(out: seq<RoomSpans>, prev: int, row: Row, r: nat, s: nat)
    requires NoneEmpty(out) && r < |out| && s < |out[r].spans|
    ensures var after := Stitch(out, prev, row);
      && r < |after| && s < |after[r].spans| && after[r].slug == out[r].slug
      && after[r].spans[s].start == out[r].spans[s].start && out[r].spans[s].minStays <= after[r].spans[s].minStays
  {
  }

  /** And a night of a run was there before, or is the one just added. */
  lemma {:induction false} StitchedNight(out: seq<RoomSpans>, prev: int, row: Row, r: nat, s: nat, o: nat)
    requires NoneEmpty(out)
    requires var after := Stitch(out, prev, row);
      r < |after| && s < |after[r].spans| && o < |after[r].spans[s].minStays|
    ensures var after := Stitch(out, prev, row);
      || (r < |out| && s < |out[r].spans| && o < |out[r].spans[s].minStays|
          && after[r].slug == out[r].slug && after[r].spans[s].start == out[r].spans[s].start
          && after[r].spans[s].minStays[o] == out[r].spans[s].minStays[o])
      || (r == |after| - 1 && s == |after[r].spans| - 1 && o == |after[r].spans[s].minStays| - 1)
  {
  }

  /** The span covers these nights, with this minimum stay on the first. */
  predicate Contains(s: Span, first: int, last: int, minStay: int) {
    s.start <= first <= last < End(s) && s.minStays[first - s.start] == minStay
  }

  lemma {:induction false} ContainsOneMore(s: Span, first: int, last: int, minStay: int, next: int)
    requires Contains(s, first, last, minStay) && End(s) == last + 1
    ensures Contains(Span(s.start, s.minStays + [next]), first, last + 1, minStay)
  {
  }

  lemma {:induction false} RunIsInLastSpan(rows: seq<Row>, i: nat)
    requires i < |rows| && Consecutive(rows, i, |rows| - 1)
    ensures var out, j := Grouped(rows), |rows| - 1;
      && out[|out| - 1].slug == rows[i].slug
      && Contains(LastSpan(out), rows[i].night, rows[j].night, rows[i].minStay)
  {
    LastRunEndsAtLastRow(rows);
    hide Stitch, Consecutive, Contains;
    if i < |rows| - 1 {
      var init := rows[..|rows| - 1];
      FollowsWithin(rows, i, |rows| - 1, |rows| - 2);
      ConsecutiveBefore(rows, i, |rows| - 2, |rows| - 1);
      RunIsInLastSpan(init, i);
      StitchExtends(Grouped(init), Prev(rows), rows[|rows| - 1]);
      assert Follows(rows, |rows| - 2);
      ContainsOneMore(LastSpan(Grouped(init)), rows[i].night, rows[|rows| - 2].night, rows[i].minStay,
        rows[|rows| - 1].minStay);
    }
  }

  lemma {:induction false} RunIsInSomeSpan(rows: seq<Row>, i: nat, j: nat) returns (r: nat, s: nat)
    requires i <= j < |rows| && Consecutive(rows, i, j)
    ensures var out := Grouped(rows);
      && r < |out| && s < |out[r].spans| && out[r].slug == rows[i].slug
      && Contains(out[r].spans[s], rows[i].night, rows[j].night, rows[i].minStay)
  {
    if j == |rows| - 1 {
      RunIsInLastSpan(rows, i);
      var out := Grouped(rows);
      r, s := |out| - 1, |out[|out| - 1].spans| - 1;
    } else {
      var init := rows[..|rows| - 1];
      ConsecutiveBefore(rows, i, j, |rows| - 1);
      r, s := RunIsInSomeSpan(init, i, j);
      StitchKeepsSpan(Grouped(init), Prev(rows), rows[|rows| - 1], r, s);
      hide Stitch, Consecutive;
    }
  }

  /** Every night of every run is one of the rows. */
  lemma {:induction false} NightIsARow(rows: seq<Row>, r: nat, s: nat, o: nat) returns (i: nat)
    requires var out := Grouped(rows); r < |out| && s < |out[r].spans| && o < |out[r].spans[s].minStays|
    ensures var out := Grouped(rows);
      i < |rows| && NightOf(rows[i]) == Night(out[r].slug, out[r].spans[s].start + o, out[r].spans[s].minStays[o])
  {
    var init := rows[..|rows| - 1];
    var out, after := Grouped(init), Grouped(rows);
    StitchedNight(out, Prev(rows), rows[|rows| - 1], r, s, o);
    LastRunEndsAtLastRow(rows);
    hide Stitch, NoneEmpty;
    if r == |after| - 1 && s == |after[r].spans| - 1 && o == |after[r].spans[s].minStays| - 1 {
      i := |rows| - 1;
    } else {
      i := NightIsARow(init, r, s, o);
    }
  }

  // ---------------------------------------------------------------- the calendar and the search agree

  lemma {:induction false} RowIsSellable(t: Tables, rows: seq<Row>, from: int, to: int, guests: int, i: nat)
    requires IsListing(t, rows, from, to, guests) && i < |rows|
    ensures IsRowOf(t, rows[i], guests) && from <= rows[i].night < to
  {
  }

  lemma {:induction false} SellableIsListed(t: Tables, rows: seq<Row>, from: int, to: int, guests: int, room: int,
        night: int) returns (i: nat)
    requires IsListing(t, rows, from, to, guests) && Sellable(t, room, night, guests) && from <= night < to
    ensures i < |rows| && rows[i].room == room && rows[i].night == night && IsRowOf(t, rows[i], guests)
  {
    assert Listed(rows, room, night);
    i :| 0 <= i < |rows| && rows[i].room == room && rows[i].night == night;
  }

  /** Rows of one room come in the order of their nights, with nothing else between. */
  lemma {:induction false} RowsOfARoomClimb(t: Tables, rows: seq<Row>, from: int, to: int, guests: int, i: nat, k: nat)
    requires IsListing(t, rows, from, to, guests) && i < |rows| && k < |rows| && rows[i].room == rows[k].room
    ensures i < k <==> rows[i].night < rows[k].night
    ensures i + 1 < k ==> rows[i].night + 1 < rows[k].night
  {
    assert IsRowOf(t, rows[i], guests) && IsRowOf(t, rows[k], guests);
    if i < k {
      assert Before(t, rows[i], rows[k]);
    } else if k < i {
      assert Before(t, rows[k], rows[i]);
    }
    if i + 1 < k {
      assert IsRowOf(t, rows[i + 1], guests);
      assert Before(t, rows[i], rows[i + 1]) && Before(t, rows[i + 1], rows[k]);
    }
  }

  lemma {:induction false} ConsecutiveNightsAreNeighbours(t: Tables, rows: seq<Row>, from: int, to: int,
        guests: int, i: nat)
    requires IsListing(t, rows, from, to, guests) && i < |rows|
    requires rows[i].night + 1 < to && Sellable(t, rows[i].room, rows[i].night + 1, guests)
    ensures i + 1 < |rows| && rows[i + 1].room == rows[i].room && rows[i + 1].night == rows[i].night + 1
  {
    assert Listed(rows, rows[i].room, rows[i].night + 1);
    var k :| 0 <= k < |rows| && rows[k].room == rows[i].room && rows[k].night == rows[i].night + 1;
    RowsOfARoomClimb(t, rows, from, to, guests, i, k);
  }

  lemma {:induction false} StayIsARunOfRows(t: Tables, rows: seq<Row>, from: int, to: int, guests: int, i: nat, n: nat)
    requires IsListing(t, rows, from, to, guests) && i < |rows|
    requires rows[i].night + n < to
    requires forall night :: rows[i].night <= night <= rows[i].night + n ==> Sellable(t, rows[i].room, night, guests)
    ensures i + n < |rows| && Consecutive(rows, i, i + n)
    ensures rows[i + n].room == rows[i].room && rows[i + n].night == rows[i].night + n
  {
    if n > 0 {
      StayIsARunOfRows(t, rows, from, to, guests, i, n - 1);
      assert Sellable(t, rows[i].room, rows[i].night + n, guests);
      ConsecutiveNightsAreNeighbours(t, rows, from, to, guests, i + n - 1);
      hide Sellable, Before;
      assert IsRowOf(t, rows[i + n], guests) && IsRowOf(t, rows[i + n - 1], guests);
      assert Follows(rows, i + n - 1);
    }
  }

  /** Some run of this room's contains the whole stay, and its length meets the
      minimum stay stored at the arrival night. */
  ghost predicate CalendarOffers(out: seq<RoomSpans>, slug: string, checkin: int, checkout: int) {
    exists r, s :: 0 <= r < |out| && 0 <= s < |out[r].spans| && out[r].slug == slug
      && SpanOffers(out[r].spans[s], checkin, checkout)
  }

  predicate SpanOffers(s: Span, checkin: int, checkout: int) {
    s.start <= checkin < checkout <= End(s) && checkout - checkin >= s.minStays[checkin - s.start]
  }

  lemma {:induction false} SearchImpliesCalendar(t: Tables, rows: seq<Row>, from: int, to: int, guests: int,
        room: int, checkin: int, checkout: int)
    requires TablesOk(t) && IsListing(t, rows, from, to, guests)
    requires from <= checkin < checkout <= to && Offered(t, room, checkin, checkout, guests)
    ensures CalendarOffers(Grouped(rows), t.rooms[room].slug, checkin, checkout)
  {
    hide Sellable, Offered, IsListing, Grouped, Consecutive;
    OfferedNightByNight(t, room, checkin, checkout, guests);
    var i := SellableIsListed(t, rows, from, to, guests, room, checkin);
    StayIsARunOfRows(t, rows, from, to, guests, i, checkout - checkin - 1);
    var r, s := RunIsInSomeSpan(rows, i, i + checkout - checkin - 1);
    assert SpanOffers(Grouped(rows)[r].spans[s], checkin, checkout);
  }

  lemma {:induction false} NightOfRunIsSellable(t: Tables, rows: seq<Row>, from: int, to: int, guests: int,
        room: int, r: nat, s: nat, night: int)
    requires TablesOk(t) && IsListing(t, rows, from, to, guests) && room in t.rooms
    requires var out := Grouped(rows);
      r < |out| && s < |out[r].spans| && out[r].slug == t.rooms[room].slug
      && out[r].spans[s].start <= night < End(out[r].spans[s])
    ensures Sellable(t, room, night, guests) && from <= night < to
    ensures var span := Grouped(rows)[r].spans[s];
      span.minStays[night - span.start] == t.rates[RoomNight(room, night)].minStay
  {
    var span := Grouped(rows)[r].spans[s];
    var i := NightIsARow(rows, r, s, night - span.start);
    hide Grouped, IsListing;
    RowIsSellable(t, rows, from, to, guests, i);
    assert t.rooms[rows[i].room].slug == t.rooms[room].slug;
  }

  lemma {:induction false} CalendarImpliesSearch(t: Tables, rows: seq<Row>, from: int, to: int, guests: int,
        room: int, checkin: int, checkout: int)
    requires TablesOk(t) && IsListing(t, rows, from, to, guests)
    requires room in t.rooms && CalendarOffers(Grouped(rows), t.rooms[room].slug, checkin, checkout)
    ensures from <= checkin < checkout <= to && Offered(t, room, checkin, checkout, guests)
  {
    var out := Grouped(rows);
    var r, s :| 0 <= r < |out| && 0 <= s < |out[r].spans| && out[r].slug == t.rooms[room].slug
      && SpanOffers(out[r].spans[s], checkin, checkout);
    forall n | checkin <= n < checkout ensures Sellable(t, room, n, guests) {
      NightOfRunIsSellable(t, rows, from, to, guests, room, r, s, n);
    }
    NightOfRunIsSellable(t, rows, from, to, guests, room, r, s, checkin);
    NightOfRunIsSellable(t, rows, from, to, guests, room, r, s, checkout - 1);
    hide IsListing, Grouped, Sellable, Offered;
    OfferedNightByNight(t, room, checkin, checkout, guests);
  }

  /** The calendar agrees with the search: for every window, party and room, and
      every stay inside the window, the search offers the room exactly when the
      runs drawn from the sellable nights do. */
  lemma {:induction false} CalendarAgreesWithSearch(t: Tables, rows: seq<Row>, from: int, to: int, guests: int,
        room: int, checkin: int, checkout: int)
    requires TablesOk(t) && IsListing(t, rows, from, to, guests) && room in t.rooms
    requires from <= checkin < checkout <= to
    ensures Offered(t, room, checkin, checkout, guests)
        <==> CalendarOffers(Grouped(rows), t.rooms[room].slug, checkin, checkout)
  {
    if Offered(t, room, checkin, checkout, guests) {
      SearchImpliesCalendar(t, rows, from, to, guests, room, checkin, checkout);
    }
    if CalendarOffers(Grouped(rows), t.rooms[room].slug, checkin, checkout) {
      CalendarImpliesSearch(t, rows, from, to, guests, room, checkin, checkout);
    }
  }

  /** In order: each run of a room ends, and a night goes by, before the next begins. */
  ghost predicate Ordered(spans: seq<Span>) {
    forall s {:trigger spans[s + 1]} :: 0 <= s < |spans| - 1 ==> End(spans[s]) < spans[s + 1].start
  }

  lemma {:induction false} AddNightStaysOrdered(spans: seq<Span>, follows: bool, row: Row)
    requires Ordered(spans) && (follows ==> |spans| > 0)
    requires |spans| > 0 ==>
        if follows then End(spans[|spans| - 1]) == row.night else End(spans[|spans| - 1]) < row.night
    ensures Ordered(AddNight(spans, follows, row))
  {
    var after := AddNight(spans, follows, row);
    forall k | 0 <= k < |after| - 1 ensures End(after[k]) < after[k + 1].start {
      if k + 1 < |spans| {
        assert End(spans[k]) < spans[k + 1].start;
      }
    }
  }

  ghost predicate AllOrdered(out: seq<RoomSpans>) {
    forall r :: 0 <= r < |out| ==> Ordered(out[r].spans)
  }

  /** Within a room the rows go forward. */
  predicate Climbs(rows: seq<Row>, k: int)
    requires 0 <= k < |rows| - 1
  {
    rows[k].slug == rows[k + 1].slug ==> rows[k].night < rows[k + 1].night
  }

  lemma {:induction false} ListingClimbs(t: Tables, rows: seq<Row>, from: int, to: int, guests: int)
    requires TablesOk(t) && IsListing(t, rows, from, to, guests)
    ensures forall k :: 0 <= k < |rows| - 1 ==> Climbs(rows, k)
  {
    forall k | 0 <= k < |rows| - 1 ensures Climbs(rows, k) {
      assert IsRowOf(t, rows[k], guests) && IsRowOf(t, rows[k + 1], guests) && Before(t, rows[k], rows[k + 1]);
    }
  }

  lemma {:induction false} StitchStaysOrdered(out: seq<RoomSpans>, prev: int, row: Row)
    requires NoneEmpty(out) && AllOrdered(out)
    requires |out| > 0 ==> End(LastSpan(out)) == prev + 1 && (out[|out| - 1].slug == row.slug ==> prev < row.night)
    ensures AllOrdered(Stitch(out, prev, row))
  {
    var n := |out| - 1;
    if n < 0 || out[n].slug != row.slug {
      AddNightStaysOrdered([], false, row);
    } else {
      AddNightStaysOrdered(out[n].spans, row.night == prev + 1, row);
    }
    hide Ordered, AddNight;
  }

  lemma {:induction false} RunsAreOrdered(rows: seq<Row>)
    requires forall k :: 0 <= k < |rows| - 1 ==> Climbs(rows, k)
    ensures AllOrdered(Grouped(rows))
  {
    if |rows| > 0 {
      hide AllOrdered, Stitch, NoneEmpty;
      var init, row := rows[..|rows| - 1], rows[|rows| - 1];
      forall k | 0 <= k < |init| - 1 ensures Climbs(init, k) {
        assert Climbs(rows, k);
      }
      RunsAreOrdered(init);
      if |init| > 0 {
        LastRunEndsAtLastRow(init);
        assert Climbs(rows, |rows| - 2);
      }
      StitchStaysOrdered(Grouped(init), Prev(rows), row);
    } else {
      assert AllOrdered([]);
    }
  }

  /** The calendar drawn from a listing: its runs are in order and none could be longer. */
  lemma {:induction false} CalendarIsOrderedAndMaximal(t: Tables, rows: seq<Row>, from: int, to: int, guests: int)
    requires TablesOk(t) && IsListing(t, rows, from, to, guests)
    ensures AllOrdered(Grouped(rows)) && Maximal(Grouped(rows))
  {
    ListingClimbs(t, rows, from, to, guests);
    RunsAreOrdered(rows);
    RunsAreMaximal(rows);
  }

  // ---------------------------------------------------------------- the picker

  function AllSpans(out: seq<RoomSpans>): seq<Span> {
    if |out| == 0 then [] else AllSpans(out[..|out| - 1]) + out[|out| - 1].spans
  }

  /** The run holds this arrival, and leaving then is neither too soon nor too late. */
  predicate LetsLeave(s: Span, checkin: int, checkout: int, maxStay: int) {
    && s.start <= checkin < End(s)
    && var left := End(s) - checkin;
       s.minStays[checkin - s.start] <= checkout - checkin <= (if maxStay > 0 then Min(left, maxStay) else left)
  }

  /** departures: every checkout some run allows from this arrival. */
  method Departures(spans: seq<Span>, checkin: int, maxStay: int) returns (out: set<int>)
    ensures forall c :: c in out <==> exists i :: 0 <= i < |spans| && LetsLeave(spans[i], checkin, c, maxStay)
  {
    out := {};
    for i := 0 to |spans|
      invariant forall c :: c in out <==> exists k :: 0 <= k < i && LetsLeave(spans[k], checkin, c, maxStay)
    {
      var span := spans[i];
      if span.start <= checkin < End(span) {
        var remaining := End(span) - checkin;
        if maxStay > 0 {
          remaining := Min(remaining, maxStay);
        }
        ghost var before := out;
        var first := span.minStays[checkin - span.start];
        var stay := first;
        while stay <= remaining
          invariant first <= stay
          invariant forall c :: c in out <==> c in before || (first <= c - checkin < stay && c - checkin <= remaining)
          decreases remaining - stay
        {
          out := out + {checkin + stay};
          stay := stay + 1;
        }
        assert forall c :: c in out <==> c in before || LetsLeave(span, checkin, c, maxStay);
      }
    }
  }

  /** covers: some run of some room lets a guest arriving then leave then. */
  predicate PickerCovers(out: seq<RoomSpans>, checkin: int, checkout: int, maxStay: int) {
    exists s :: s in AllSpans(out) && LetsLeave(s, checkin, checkout, maxStay)
  }

  /** availability.Search: the longest stay is checked before the query is made. */
  ghost predicate SearchFindsARoom(t: Tables, checkin: int, checkout: int, guests: int, maxStay: int) {
    && (maxStay > 0 ==> checkout - checkin <= maxStay)
    && exists room :: Offered(t, room, checkin, checkout, guests)
  }

  lemma {:induction false} SpanOfSomeRoom(out: seq<RoomSpans>, s: Span)
    ensures s in AllSpans(out) <==> exists r :: 0 <= r < |out| && s in out[r].spans
  {
    if |out| > 0 {
      var init := out[..|out| - 1];
      SpanOfSomeRoom(init, s);
      if s in AllSpans(init) {
        var r :| 0 <= r < |init| && s in init[r].spans;
        assert s in out[r].spans;
      }
      if r :| 0 <= r < |out| && s in out[r].spans {
        assert r < |init| ==> s in init[r].spans;
      }
    }
  }

  lemma {:induction false} SlugIsARooms(t: Tables, rows: seq<Row>, from: int, to: int, guests: int, r: nat,
        s: nat) returns (room: int)
    requires TablesOk(t) && IsListing(t, rows, from, to, guests)
    requires r < |Grouped(rows)| && s < |Grouped(rows)[r].spans| && |Grouped(rows)[r].spans[s].minStays| > 0
    ensures room in t.rooms && t.rooms[room].slug == Grouped(rows)[r].slug
    ensures forall o :: 0 <= o < |Grouped(rows)[r].spans[s].minStays| ==> Grouped(rows)[r].spans[s].minStays[o] >= 1
  {
    var i := NightIsARow(rows, r, s, 0);
    assert IsRowOf(t, rows[i], guests);
    room := rows[i].room;
    forall o | 0 <= o < |Grouped(rows)[r].spans[s].minStays| ensures Grouped(rows)[r].spans[s].minStays[o] >= 1 {
      var k := NightIsARow(rows, r, s, o);
      assert IsRowOf(t, rows[k], guests);
    }
  }

  lemma {:induction false} SearchImpliesPicker(t: Tables, rows: seq<Row>, from: int, to: int, guests: int,
        checkin: int, checkout: int, maxStay: int)
    requires TablesOk(t) && IsListing(t, rows, from, to, guests)
    requires from <= checkin < checkout <= to && SearchFindsARoom(t, checkin, checkout, guests, maxStay)
    ensures PickerCovers(Grouped(rows), checkin, checkout, maxStay)
  {
    hide TablesOk, IsListing, Grouped;
    var out := Grouped(rows);
    var room :| Offered(t, room, checkin, checkout, guests);
    SearchImpliesCalendar(t, rows, from, to, guests, room, checkin, checkout);
    hide Offered;
    var r, s :| 0 <= r < |out| && 0 <= s < |out[r].spans| && out[r].slug == t.rooms[room].slug
      && SpanOffers(out[r].spans[s], checkin, checkout);
    SpanOfSomeRoom(out, out[r].spans[s]);
    assert LetsLeave(out[r].spans[s], checkin, checkout, maxStay);
  }

  lemma {:induction false} PickerImpliesSearch(t: Tables, rows: seq<Row>, from: int, to: int, guests: int,
        checkin: int, checkout: int, maxStay: int)
    requires TablesOk(t) && IsListing(t, rows, from, to, guests)
    requires from <= checkin < checkout <= to && PickerCovers(Grouped(rows), checkin, checkout, maxStay)
    ensures SearchFindsARoom(t, checkin, checkout, guests, maxStay)
  {
    hide TablesOk, IsListing, Grouped, Offered;
    var out := Grouped(rows);
    var span :| span in AllSpans(out) && LetsLeave(span, checkin, checkout, maxStay);
    SpanOfSomeRoom(out, span);
    var r :| 0 <= r < |out| && span in out[r].spans;
    var s :| 0 <= s < |out[r].spans| && out[r].spans[s] == span;
    var room := SlugIsARooms(t, rows, from, to, guests, r, s);
    assert SpanOffers(out[r].spans[s], checkin, checkout);
    CalendarImpliesSearch(t, rows, from, to, guests, room, checkin, checkout);
  }

  /** What the guest is let pick and what they are then offered are the same stays:
      inside the window, the picker covers a stay exactly when the search, with the
      same longest stay, finds a room for it. */
  lemma {:induction false} PickerAgreesWithSearch(t: Tables, rows: seq<Row>, from: int, to: int, guests: int,
        checkin: int, checkout: int, maxStay: int)
    requires TablesOk(t) && IsListing(t, rows, from, to, guests)
    requires from <= checkin < checkout <= to
    ensures PickerCovers(Grouped(rows), checkin, checkout, maxStay)
        <==> SearchFindsARoom(t, checkin, checkout, guests, maxStay)
  {
    hide TablesOk, IsListing, Grouped, PickerCovers, SearchFindsARoom;
    if SearchFindsARoom(t, checkin, checkout, guests, maxStay) {
      SearchImpliesPicker(t, rows, from, to, guests, checkin, checkout, maxStay);
    }
    if PickerCovers(Grouped(rows), checkin, checkout, maxStay) {
      PickerImpliesSearch(t, rows, from, to, guests, checkin, checkout, maxStay);
    }
  }

  /** The nights the minimum demands fit inside what is left of the run. */
  predicate Arrives(s: Span, checkin: int) {
    s.start <= checkin < End(s) && checkin - s.start + s.minStays[checkin - s.start] <= |s.minStays|
  }

  /** arrivals: every date some run can house the whole minimum stay from, whatever the
      longest stay on sale. */
  method Arrivals(spans: seq<Span>) returns (out: set<int>)
    ensures forall d :: d in out <==> exists i :: 0 <= i < |spans| && Arrives(spans[i], d)
  {
    out := {};
    for i := 0 to |spans|
      invariant forall d :: d in out <==> exists k :: 0 <= k < i && Arrives(spans[k], d)
    {
      var span := spans[i];
      ghost var before := out;
      for offset := 0 to |span.minStays|
        invariant forall d :: d in out <==> d in before || (Arrives(span, d) && d < span.start + offset)
      {
        if offset + span.minStays[offset] <= |span.minStays| {
          out := out + {span.start + offset};
        }
      }
      assert forall d :: d in out <==> d in before || Arrives(span, d);
    }
  }

  predicate IsArrival(out: seq<RoomSpans>, checkin: int) {
    exists s :: s in AllSpans(out) && Arrives(s, checkin)
  }

  /** The guest can arrive in the run and leave again within the longest stay. */
  predicate MinimumFits(s: Span, checkin: int, maxStay: int) {
    Arrives(s, checkin) && (maxStay > 0 ==> s.minStays[checkin - s.start] <= maxStay)
  }

  ghost predicate HasDeparture(out: seq<RoomSpans>, checkin: int, maxStay: int) {
    exists checkout :: PickerCovers(out, checkin, checkout, maxStay)
  }

  /** A date can be left again exactly when some run that makes it an arrival has a
      minimum within the longest stay. An arrival offers no departure at all exactly
      when the minimum of every such run is over it, which needs a longest stay. */
  lemma {:induction false} ArrivalHasNoDepartureExactlyWhenEveryMinimumIsOverTheLongestStay(out: seq<RoomSpans>,
        checkin: int, maxStay: int)
    ensures HasDeparture(out, checkin, maxStay) <==> exists s :: s in AllSpans(out) && MinimumFits(s, checkin, maxStay)
    ensures IsArrival(out, checkin) ==>
              (!HasDeparture(out, checkin, maxStay)
               <==> forall s :: s in AllSpans(out) && Arrives(s, checkin) ==>
                 0 < maxStay < s.minStays[checkin - s.start])
  {
    hide AllSpans;
    if HasDeparture(out, checkin, maxStay) {
      var checkout :| PickerCovers(out, checkin, checkout, maxStay);
      var s :| s in AllSpans(out) && LetsLeave(s, checkin, checkout, maxStay);
      assert MinimumFits(s, checkin, maxStay);
    }
    if s :| s in AllSpans(out) && MinimumFits(s, checkin, maxStay) {
      assert LetsLeave(s, checkin, checkin + s.minStays[checkin - s.start], maxStay);
      assert PickerCovers(out, checkin, checkin + s.minStays[checkin - s.start], maxStay);
    }
  }

  lemma {:induction false} SpanInWindow(t: Tables, rows: seq<Row>, from: int, to: int, guests: int, span: Span)
    requires TablesOk(t) && IsListing(t, rows, from, to, guests)
    requires span in AllSpans(Grouped(rows)) && |span.minStays| > 0
    ensures End(span) <= to && forall o :: 0 <= o < |span.minStays| ==> span.minStays[o] >= 1
  {
    var out := Grouped(rows);
    SpanOfSomeRoom(out, span);
    var r :| 0 <= r < |out| && span in out[r].spans;
    var s :| 0 <= s < |out[r].spans| && out[r].spans[s] == span;
    var _ := SlugIsARooms(t, rows, from, to, guests, r, s);
    var last := NightIsARow(rows, r, s, |span.minStays| - 1);
    assert IsRowOf(t, rows[last], guests);
  }

  /** The arrivals are the dates the search would find some stay from if there were no
      longest stay. */
  lemma {:induction false} ArrivalsAgreeWithUncappedSearch(t: Tables, rows: seq<Row>, from: int, to: int, guests: int,
        checkin: int)
    requires TablesOk(t) && IsListing(t, rows, from, to, guests) && from <= checkin < to
    ensures IsArrival(Grouped(rows), checkin)
       <==> exists checkout :: checkin < checkout <= to && SearchFindsARoom(t, checkin, checkout, guests, 0)
  {
    hide TablesOk, IsListing, Grouped, SearchFindsARoom, AllSpans;
    var out := Grouped(rows);
    if s :| s in AllSpans(out) && Arrives(s, checkin) {
      SpanInWindow(t, rows, from, to, guests, s);
      var checkout := checkin + s.minStays[checkin - s.start];
      assert LetsLeave(s, checkin, checkout, 0);
      PickerAgreesWithSearch(t, rows, from, to, guests, checkin, checkout, 0);
    }
    if checkout :| checkin < checkout <= to && SearchFindsARoom(t, checkin, checkout, guests, 0) {
      PickerAgreesWithSearch(t, rows, from, to, guests, checkin, checkout, 0);
      var s :| s in AllSpans(out) && LetsLeave(s, checkin, checkout, 0);
      assert Arrives(s, checkin);
    }
  }

  // ---------------------------------------------------------------- the window

  /** clamp: never before today, never inverted, and past the horizon only when the
      window starts at it. `months` is the civil calendar's month arithmetic, and
      None is a date the request left out. */
  function Clamp(from: Option<int>, to: Option<int>, today: int, horizon: int, months: (int, nat) -> int): (w: (int,
        int))
    ensures today <= w.0 < w.1
    ensures w.1 <= horizon <==> w.0 < horizon
    ensures from.Some? && to.Some? && today <= from.value < to.value <= horizon ==> w == (from.value, to.value)
    // asked for nothing, it is a year from today; and it is never moved further than it must be
    ensures w.0 == today || (from.Some? && w.0 == from.value)
    ensures from.None? && to.None? && today < months(today, 12) <= horizon ==> w == (today, months(today, 12))
    ensures w.1 == horizon || w.1 == w.0 + 1 || w.1 == (if to.Some? then to.value else months(w.0, 12))
    ensures w.1 != horizon && w.1 > w.0 + 1 ==> w.1 < horizon
  {
    var start := if from.None? || from.value < today then today else from.value;
    var wanted := if to.None? then months(start, DEFAULT_CALENDAR_MONTHS) else to.value;
    var capped := if wanted > horizon then horizon else wanted;
    (start, if capped <= start then start + 1 else capped)
  }

  const DEFAULT_CALENDAR_MONTHS := 12
}
