/** The case lottery: the ticket ranges shown to players and the ticket ranges the roll
    uses are laid out by two separate pieces of code; here they are proved to agree, to
    partition the pool and to give each skin its share of the random words
    (src/modules/cases/case.service.ts, src/modules/clickerCase/clicker-cases.service.ts). */
module CaseLottery {
  import opened Money
  import opened Sequences

  datatype TicketRange = TicketRange(start: int, end: int)

  /** A skin_case row. `price` is None when the skin could not be resolved (an orphan);
      `chance` counts hundredths of a percent, the column being numeric(5, 2). */
  datatype Row = Row(id: int, price: Option<int>, chance: int, isDropOut: bool, ticketRange: Option<TicketRange>)

  datatype Result<T> = Ok(value: T) | InvalidSkinChance | NoValidSkins | NoWinnerFound

  /** `Math.floor(chance * 1000)` with chance = hundredths / 100: nothing is lost. */
  function TicketsFor(chance: int): (tickets: int)
    ensures tickets == 10 * chance
  {
    chance * 1000 / 100
  }

  // ----- The order of the lottery -----

  /** The comparator's `<= 0`: price descending (an orphan counts as price 0), then id. */
  predicate NotAfter(a: Row, b: Row)
  {
    var (p, q) := (a.price.GetOr(0), b.price.GetOr(0));
    p > q || (p == q && a.id <= b.id)
  }

  predicate Ordered(rows: seq<Row>)
  {
    forall i, j :: 0 <= i < j < |rows| ==> NotAfter(rows[i], rows[j])
  }

  function InsertRow(row: Row, rows: seq<Row>): (r: seq<Row>)
    requires Ordered(rows)
    ensures Ordered(r) && |r| == |rows| + 1
    ensures forall x :: x in r <==> x == row || x in rows
  {
    if rows == [] then [row]
    else
      assert rows == [rows[0]] + rows[1..];
      if NotAfter(row, rows[0]) then
        assert forall x :: x in rows ==> NotAfter(row, x);
        [row] + rows
      else
        var rest := InsertRow(row, rows[1..]);
        assert forall x :: x in rest ==> NotAfter(rows[0], x);
        [rows[0]] + rest
  }

  /** `sortSkinCasesForLottery`: a stable sort. */
  function SortForLottery(rows: seq<Row>): (r: seq<Row>)
    ensures Ordered(r) && |r| == |rows|
    ensures forall x :: x in r <==> x in rows
  {
    if rows == [] then []
    else
      assert rows == [rows[0]] + rows[1..];
      InsertRow(rows[0], SortForLottery(rows[1..]))
  }

  lemma {:induction false} InsertPermutes(row: Row, rows: seq<Row>)
    requires Ordered(rows)
    ensures multiset(InsertRow(row, rows)) == multiset([row]) + multiset(rows)
  {
    if rows != [] {
      assert rows == [rows[0]] + rows[1..];
      InsertPermutes(row, rows[1..]);
    }
  }

  lemma {:induction false} SortPermutes(rows: seq<Row>)
    ensures multiset(SortForLottery(rows)) == multiset(rows)
  {
    if rows != [] {
      assert rows == [rows[0]] + rows[1..];
      SortPermutes(rows[1..]);
      InsertPermutes(rows[0], SortForLottery(rows[1..]));
    }
  }

  lemma {:induction false} FilterOrdered(rows: seq<Row>, p: Row -> bool)
    requires Ordered(rows)
    ensures Ordered(Filter(rows, p))
  {
    if rows != [] {
      FilterOrdered(rows[1..], p);
      assert forall x :: x in rows[1..] ==> NotAfter(rows[0], x);
    }
  }

  lemma InsertFirst(row: Row, rows: seq<Row>)
    requires Ordered(rows) && forall x :: x in rows ==> NotAfter(row, x)
    ensures InsertRow(row, rows) == [row] + rows
  {
  }

  lemma {:induction false} FilterInsert(row: Row, rows: seq<Row>, p: Row -> bool)
    requires Ordered(rows) && Ordered(Filter(rows, p))
    ensures Filter(InsertRow(row, rows), p)
         == if p(row) then InsertRow(row, Filter(rows, p)) else Filter(rows, p)
  {
    if rows != [] {
      var rest := rows[1..];
      if NotAfter(row, rows[0]) {
        assert forall x :: x in rows ==> NotAfter(row, x);
        InsertFirst(row, Filter(rows, p));
        assert ([row] + rows)[1..] == rows;
      } else {
        var inserted := InsertRow(row, rest);
        FilterOrdered(rest, p);
        FilterInsert(row, rest, p);
        assert ([rows[0]] + inserted)[1..] == inserted;
        if p(rows[0]) {
          assert ([rows[0]] + Filter(rest, p))[1..] == Filter(rest, p);
        }
      }
    }
  }

  /** Filtering first and sorting after gives the same list as sorting first. */
  lemma {:induction false} FilterCommutesWithSort(rows: seq<Row>, p: Row -> bool)
    ensures Filter(SortForLottery(rows), p) == SortForLottery(Filter(rows, p))
  {
    if rows != [] {
      FilterCommutesWithSort(rows[1..], p);
      FilterOrdered(SortForLottery(rows[1..]), p);
      FilterInsert(rows[0], SortForLottery(rows[1..]), p);
      if p(rows[0]) {
        assert ([rows[0]] + Filter(rows[1..], p))[1..] == Filter(rows[1..], p);
      }
    }
  }

  // ----- The order does not depend on the query -----

  /** Ids are primary keys. */
  ghost predicate DistinctIds(rows: seq<Row>)
  {
    forall x, y :: x in rows && y in rows && x.id == y.id ==> x == y
  }

  lemma {:induction false} FilterCount(rows: seq<Row>, p: Row -> bool, x: Row)
    ensures multiset(Filter(rows, p))[x] == if p(x) then multiset(rows)[x] else 0
  {
    if rows != [] {
      assert rows == [rows[0]] + rows[1..];
      FilterCount(rows[1..], p, x);
    }
  }

  lemma FilterPermutes(a: seq<Row>, b: seq<Row>, p: Row -> bool)
    requires multiset(a) == multiset(b)
    ensures multiset(Filter(a, p)) == multiset(Filter(b, p))
  {
    forall x ensures multiset(Filter(a, p))[x] == multiset(Filter(b, p))[x] {
      FilterCount(a, p, x);
      FilterCount(b, p, x);
    }
  }

  lemma SameMembers(a: seq<Row>, b: seq<Row>)
    requires multiset(a) == multiset(b)
    ensures |a| == |b| && forall x :: x in a <==> x in b
  {
    assert |multiset(a)| == |a| && |multiset(b)| == |b|;
    assert forall x :: x in a <==> x in multiset(a);
    assert forall x :: x in b <==> x in multiset(b);
  }

  /** Two ordered lists of the same rows start with the same row: here the id breaks ties. */
  lemma SameFirst(a: seq<Row>, b: seq<Row>)
    requires Ordered(a) && Ordered(b) && DistinctIds(a) && multiset(a) == multiset(b) && a != [] && b != []
    ensures a[0] == b[0]
  {
    SameMembers(a, b);
    assert a[0] in b && b[0] in a;
    var i :| 0 <= i < |a| && a[i] == b[0];
    var j :| 0 <= j < |b| && b[j] == a[0];
    assert i > 0 ==> NotAfter(a[0], b[0]);
    assert j > 0 ==> NotAfter(b[0], a[0]);
    assert a[0].id == b[0].id;
  }

  lemma SameRest(a: seq<Row>, b: seq<Row>)
    requires multiset(a) == multiset(b) && a != [] && b != [] && a[0] == b[0]
    ensures multiset(a[1..]) == multiset(b[1..])
  {
    assert a == [a[0]] + a[1..] && b == [b[0]] + b[1..];
    assert multiset(a[1..]) == multiset(a) - multiset{a[0]};
    assert multiset(b[1..]) == multiset(b) - multiset{b[0]};
  }

  lemma {:induction false} OrderedUnique(a: seq<Row>, b: seq<Row>)
    requires Ordered(a) && Ordered(b) && DistinctIds(a) && multiset(a) == multiset(b)
    ensures a == b
  {
    SameMembers(a, b);
    if a != [] {
      SameFirst(a, b);
      SameRest(a, b);
      OrderedUnique(a[1..], b[1..]);
      assert a == [a[0]] + a[1..] && b == [b[0]] + b[1..];
    }
  }

  /** However two queries order the rows of a case, sorting them gives one list. */
  lemma SortForgetsOrder(a: seq<Row>, b: seq<Row>)
    requires DistinctIds(a) && multiset(a) == multiset(b)
    ensures SortForLottery(a) == SortForLottery(b)
  {
    SortPermutes(a);
    SortPermutes(b);
    OrderedUnique(SortForLottery(a), SortForLottery(b));
  }

  // ----- Ticket ranges -----

  predicate HasSkin(row: Row) { row.price.Some? }

  /** The rows `getAvailableSkins` lets into the roll. */
  predicate Rollable(row: Row) { row.isDropOut && HasSkin(row) }

  /** The rows `assignTicketRanges` gives a range. */
  predicate HoldsTickets(row: Row) { row.isDropOut && row.chance > 0 }

  function RowTickets(row: Row): int { TicketsFor(row.chance) }

  function ShownTickets(row: Row): int { if HoldsTickets(row) then RowTickets(row) else 0 }

  function RolledTickets(row: Row): int { if Rollable(row) then RowTickets(row) else 0 }

  /** Tickets shown for a row that can never be rolled. */
  function OrphanTickets(row: Row): int { if HoldsTickets(row) && !HasSkin(row) then RowTickets(row) else 0 }

  /** The range shown for row i: it starts after the tickets of the rows before it. */
  function ShownRange(rows: seq<Row>, i: nat): (range: Option<TicketRange>)
    requires i < |rows|
  {
    if HoldsTickets(rows[i])
    then Some(TicketRange(Sum(rows[..i], ShownTickets) + 1, Sum(rows[..i + 1], ShownTickets)))
    else None
  }

  /** The range row j of the pool has in the roll. */
  function RollRange(pool: seq<Row>, j: nat): (range: TicketRange)
    requires j < |pool|
  {
    TicketRange(Sum(pool[..j], RowTickets) + 1, Sum(pool[..j + 1], RowTickets))
  }

  /** The rows of the chances modal, in order. `CaseService` drops orphans before it
      annotates; `ClickerCasesService` does not. */
  function ReadList(rows: seq<Row>, keepOrphans: bool): (r: seq<Row>)
  {
    SortForLottery(if keepOrphans then rows else Filter(rows, HasSkin))
  }

  /** `getAvailableSkins`, given the rows its query returned. */
  function AvailableSkins(roll: seq<Row>): (r: Result<seq<Row>>)
  {
    var valid := Filter(roll, HasSkin);
    if valid == [] then NoValidSkins else Ok(SortForLottery(valid))
  }

  /** The pool holds exactly the rows whose skin was found; without any there is no roll. */
  lemma PoolHoldsSkins(roll: seq<Row>)
    ensures AvailableSkins(roll) == NoValidSkins <==> forall row :: row in roll ==> row.price == None
    ensures AvailableSkins(roll).Ok? ==>
              forall row :: row in AvailableSkins(roll).value <==> row in roll && row.price.Some?
  {
    assert forall row :: row in Filter(roll, HasSkin) <==> row in roll && HasSkin(row);
  }

  predicate DropsOut(row: Row) { row.isDropOut }

  /** The read query returns every row of a case, the roll's query the droppable ones, each
      in an order of its own. */
  ghost predicate SameCase(read: seq<Row>, roll: seq<Row>)
  {
    DistinctIds(read) && multiset(roll) == multiset(Filter(read, DropsOut))
  }

  function WithRange(rows: seq<Row>, i: nat): (row: Row)
    requires i < |rows|
  {
    rows[i].(ticketRange := ShownRange(rows, i))
  }

  lemma ShownSumNext(rows: seq<Row>, i: nat)
    requires i < |rows|
    ensures Sum(rows[..i + 1], ShownTickets) == Sum(rows[..i], ShownTickets) + ShownTickets(rows[i])
  {
    assert rows[..i + 1][..i] == rows[..i];
  }

  /** `assignTicketRanges`: sorts the rows in place, then writes every `ticket_range`. */
  method AssignTicketRanges(skinCases: array<Row>)
    modifies skinCases
    ensures var sorted := SortForLottery(old(skinCases[..]));
            && skinCases.Length == |sorted|
            && forall i :: 0 <= i < |sorted| ==> skinCases[i] == WithRange(sorted, i)
    ensures forall i :: 0 <= i < skinCases.Length ==>
              var row := skinCases[i];
              && (row.ticketRange.Some? <==> row.isDropOut && row.chance > 0)
              && (row.ticketRange.Some? ==>
                    row.ticketRange.value.end - row.ticketRange.value.start + 1 == 10 * row.chance)
  {
    var sorted := SortForLottery(skinCases[..]);
    forall i | 0 <= i < skinCases.Length {
      skinCases[i] := sorted[i];
    }
    var ticketStart := 1;
    for i := 0 to skinCases.Length
      invariant ticketStart == Sum(sorted[..i], ShownTickets) + 1
      invariant forall k :: 0 <= k < i ==> skinCases[k] == WithRange(sorted, k)
      invariant forall k :: i <= k < skinCases.Length ==> skinCases[k] == sorted[k]
    {
      var sc := skinCases[i];
      ShownSumNext(sorted, i);
      if !sc.isDropOut || sc.chance <= 0 {
        skinCases[i] := sc.(ticketRange := None);
      } else {
        var tickets := TicketsFor(sc.chance);
        skinCases[i] := sc.(ticketRange := Some(TicketRange(ticketStart, ticketStart + tickets - 1)));
        ticketStart := ticketStart + tickets;
      }
    }
    forall i | 0 <= i < |sorted| ensures Measured(sorted[i], ShownRange(sorted, i)) {
      ShownSumNext(sorted, i);
    }
  }

  /** A row is shown a range exactly when it can drop, of ten tickets for each hundredth of a
      percent. */
  ghost predicate Measured(row: Row, range: Option<TicketRange>)
  {
    && (range.Some? <==> row.isDropOut && row.chance > 0)
    && (range.Some? ==> range.value.end - range.value.start + 1 == 10 * row.chance)
  }

  ghost predicate AllPositive(rows: seq<Row>)
  {
    forall row :: row in rows ==> row.chance > 0
  }

  /** The range starts right after the one before, the first at ticket 1, and holds ten tickets
      for every hundredth of a percent of its row's chance. */
  ghost predicate InPlace(ranges: seq<TicketRange>, pool: seq<Row>, j: nat)
    requires j < |ranges| == |pool|
  {
    && ranges[j].start == (if j == 0 then 1 else ranges[j - 1].end + 1)
    && ranges[j].end - ranges[j].start + 1 == 10 * pool[j].chance
  }

  ghost predicate EndToEnd(ranges: seq<TicketRange>, pool: seq<Row>)
  {
    |ranges| == |pool| && forall j :: 0 <= j < |pool| ==> InPlace(ranges, pool, j)
  }

  /** `prepareTicketRanges` */
  method PrepareTicketRanges(pool: seq<Row>) returns (r: Result<seq<TicketRange>>)
    ensures r == InvalidSkinChance || r.Ok?
    ensures r.Ok? <==> AllPositive(pool)
    ensures r.Ok? ==> |r.value| == |pool| && forall j :: 0 <= j < |pool| ==> r.value[j] == RollRange(pool, j)
    ensures r.Ok? ==> EndToEnd(r.value, pool)
  {
    var ticketStart := 1;
    var ranges: seq<TicketRange> := [];
    for j := 0 to |pool|
      invariant ticketStart == Sum(pool[..j], RowTickets) + 1
      invariant AllPositive(pool[..j])
      invariant |ranges| == j && forall k :: 0 <= k < j ==> ranges[k] == RollRange(pool, k)
    {
      var skinCase := pool[j];
      if skinCase.chance <= 0 {
        return InvalidSkinChance;
      }
      assert pool[..j + 1][..j] == pool[..j];
      var tickets := TicketsFor(skinCase.chance);
      ranges := ranges + [TicketRange(ticketStart, ticketStart + tickets - 1)];
      ticketStart := ticketStart + tickets;
    }
    assert pool[..|pool|] == pool;
    if pool != [] {
      RangesMeasureChances(ranges, pool);
    }
    r := Ok(ranges);
  }

  // ----- Shown and rolled ranges agree -----

  lemma {:induction false} SumFiltered(rows: seq<Row>)
    ensures Sum(Filter(rows, Rollable), RowTickets) == Sum(rows, RolledTickets)
  {
    if rows != [] {
      var n := |rows| - 1;
      assert rows == rows[..n] + [rows[n]];
      SumFiltered(rows[..n]);
      FilterConcat(rows[..n], [rows[n]], Rollable);
      if Rollable(rows[n]) {
        assert Filter([rows[n]], Rollable) == [rows[n]];
        SumAppend(Filter(rows[..n], Rollable), rows[n], RowTickets);
      } else {
        assert Filter([rows[n]], Rollable) == [];
        assert Filter(rows, Rollable) == Filter(rows[..n], Rollable);
      }
    }
  }

  ghost predicate RollableHaveTickets(rows: seq<Row>)
  {
    forall i :: 0 <= i < |rows| && Rollable(rows[i]) ==> HoldsTickets(rows[i])
  }

  lemma {:induction false} ShownIsRolledPlusOrphans(rows: seq<Row>)
    requires RollableHaveTickets(rows)
    ensures Sum(rows, ShownTickets) == Sum(rows, RolledTickets) + Sum(rows, OrphanTickets)
  {
    if rows != [] {
      var n := |rows| - 1;
      ShownIsRolledPlusOrphans(rows[..n]);
    }
  }

  /** The pool is the rollable part of the modal's list, in the same order, in both services. */
  lemma PoolIsRollablePart(rows: seq<Row>, keepOrphans: bool)
    ensures Filter(ReadList(rows, keepOrphans), Rollable) == SortForLottery(Filter(rows, Rollable))
  {
    if keepOrphans {
      FilterCommutesWithSort(rows, Rollable);
    } else {
      FilterCommutesWithSort(Filter(rows, HasSkin), Rollable);
      FilterTwice(rows);
    }
  }

  lemma {:induction false} FilterTwice(rows: seq<Row>)
    ensures Filter(Filter(rows, HasSkin), Rollable) == Filter(rows, Rollable)
  {
    if rows != [] {
      FilterTwice(rows[1..]);
      if HasSkin(rows[0]) {
        assert ([rows[0]] + Filter(rows[1..], HasSkin))[1..] == Filter(rows[1..], HasSkin);
      }
    }
  }

  lemma {:induction false} FilterDropsOut(rows: seq<Row>)
    ensures Filter(Filter(rows, DropsOut), HasSkin) == Filter(rows, Rollable)
  {
    if rows != [] {
      FilterDropsOut(rows[1..]);
      if DropsOut(rows[0]) {
        assert ([rows[0]] + Filter(rows[1..], DropsOut))[1..] == Filter(rows[1..], DropsOut);
      }
    }
  }

  /** The roll sorts the rollable rows of the read list, whatever order its query chose. */
  lemma PoolIsSortedPart(read: seq<Row>, roll: seq<Row>)
    requires SameCase(read, roll)
    ensures SortForLottery(Filter(roll, HasSkin)) == SortForLottery(Filter(read, Rollable))
  {
    FilterPermutes(roll, Filter(read, DropsOut), HasSkin);
    FilterDropsOut(read);
    SortForgetsOrder(Filter(read, Rollable), Filter(roll, HasSkin));
  }

  /** Where row i of the modal's list sits in the pool. */
  function PoolIndex(shown: seq<Row>, i: nat): (j: nat)
    requires i < |shown|
  {
    |Filter(shown[..i], Rollable)|
  }

  /** Splitting a list at row i splits its rollable part at PoolIndex. */
  lemma PoolPrefix(shown: seq<Row>, i: nat)
    requires i < |shown| && Rollable(shown[i])
    ensures var pool, j := Filter(shown, Rollable), PoolIndex(shown, i);
            && j < |pool| && pool[j] == shown[i]
            && pool[..j] == Filter(shown[..i], Rollable)
            && pool[..j + 1] == Filter(shown[..i + 1], Rollable)
  {
    var before, row := shown[..i], shown[i];
    assert shown == before + [row] + shown[i + 1..];
    assert shown[..i + 1] == before + [row];
    FilterConcat(before + [row], shown[i + 1..], Rollable);
    FilterConcat(before, [row], Rollable);
    assert Filter([row], Rollable) == [row];
  }

  lemma ShownSum(shown: seq<Row>, i: nat)
    requires i <= |shown| && RollableHaveTickets(shown)
    ensures Sum(shown[..i], ShownTickets)
         == Sum(Filter(shown[..i], Rollable), RowTickets) + Sum(shown[..i], OrphanTickets)
  {
    ShownIsRolledPlusOrphans(shown[..i]);
    SumFiltered(shown[..i]);
  }

  /** Row i of the list is row j of the pool, and the tickets shown before it and up to it are
      those of the pool, shifted. */
  ghost predicate Shifted(shown: seq<Row>, i: nat, pool: seq<Row>, j: nat, shift: int)
  {
    && i < |shown| && j < |pool| && pool[j] == shown[i]
    && Sum(shown[..i], ShownTickets) == Sum(pool[..j], RowTickets) + shift
    && Sum(shown[..i + 1], ShownTickets) == Sum(pool[..j + 1], RowTickets) + shift
  }

  lemma ShownBounds(shown: seq<Row>, i: nat)
    requires i < |shown| && Rollable(shown[i]) && RollableHaveTickets(shown)
    ensures Shifted(shown, i, Filter(shown, Rollable), PoolIndex(shown, i), Sum(shown[..i], OrphanTickets))
  {
    PoolPrefix(shown, i);
    ShownSum(shown, i);
    ShownSum(shown, i + 1);
    OrphanSumNext(shown, i);
  }

  lemma ShiftedRange(shown: seq<Row>, i: nat, pool: seq<Row>, j: nat, shift: int)
    requires Shifted(shown, i, pool, j, shift) && HoldsTickets(shown[i])
    ensures ShownRange(shown, i)
         == Some(TicketRange(RollRange(pool, j).start + shift, RollRange(pool, j).end + shift))
    ensures ShownRange(shown, i) == Some(RollRange(pool, j)) <==> shift == 0
  {
  }

  lemma OrphanSumNext(shown: seq<Row>, i: nat)
    requires i < |shown| && Rollable(shown[i])
    ensures Sum(shown[..i + 1], OrphanTickets) == Sum(shown[..i], OrphanTickets)
  {
    assert shown[..i + 1] == shown[..i] + [shown[i]];
    SumAppend(shown[..i], shown[i], OrphanTickets);
  }

  /** The modal's list of a case that can be rolled. */
  lemma ShownList(read: seq<Row>, roll: seq<Row>, keepOrphans: bool)
    requires SameCase(read, roll) && AvailableSkins(roll).Ok? && AllPositive(AvailableSkins(roll).value)
    ensures var shown := ReadList(read, keepOrphans);
            && Filter(shown, Rollable) == AvailableSkins(roll).value
            && RollableHaveTickets(shown)
  {
    var shown := ReadList(read, keepOrphans);
    PoolIsRollablePart(read, keepOrphans);
    PoolIsSortedPart(read, roll);
    forall i | 0 <= i < |shown| && Rollable(shown[i]) ensures HoldsTickets(shown[i]) {
      assert shown[i] in Filter(shown, Rollable);
    }
  }

  lemma {:induction false} NoOrphanTickets(rows: seq<Row>)
    ensures Sum(rows, OrphanTickets) >= 0
    ensures Sum(rows, OrphanTickets) == 0 <==> forall row :: row in rows ==> OrphanTickets(row) == 0
  {
    if rows != [] {
      var n := |rows| - 1;
      NoOrphanTickets(rows[..n]);
      assert rows[n] in rows;
      assert forall row :: row in rows <==> row in rows[..n] || row == rows[n];
    }
  }

  /** A row is listed after no orphan that is shown tickets. */
  ghost predicate NoOrphanBefore(shown: seq<Row>, i: nat)
    requires i < |shown|
  {
    forall k :: 0 <= k < i ==> !HoldsTickets(shown[k]) || HasSkin(shown[k])
  }

  lemma OrphansBefore(shown: seq<Row>, i: nat)
    requires i < |shown|
    ensures NoOrphanBefore(shown, i) <==> Sum(shown[..i], OrphanTickets) == 0
  {
    NoOrphanTickets(shown[..i]);
    if NoOrphanBefore(shown, i) {
      assert forall row :: row in shown[..i] ==> OrphanTickets(row) == 0;
    } else {
      var k :| 0 <= k < i && HoldsTickets(shown[k]) && !HasSkin(shown[k]);
      assert shown[k] in shown[..i];
    }
  }

  lemma NoOrphansListed(rows: seq<Row>)
    ensures var shown := ReadList(rows, false);
            forall k :: 0 <= k < |shown| ==> HasSkin(shown[k])
  {
  }

  lemma OrphansSortLast(rows: seq<Row>, i: nat)
    requires i < |ReadList(rows, true)| && ReadList(rows, true)[i].price.GetOr(0) > 0
    ensures NoOrphanBefore(ReadList(rows, true), i)
  {
  }

  /** In a list whose rollable rows have a chance, a rollable row's two ranges agree exactly
      when no orphan shown tickets precedes it. */
  lemma RangesAgree(shown: seq<Row>, i: nat)
    requires i < |shown| && Rollable(shown[i])
    requires RollableHaveTickets(shown)
    ensures var pool, j := Filter(shown, Rollable), PoolIndex(shown, i);
            && j < |pool| && pool[j] == shown[i]
            && (ShownRange(shown, i) == Some(RollRange(pool, j)) <==> NoOrphanBefore(shown, i))
  {
    ShownBounds(shown, i);
    ShiftedRange(shown, i, Filter(shown, Rollable), PoolIndex(shown, i), Sum(shown[..i], OrphanTickets));
    OrphansBefore(shown, i);
  }

  /** `CaseService`: whatever order the two queries return the rows of a case in, the modal
      and the roll agree on every row that can be rolled, and no other row is shown tickets. */
  lemma CaseServiceAgreement(read: seq<Row>, roll: seq<Row>, i: nat)
    requires SameCase(read, roll) && i < |ReadList(read, false)|
    requires AvailableSkins(roll).Ok? && AllPositive(AvailableSkins(roll).value)
    ensures var shown, pool := ReadList(read, false), AvailableSkins(roll).value;
            var j := PoolIndex(shown, i);
            && Filter(shown, Rollable) == pool
            && if Rollable(shown[i])
               then j < |pool| && pool[j] == shown[i] && ShownRange(shown, i) == Some(RollRange(pool, j))
               else ShownRange(shown, i) == None
  {
    var shown := ReadList(read, false);
    NoOrphansListed(read);
    ShownList(read, roll, false);
    if Rollable(shown[i]) {
      RangesAgree(shown, i);
    }
  }

  /** `ClickerCasesService` keeps orphans in the modal. A rollable row is shown the range it
      has in the roll if and only if no orphan shown tickets is listed before it, which holds
      for every row with a positive price. */
  lemma ClickerAgreement(read: seq<Row>, roll: seq<Row>, i: nat)
    requires SameCase(read, roll) && i < |ReadList(read, true)| && Rollable(ReadList(read, true)[i])
    requires AvailableSkins(roll).Ok? && AllPositive(AvailableSkins(roll).value)
    ensures var shown, pool := ReadList(read, true), AvailableSkins(roll).value;
            var j := PoolIndex(shown, i);
            && j < |pool| && pool[j] == shown[i]
            && (ShownRange(shown, i) == Some(RollRange(pool, j)) <==> NoOrphanBefore(shown, i))
            && (shown[i].price.value > 0 ==> NoOrphanBefore(shown, i))
  {
    var shown := ReadList(read, true);
    ShownList(read, roll, true);
    RangesAgree(shown, i);
    if shown[i].price.value > 0 {
      OrphansSortLast(read, i);
    }
  }

  /** With a free skin the two do disagree: an orphan with a smaller id pushes it back. */
  lemma ClickerDisagreement()
    ensures var orphan, free := Row(1, None, 5000, true, None), Row(2, Some(0), 5000, true, None);
            && ReadList([orphan, free], true) == [orphan, free]
            && RollRange([free], 0) == TicketRange(1, 50000)
            && ShownRange([orphan, free], 1) == Some(TicketRange(50001, 100000))
  {
    var orphan, free := Row(1, None, 5000, true, None), Row(2, Some(0), 5000, true, None);
    var rows := [orphan, free];
    assert rows[1..] == [free] && [free][1..] == [];
    assert SortForLottery([]) == [];
    assert SortForLottery([free]) == [free];
    assert NotAfter(orphan, free);
    assert InsertRow(orphan, [free]) == [orphan, free];
    assert [free][..0] == [] && [free][..1] == [free];
    assert rows[..1] == [orphan] && rows[..2] == rows && rows[..2][..1] == [orphan] && [orphan][..0] == [];
    assert Sum([orphan], ShownTickets) == 50000;
  }

  // ----- The roll -----

  /** The demo roll is a 32-bit word over 2^32, the paid roll one over 2^32 - 1. */
  const DEMO_DENOMINATOR := 0x1_0000_0000
  const PAID_DENOMINATOR := 0xffff_ffff

  predicate Contains(range: TicketRange, ticket: int)
  {
    range.start <= ticket <= range.end
  }

  /** `ticketRanges.find(...)` */
  function FindRange(ranges: seq<TicketRange>, ticket: int): (found: Option<nat>)
    ensures found.Some? ==> found.value < |ranges| && Contains(ranges[found.value], ticket)
    ensures found.None? ==> forall j :: 0 <= j < |ranges| ==> !Contains(ranges[j], ticket)
  {
    if ranges == [] then None
    else if Contains(ranges[0], ticket) then Some(0)
    else match FindRange(ranges[1..], ticket)
      case None =>
        assert forall j :: 1 <= j < |ranges| ==> ranges[j] == ranges[1..][j - 1];
        None
      case Some(j) => Some(j + 1)
  }

  /** `Math.floor(randomNumber * totalTickets) + 1` for randomNumber = word / denominator. */
  function TicketOf(word: nat, totalTickets: int, denominator: int): (ticket: int)
    requires denominator > 0
  {
    word * totalTickets / denominator + 1
  }

  /** `selectWinner`, as the index of the winning row. */
  function SelectWinner(ranges: seq<TicketRange>, word: nat, denominator: int): (r: Result<nat>)
    requires denominator > 0
  {
    if ranges == [] then NoValidSkins
    else
      match FindRange(ranges, TicketOf(word, ranges[|ranges| - 1].end, denominator))
      case None => NoWinnerFound
      case Some(j) => Ok(j)
  }

  /** What `prepareTicketRanges` returns for a pool it accepts. */
  ghost predicate LaidOut(ranges: seq<TicketRange>, pool: seq<Row>)
  {
    && pool != [] && AllPositive(pool) && |ranges| == |pool|
    && forall j :: 0 <= j < |pool| ==> ranges[j] == RollRange(pool, j)
  }

  function PoolTickets(pool: seq<Row>): int
  {
    Sum(pool, RowTickets)
  }

  function ChanceOf(row: Row): int { row.chance }

  lemma {:induction false} TicketsAreChances(pool: seq<Row>)
    ensures PoolTickets(pool) == 10 * Sum(pool, ChanceOf)
  {
    if pool != [] {
      TicketsAreChances(pool[..|pool| - 1]);
    }
  }

  lemma {:induction false} EndsSum(ranges: seq<TicketRange>, pool: seq<Row>, j: nat)
    requires EndToEnd(ranges, pool) && j <= |pool|
    ensures Sum(pool[..j], RowTickets) == if j == 0 then 0 else ranges[j - 1].end
  {
    if j > 0 {
      var i := j - 1;
      EndsSum(ranges, pool, i);
      assert pool[..j] == pool[..i] + [pool[i]];
      SumAppend(pool[..i], pool[i], RowTickets);
      assert InPlace(ranges, pool, i);
    }
  }

  lemma LaidOutEndToEnd(ranges: seq<TicketRange>, pool: seq<Row>)
    requires LaidOut(ranges, pool)
    ensures EndToEnd(ranges, pool)
  {
    forall j | 0 <= j < |pool| ensures InPlace(ranges, pool, j) {
      assert ranges[j] == RollRange(pool, j);
      assert j > 0 ==> ranges[j - 1] == RollRange(pool, j - 1);
      assert pool[..0] == [];
      assert RollRange(pool, j).end - RollRange(pool, j).start + 1 == 10 * pool[j].chance by { SumBounds(pool, j); }
    }
  }

  lemma EndToEndLaidOut(ranges: seq<TicketRange>, pool: seq<Row>)
    requires pool != [] && AllPositive(pool) && EndToEnd(ranges, pool)
    ensures LaidOut(ranges, pool)
  {
    forall j | 0 <= j < |pool| ensures ranges[j] == RollRange(pool, j) {
      EndsSum(ranges, pool, j);
      EndsSum(ranges, pool, j + 1);
      assert InPlace(ranges, pool, j);
    }
  }

  /** The roll's ranges are exactly those that follow each other from ticket 1 on with ten
      tickets for each hundredth of a percent, and end at ten times the sum of the chances: at
      100000 for chances that add up to 100 percent. */
  lemma RangesMeasureChances(ranges: seq<TicketRange>, pool: seq<Row>)
    requires pool != [] && AllPositive(pool)
    ensures LaidOut(ranges, pool) <==> EndToEnd(ranges, pool)
    ensures LaidOut(ranges, pool) ==> ranges[|ranges| - 1].end == 10 * Sum(pool, ChanceOf)
  {
    if LaidOut(ranges, pool) {
      LaidOutEndToEnd(ranges, pool);
      TicketsAreChances(pool);
      Partition(ranges, pool, 1);
    } else if EndToEnd(ranges, pool) {
      EndToEndLaidOut(ranges, pool);
    }
  }

  lemma {:induction false} PrefixTickets(pool: seq<Row>, i: nat, j: nat)
    requires AllPositive(pool) && i <= j <= |pool|
    ensures 0 <= Sum(pool[..i], RowTickets) <= Sum(pool[..j], RowTickets)
    ensures i < j ==> Sum(pool[..i], RowTickets) < Sum(pool[..j], RowTickets)
    decreases j
  {
    if 0 < j {
      assert pool[..j][..j - 1] == pool[..j - 1];
      if i < j {
        PrefixTickets(pool, i, j - 1);
      } else {
        PrefixTickets(pool, j - 1, j - 1);
      }
      assert pool[j - 1] in pool;
    }
  }

  lemma {:induction false} Locate(pool: seq<Row>, ticket: int, n: nat) returns (j: nat)
    requires n <= |pool| && 1 <= ticket <= Sum(pool[..n], RowTickets)
    ensures j < n && Contains(RollRange(pool, j), ticket)
  {
    assert n > 0 && pool[..n][..n - 1] == pool[..n - 1];
    if ticket <= Sum(pool[..n - 1], RowTickets) {
      j := Locate(pool, ticket, n - 1);
    } else {
      j := n - 1;
    }
  }

  /** The ranges partition 1..T: a ticket lies in some range exactly when 1 <= ticket <= T,
      and never in two. */
  lemma Partition(ranges: seq<TicketRange>, pool: seq<Row>, ticket: int)
    requires LaidOut(ranges, pool)
    ensures ranges[|ranges| - 1].end == PoolTickets(pool) > 0
    ensures 1 <= ticket <= PoolTickets(pool) <==> exists j :: 0 <= j < |ranges| && Contains(ranges[j], ticket)
    ensures forall j, k | 0 <= j < |ranges| && 0 <= k < |ranges| ::
              Contains(ranges[j], ticket) && Contains(ranges[k], ticket) ==> j == k
  {
    assert pool[..|pool|] == pool;
    PrefixTickets(pool, 0, |pool|);
    if 1 <= ticket <= PoolTickets(pool) {
      var j := Locate(pool, ticket, |pool|);
      assert Contains(ranges[j], ticket);
    }
    forall j | 0 <= j < |ranges| && Contains(ranges[j], ticket)
      ensures 1 <= ticket <= PoolTickets(pool)
    {
      PrefixTickets(pool, 0, j);
      PrefixTickets(pool, j + 1, |pool|);
    }
    forall j, k | 0 <= j < |ranges| && 0 <= k < |ranges| && Contains(ranges[j], ticket) && Contains(ranges[k], ticket)
      ensures j == k
    {
      if j < k {
        PrefixTickets(pool, j + 1, k);
      } else if k < j {
        PrefixTickets(pool, k + 1, j);
      }
    }
  }

  /** Row j wins exactly when the rolled ticket lies in its range. */
  lemma WinnerIsOwner(ranges: seq<TicketRange>, pool: seq<Row>, word: nat, denominator: int, j: nat)
    requires LaidOut(ranges, pool) && denominator > 0 && j < |ranges|
    ensures SelectWinner(ranges, word, denominator) == Ok(j)
       <==> Contains(ranges[j], TicketOf(word, PoolTickets(pool), denominator))
  {
    Partition(ranges, pool, TicketOf(word, PoolTickets(pool), denominator));
  }

  lemma TicketBounds(word: nat, total: int, denominator: int)
    requires total > 0 && denominator > 0
    ensures var t := TicketOf(word, total, denominator);
            denominator * (t - 1) <= word * total < denominator * t
    ensures TicketOf(word, total, denominator) >= 1
    ensures TicketOf(word, total, denominator) <= total <==> word < denominator
    ensures word == denominator ==> TicketOf(word, total, denominator) == total + 1
  {
    var t := TicketOf(word, total, denominator);
    DivisionBounds(word * total, denominator);
    assert word * total >= 0;
    MulOrder(denominator, 0, t);
    MulOrder(total, word, denominator);
    assert total * word == word * total && total * denominator == denominator * total;
    if t <= total {
      MulOrder(denominator, t, total);
    } else {
      MulOrder(denominator, total, t - 1);
    }
    if word == denominator {
      MulOrder(denominator, t - 1, total);
      MulOrder(denominator, total, t);
    }
  }

  /** The demo roll always has a winner. The paid roll has one for every 32-bit word but
      0xffffffff, which asks for ticket T + 1. */
  lemma RollTotality(ranges: seq<TicketRange>, pool: seq<Row>, word: nat)
    requires LaidOut(ranges, pool) && word <= 0xffff_ffff
    ensures SelectWinner(ranges, word, DEMO_DENOMINATOR).Ok?
    ensures SelectWinner(ranges, word, PAID_DENOMINATOR).Ok? <==> word != 0xffff_ffff
    ensures SelectWinner(ranges, 0xffff_ffff, PAID_DENOMINATOR) == NoWinnerFound
    ensures TicketOf(0xffff_ffff, PoolTickets(pool), PAID_DENOMINATOR) == PoolTickets(pool) + 1
  {
    Partition(ranges, pool, TicketOf(word, PoolTickets(pool), DEMO_DENOMINATOR));
    TicketBounds(word, PoolTickets(pool), DEMO_DENOMINATOR);
    Partition(ranges, pool, TicketOf(word, PoolTickets(pool), PAID_DENOMINATOR));
    TicketBounds(word, PoolTickets(pool), PAID_DENOMINATOR);
    Partition(ranges, pool, TicketOf(0xffff_ffff, PoolTickets(pool), PAID_DENOMINATOR));
    TicketBounds(0xffff_ffff, PoolTickets(pool), PAID_DENOMINATOR);
  }

  // ----- Each row's share of the words -----

  /** The least word whose ticket exceeds `tickets`. */
  function FirstWordAbove(tickets: int, total: int, denominator: int): (w: int)
    requires total > 0
    ensures tickets * denominator <= total * w < tickets * denominator + total
  {
    DivisionBounds(tickets * denominator + total - 1, total);
    (tickets * denominator + total - 1) / total
  }

  lemma TicketAbove(word: nat, tickets: int, total: int, denominator: int)
    requires total > 0 && denominator > 0
    ensures TicketOf(word, total, denominator) > tickets <==> word >= FirstWordAbove(tickets, total, denominator)
  {
    var t, w := TicketOf(word, total, denominator), FirstWordAbove(tickets, total, denominator);
    TicketBounds(word, total, denominator);
    assert denominator * tickets == tickets * denominator && word * total == total * word;
    if t > tickets {
      MulOrder(denominator, tickets, t - 1);
      assert total * (w - 1) == total * w - total;
      MulOrder(total, w - 1, word);
    } else {
      MulOrder(denominator, t, tickets);
      MulOrder(total, word, w);
    }
  }

  ghost function WinningWords(ranges: seq<TicketRange>, denominator: int, j: nat): (words: set<int>)
    requires denominator > 0
  {
    set w: int | 0 <= w < denominator && SelectWinner(ranges, w, denominator) == Ok(j)
  }

  lemma FirstWordMonotone(a: int, b: int, total: int, denominator: int)
    requires a <= b && total > 0 && denominator > 0
    ensures FirstWordAbove(a, total, denominator) <= FirstWordAbove(b, total, denominator)
  {
    var v, w := FirstWordAbove(a, total, denominator), FirstWordAbove(b, total, denominator);
    MulOrder(denominator, a, b);
    assert total * (v - 1) == total * v - total;
    MulOrder(total, v - 1, w);
  }

  lemma FirstWordEnds(total: int, denominator: int)
    requires total > 0 && denominator > 0
    ensures FirstWordAbove(0, total, denominator) == 0
    ensures FirstWordAbove(total, total, denominator) == denominator
  {
    var v, w := FirstWordAbove(0, total, denominator), FirstWordAbove(total, total, denominator);
    MulOrder(total, v, 1);
    MulOrder(total, -1, v);
    assert total * (w - 1) == total * w - total;
    MulOrder(total, w - 1, denominator);
    MulOrder(total, denominator, w);
  }

  /** The words on which row j wins form one interval. */
  lemma WinningInterval(ranges: seq<TicketRange>, pool: seq<Row>, denominator: int, j: nat)
    requires LaidOut(ranges, pool) && denominator > 0 && j < |pool|
    ensures var total := PoolTickets(pool);
            && total > 0
            && WinningWords(ranges, denominator, j)
               == Range(FirstWordAbove(Sum(pool[..j], RowTickets), total, denominator),
                        FirstWordAbove(Sum(pool[..j + 1], RowTickets), total, denominator))
  {
    var total := PoolTickets(pool);
    var below, upTo := Sum(pool[..j], RowTickets), Sum(pool[..j + 1], RowTickets);
    Partition(ranges, pool, 1);
    SumBounds(pool, j);
    FirstWordEnds(total, denominator);
    FirstWordMonotone(0, below, total, denominator);
    FirstWordMonotone(upTo, total, total, denominator);
    var lo, hi := FirstWordAbove(below, total, denominator), FirstWordAbove(upTo, total, denominator);
    forall w: int
      ensures w in WinningWords(ranges, denominator, j) <==> w in Range(lo, hi)
    {
      if 0 <= w < denominator {
        WinnerIsOwner(ranges, pool, w, denominator, j);
        TicketAbove(w, below, total, denominator);
        TicketAbove(w, upTo, total, denominator);
      }
    }
  }

  lemma SumBounds(pool: seq<Row>, j: nat)
    requires AllPositive(pool) && j < |pool|
    ensures 0 <= Sum(pool[..j], RowTickets) < Sum(pool[..j + 1], RowTickets) <= PoolTickets(pool)
    ensures Sum(pool[..j + 1], RowTickets) == Sum(pool[..j], RowTickets) + RowTickets(pool[j])
  {
    PrefixTickets(pool, 0, j);
    PrefixTickets(pool, j, j + 1);
    PrefixTickets(pool, j + 1, |pool|);
    assert pool[..|pool|] == pool && pool[..j + 1][..j] == pool[..j];
  }

  lemma WinningCount(ranges: seq<TicketRange>, pool: seq<Row>, denominator: int, j: nat)
    requires LaidOut(ranges, pool) && denominator > 0 && j < |pool|
    ensures var total, below := PoolTickets(pool), Sum(pool[..j], RowTickets);
            && total > 0 && RowTickets(pool[j]) > 0
            && |WinningWords(ranges, denominator, j)|
               == FirstWordAbove(below + RowTickets(pool[j]), total, denominator)
                  - FirstWordAbove(below, total, denominator)
  {
    SumBounds(pool, j);
    WinningInterval(ranges, pool, denominator, j);
    FirstWordMonotone(Sum(pool[..j], RowTickets), Sum(pool[..j + 1], RowTickets), PoolTickets(pool), denominator);
  }

  lemma TicketShare(ranges: seq<TicketRange>, pool: seq<Row>, denominator: int, j: nat)
    requires LaidOut(ranges, pool) && denominator > 0 && j < |pool|
    ensures var total, tickets := PoolTickets(pool), RowTickets(pool[j]);
            -total < total * |WinningWords(ranges, denominator, j)| - tickets * denominator < total
  {
    WinningCount(ranges, pool, denominator, j);
    ShareOfInterval(Sum(pool[..j], RowTickets), RowTickets(pool[j]), PoolTickets(pool), denominator,
                    |WinningWords(ranges, denominator, j)|);
  }

  lemma TenthOfShare(total: int, words: int, chance: int, denominator: int)
    requires -(10 * total) < 10 * total * words - 10 * chance * denominator < 10 * total
    ensures -total < total * words - chance * denominator < total
  {
  }

  /** Fairness: with C the sum of the pool's chances, a row with chance c wins on c D / C of the
      words below the denominator D, give or take less than one. */
  lemma FairShare(ranges: seq<TicketRange>, pool: seq<Row>, denominator: int, j: nat)
    requires LaidOut(ranges, pool) && denominator > 0 && j < |pool|
    ensures var chances := Sum(pool, ChanceOf);
            && chances > 0
            && -chances < chances * |WinningWords(ranges, denominator, j)| - pool[j].chance * denominator < chances
  {
    Partition(ranges, pool, 1);
    TicketsAreChances(pool);
    TicketShare(ranges, pool, denominator, j);
    TenthOfShare(Sum(pool, ChanceOf), |WinningWords(ranges, denominator, j)|, pool[j].chance, denominator);
  }

  /** The interval between the first words above two bounds has its share of the words. */
  lemma ShareOfInterval(below: int, tickets: int, total: int, denominator: int, words: int)
    requires total > 0 && denominator > 0
    requires words == FirstWordAbove(below + tickets, total, denominator) - FirstWordAbove(below, total, denominator)
    ensures -total < total * words - tickets * denominator < total
  {
    var lo, hi := FirstWordAbove(below, total, denominator), FirstWordAbove(below + tickets, total, denominator);
    assert (below + tickets) * denominator == below * denominator + tickets * denominator;
    ShareBounds(total, lo, hi, below * denominator, tickets * denominator);
  }

  lemma ShareBounds(total: int, lo: int, hi: int, below: int, share: int)
    requires below <= total * lo < below + total && below + share <= total * hi < below + share + total
    ensures -total < total * (hi - lo) - share < total
  {
    assert total * (hi - lo) == total * hi - total * lo;
  }
}
