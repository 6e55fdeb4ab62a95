/** "ORDER BY time LIMIT n" over the rows of a table that qualify. */
module Earliest {
  import opened Sequences

  type RowId = nat

  datatype Timed = Timed(at: int, id: RowId)

  /** Rows with the same time come in the order of their ids, which are handed out in time order. */
  function EarliestFirst(): (Timed, Timed) -> bool {
    (a: Timed, b: Timed) => a.at < b.at || (a.at == b.at && a.id < b.id)
  }

  ghost function AnyOrder(rows: set<Timed>): (xs: seq<Timed>)
    ensures NoDup(xs) && forall c :: c in xs <==> c in rows
  {
    if rows == {} then []
    else
      var c :| c in rows;
      AnyOrder(rows - {c}) + [c]
  }

  function Take(rows: seq<Timed>, limit: nat): seq<RowId> {
    var n := if limit < |rows| then limit else |rows|;
    seq(n, i requires 0 <= i < n => rows[i].id)
  }

  ghost function Taken(rows: set<Timed>, limit: nat): seq<RowId> {
    Take(Sort(AnyOrder(rows), EarliestFirst()), limit)
  }

  /** However the rows are read, the same ones are taken. */
  lemma AnyListingTakesAlike(rows: set<Timed>, listed: seq<Timed>, limit: nat)
    requires NoDup(listed) && forall c :: c in listed <==> c in rows
    ensures Take(Sort(listed, EarliestFirst()), limit) == Taken(rows, limit)
  {
    SameElementsPermute(AnyOrder(rows), listed);
    TimeOrderIsTotal(rows);
    SortIgnoresOrder(AnyOrder(rows), listed, EarliestFirst(), rows);
  }

  lemma TakenQualify(rows: set<Timed>, limit: nat)
    requires forall a, b | a in rows && b in rows && a.id == b.id :: a == b
    ensures forall id | id in Taken(rows, limit) :: exists at :: Timed(at, id) in rows
    ensures NoDup(Taken(rows, limit)) && |Taken(rows, limit)| <= limit
  {
    var listed, taken := AnyOrder(rows), Taken(rows, limit);
    var sorted := Sort(listed, EarliestFirst());
    SortPermutes(listed, EarliestFirst());
    NoDupPermutes(listed, sorted);
    forall c | c in sorted ensures c in rows { assert c in multiset(listed); }
    forall id | id in taken ensures exists at :: Timed(at, id) in rows {
      var i :| 0 <= i < |taken| && taken[i] == id;
      assert sorted[i] in sorted && sorted[i] == Timed(sorted[i].at, id);
    }
    forall i, j | 0 <= i < j < |taken| ensures taken[i] != taken[j] {
      assert sorted[i] in sorted && sorted[j] in sorted && sorted[i] != sorted[j];
    }
  }

  /** A row is passed over only when the limit is spent on rows no later than it. */
  lemma TakenAreTheEarliest(rows: set<Timed>, limit: nat, row: Timed)
    requires row in rows && row.id !in Taken(rows, limit)
    ensures |Taken(rows, limit)| == limit
    ensures forall id | id in Taken(rows, limit) :: exists at :: Timed(at, id) in rows && at <= row.at
  {
    var taken := Taken(rows, limit);
    var sorted := Sort(AnyOrder(rows), EarliestFirst());
    SortPermutes(AnyOrder(rows), EarliestFirst());
    assert row in sorted;
    var k :| 0 <= k < |sorted| && sorted[k] == row;
    assert forall i | 0 <= i < |taken| :: taken[i] == sorted[i].id && taken[i] in taken;
    forall id | id in taken ensures exists at :: Timed(at, id) in rows && at <= row.at {
      var i :| 0 <= i < |taken| && taken[i] == id;
      SortedByTime(rows, sorted, i, k);
      assert sorted[i] == Timed(sorted[i].at, id);
    }
  }

  lemma SortedByTime(rows: set<Timed>, sorted: seq<Timed>, i: nat, k: nat)
    requires sorted == Sort(AnyOrder(rows), EarliestFirst()) && i < k < |sorted|
    ensures sorted[i] in rows && sorted[i].at <= sorted[k].at
  {
    var listed := AnyOrder(rows);
    SortPermutes(listed, EarliestFirst());
    TimeOrderIsTotal(rows);
    SortOrders(listed, EarliestFirst(), rows);
    assert sorted[i] in sorted && !EarliestFirst()(sorted[k], sorted[i]);
  }

  lemma TimeOrderIsTotal(rows: set<Timed>)
    ensures StrictTotalOn(EarliestFirst(), rows)
  {
    forall a, b | a in rows && b in rows && a != b ensures EarliestFirst()(a, b) || EarliestFirst()(b, a) {
      assert a.at != b.at || a.id != b.id;
    }
  }
}
