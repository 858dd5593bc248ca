/** Choosing a model from a benchmark table: its cost-intelligence frontier. */
module Frontier {
  import opened Ordering
  import opened Sorting

  datatype Row = Row(permaslug: string, intelligence: real, price: real, completion: real)

  // The frontier.

  predicate Dominates(a: Row, b: Row) {
    && a.intelligence >= b.intelligence && a.price <= b.price
    && (a.intelligence > b.intelligence || a.price < b.price)
  }

  predicate Covers(a: Row, b: Row) {
    a.intelligence >= b.intelligence && a.price <= b.price
  }

  predicate SamePoint(a: Row, b: Row) {
    a.intelligence == b.intelligence && a.price == b.price
  }

  predicate ByIntelligence(a: Row, b: Row) {
    a.intelligence < b.intelligence
  }

  /**
   * The frontier of a table: strictly rising in both coordinates, each entry an undominated row
   * with the least name at its point, and every row covered by some entry.
   */
  ghost predicate IsFrontier(rows: seq<Row>, f: seq<Row>) {
    && Rising(f)
    && (forall i :: 0 <= i < |f| ==> f[i] in rows)
    && (forall i, r :: 0 <= i < |f| && r in rows ==> !Dominates(r, f[i]))
    && (forall i, r :: 0 <= i < |f| && r in rows && SamePoint(r, f[i]) ==> !StrLess(r.permaslug, f[i].permaslug))
    && (forall r :: r in rows ==> Covered(f, r))
  }

  ghost predicate Covered(f: seq<Row>, r: Row) {
    exists i :: 0 <= i < |f| && Covers(f[i], r)
  }

  /** One row for every point of the table, and the one with the least name. */
  ghost predicate OnePerPoint(rows: seq<Row>, unique: seq<Row>) {
    && (forall i :: 0 <= i < |unique| ==> unique[i] in rows)
    && (forall i, j :: 0 <= i < j < |unique| ==> !SamePoint(unique[i], unique[j]))
    && (forall r :: r in rows ==> HasPoint(unique, r))
    && (forall i, r :: 0 <= i < |unique| && r in rows && SamePoint(unique[i], r)
         ==> !StrLess(r.permaslug, unique[i].permaslug))
  }

  ghost predicate HasPoint(unique: seq<Row>, r: Row) {
    exists i :: 0 <= i < |unique| && SamePoint(unique[i], r)
  }

  lemma PointOf(unique: seq<Row>, r: Row) returns (k: nat)
    requires HasPoint(unique, r)
    ensures k < |unique| && SamePoint(unique[k], r)
  {
    k :| 0 <= k < |unique| && SamePoint(unique[k], r);
  }

  lemma PointAt(unique: seq<Row>, r: Row, k: nat)
    requires k < |unique| && SamePoint(unique[k], r)
    ensures HasPoint(unique, r)
  {
  }

  ghost predicate Rising(f: seq<Row>) {
    forall i, j :: 0 <= i < j < |f| ==> f[i].intelligence < f[j].intelligence && f[i].price < f[j].price
  }

  /** The by-coordinate dictionary: one row a point, the least name seen so far. */
  ghost predicate Deduplicated(rows: seq<Row>, table: map<(real, real), Row>) {
    && (forall r :: r in rows ==> (r.intelligence, r.price) in table)
    && (forall c :: c in table ==>
          table[c] in rows && (table[c].intelligence, table[c].price) == c
          && forall r :: r in rows && (r.intelligence, r.price) == c ==> !StrLess(r.permaslug, table[c].permaslug))
  }

  /** The dictionary is built in order; `unique` lists its values in insertion order of their points. */
  method Deduplicate(rows: seq<Row>) returns (unique: seq<Row>)
    ensures OnePerPoint(rows, unique)
  {
    var table: map<(real, real), Row> := map[];
    var points: seq<(real, real)> := [];
    for i := 0 to |rows|
      invariant Distinct(points)
      invariant forall c :: c in table <==> c in points
      invariant Deduplicated(rows[..i], table)
    {
      hide Deduplicated;
      var row := rows[i];
      var point := (row.intelligence, row.price);
      if point !in table || StrLess(row.permaslug, table[point].permaslug) {
        KeepLeast(rows[..i], table, row);
        if point !in table {
          points := points + [point];
        }
        table := table[point := row];
      } else {
        KeepIncumbent(rows[..i], table, row);
      }
      assert rows[..i + 1] == rows[..i] + [row];
    }
    assert rows[..|rows|] == rows;
    assert forall i :: 0 <= i < |points| ==> points[i] in table;
    unique := seq(|points|, i requires 0 <= i < |points| => table[points[i]]);
    ValuesOnePerPoint(rows, table, points, unique);
  }

  lemma ValuesOnePerPoint(rows: seq<Row>, table: map<(real, real), Row>, points: seq<(real, real)>, unique: seq<Row>)
    requires Distinct(points) && (forall c :: c in table <==> c in points) && Deduplicated(rows, table)
    requires |unique| == |points|
    requires forall i :: 0 <= i < |points| ==> points[i] in table && unique[i] == table[points[i]]
    ensures OnePerPoint(rows, unique)
  {
    hide HasPoint;
    forall i | 0 <= i < |unique|
      ensures unique[i] in rows && (unique[i].intelligence, unique[i].price) == points[i]
    {
      assert points[i] in table;
    }
    forall r | r in rows
      ensures HasPoint(unique, r)
    {
      assert (r.intelligence, r.price) in points;
      var k :| 0 <= k < |points| && points[k] == (r.intelligence, r.price);
      PointAt(unique, r, k);
    }
  }

  lemma KeepLeast(seen: seq<Row>, table: map<(real, real), Row>, row: Row)
    requires Deduplicated(seen, table)
    requires var c := (row.intelligence, row.price); c !in table || StrLess(row.permaslug, table[c].permaslug)
    ensures Deduplicated(seen + [row], table[(row.intelligence, row.price) := row])
  {
    var point := (row.intelligence, row.price);
    var next := table[point := row];
    forall c, r | c in next && r in seen + [row] && (r.intelligence, r.price) == c
      ensures !StrLess(r.permaslug, next[c].permaslug)
    {
      StrAsymmetric(row.permaslug, row.permaslug);
      if c == point && r in seen {
        StrAsymmetric(row.permaslug, table[c].permaslug);
        StrBetween(r.permaslug, table[c].permaslug, row.permaslug);
        StrBetween(r.permaslug, row.permaslug, table[c].permaslug);
        StrAsymmetric(r.permaslug, row.permaslug);
        StrBetween(row.permaslug, r.permaslug, table[c].permaslug);
      }
    }
  }

  lemma KeepIncumbent(seen: seq<Row>, table: map<(real, real), Row>, row: Row)
    requires Deduplicated(seen, table)
    requires var c := (row.intelligence, row.price); c in table && !StrLess(row.permaslug, table[c].permaslug)
    ensures Deduplicated(seen + [row], table)
  {
  }

  predicate Undominated(row: Row, unique: seq<Row>) {
    forall i :: 0 <= i < |unique| ==> !Dominates(unique[i], row)
  }

  function Filtered(unique: seq<Row>, all: seq<Row>): seq<Row> {
    if |unique| == 0 then []
    else
      var rest, last := Filtered(unique[..|unique| - 1], all), unique[|unique| - 1];
      if Undominated(last, all) then rest + [last] else rest
  }

  method ParetoFrontier(rows: seq<Row>) returns (frontier: seq<Row>)
    ensures IsFrontier(rows, frontier)
  {
    var unique := Deduplicate(rows);
    var kept := [];
    for i := 0 to |unique|
      invariant kept == Filtered(unique[..i], unique)
    {
      assert unique[..i + 1][..i] == unique[..i];
      if Undominated(unique[i], unique) {
        kept := kept + [unique[i]];
      }
    }
    assert unique[..|unique|] == unique;
    frontier := SortBy(ByIntelligence, kept);
    FrontierCorrect(rows, unique, kept, frontier);
  }

  lemma {:induction false} FilteredMembers(unique: seq<Row>, all: seq<Row>, r: Row)
    ensures r in Filtered(unique, all) <==> r in unique && Undominated(r, all)
  {
    if |unique| > 0 {
      FilteredMembers(unique[..|unique| - 1], all, r);
      assert unique == unique[..|unique| - 1] + [unique[|unique| - 1]];
    }
  }

  lemma {:induction false} FilteredDistinct(unique: seq<Row>, all: seq<Row>)
    requires Distinct(unique)
    ensures Distinct(Filtered(unique, all))
  {
    if |unique| > 0 {
      FilteredDistinct(unique[..|unique| - 1], all);
      FilteredMembers(unique[..|unique| - 1], all, unique[|unique| - 1]);
    }
  }

  /** Among finitely many rows covering r, one of greatest intelligence and then least price is undominated. */
  lemma {:induction false} BestCover(all: seq<Row>, r: Row) returns (m: Row)
    requires exists i :: 0 <= i < |all| && Covers(all[i], r)
    ensures m in all && Covers(m, r)
    ensures forall i :: 0 <= i < |all| && Covers(all[i], r) ==>
      all[i].intelligence < m.intelligence || (all[i].intelligence == m.intelligence && all[i].price >= m.price)
  {
    var n := |all| - 1;
    if exists i :: 0 <= i < n && Covers(all[i], r) {
      var i :| 0 <= i < n && Covers(all[i], r);
      assert all[..n][i] == all[i];
      var best := BestCover(all[..n], r);
      var last := all[n];
      m := if Covers(last, r) && (last.intelligence > best.intelligence
                                  || (last.intelligence == best.intelligence && last.price < best.price))
           then last else best;
      assert forall k :: 0 <= k < n ==> all[k] == all[..n][k];
    } else {
      m := all[n];
    }
  }

  lemma FrontierCorrect(rows: seq<Row>, unique: seq<Row>, kept: seq<Row>, frontier: seq<Row>)
    requires OnePerPoint(rows, unique)
    requires kept == Filtered(unique, unique) && frontier == SortBy(ByIntelligence, kept)
    ensures IsFrontier(rows, frontier)
  {
    hide HasPoint, Filtered, SortBy, Dominates, Covered, Undominated;
    forall i | 0 <= i < |frontier|
      ensures frontier[i] in unique && Undominated(frontier[i], unique)
    {
      FrontierMembers(unique, kept, frontier, frontier[i]);
    }
    assert Distinct(frontier) && SortedBy(ByIntelligence, frontier) by {
      assert Distinct(unique);
      FilteredDistinct(unique, unique);
      SortKeepsDistinct(ByIntelligence, kept);
      SortSorts(ByIntelligence, kept);
    }
    FrontierRises(unique, frontier);
    FrontierCovers(rows, unique, kept, frontier);
    FrontierUndominated(rows, unique, frontier);
  }

  lemma FrontierMembers(unique: seq<Row>, kept: seq<Row>, frontier: seq<Row>, r: Row)
    requires kept == Filtered(unique, unique) && frontier == SortBy(ByIntelligence, kept)
    ensures r in frontier <==> r in unique && Undominated(r, unique)
  {
    FilteredMembers(unique, unique, r);
    SortSameMembers(ByIntelligence, kept, r);
  }

  lemma FrontierRises(unique: seq<Row>, frontier: seq<Row>)
    requires forall i, j :: 0 <= i < j < |unique| ==> !SamePoint(unique[i], unique[j])
    requires forall i :: 0 <= i < |frontier| ==> frontier[i] in unique && Undominated(frontier[i], unique)
    requires Distinct(frontier) && SortedBy(ByIntelligence, frontier)
    ensures Rising(frontier)
  {
    forall i, j | 0 <= i < j < |frontier|
      ensures frontier[i].intelligence < frontier[j].intelligence && frontier[i].price < frontier[j].price
    {
      var a, b := frontier[i], frontier[j];
      assert !ByIntelligence(b, a);
      DifferentPoints(unique, a, b);
      var k :| 0 <= k < |unique| && unique[k] == b;
      assert !Dominates(unique[k], a);
      k :| 0 <= k < |unique| && unique[k] == a;
      assert !Dominates(unique[k], b);
    }
  }

  lemma FrontierCovers(rows: seq<Row>, unique: seq<Row>, kept: seq<Row>, frontier: seq<Row>)
    requires OnePerPoint(rows, unique)
    requires kept == Filtered(unique, unique) && frontier == SortBy(ByIntelligence, kept)
    ensures forall r :: r in rows ==> Covered(frontier, r)
  {
    forall r | r in rows
      ensures Covered(frontier, r)
    {
      var k := PointOf(unique, r);
      assert Covers(unique[k], r);
      var m := BestCover(unique, r);
      forall i | 0 <= i < |unique|
        ensures !Dominates(unique[i], m)
      {
        assert Covers(unique[i], m) ==> Covers(unique[i], r);
      }
      FrontierMembers(unique, kept, frontier, m);
    }
  }

  lemma FrontierUndominated(rows: seq<Row>, unique: seq<Row>, frontier: seq<Row>)
    requires OnePerPoint(rows, unique)
    requires forall i :: 0 <= i < |frontier| ==> frontier[i] in unique && Undominated(frontier[i], unique)
    ensures forall i :: 0 <= i < |frontier| ==> frontier[i] in rows
    ensures forall i, r :: 0 <= i < |frontier| && r in rows ==> !Dominates(r, frontier[i])
    ensures forall i, r ::
      0 <= i < |frontier| && r in rows && SamePoint(r, frontier[i]) ==> !StrLess(r.permaslug, frontier[i].permaslug)
  {
    hide HasPoint;
    forall i, r | 0 <= i < |frontier| && r in rows
      ensures frontier[i] in rows && !Dominates(r, frontier[i])
      ensures SamePoint(r, frontier[i]) ==> !StrLess(r.permaslug, frontier[i].permaslug)
    {
      EntryBest(rows, unique, frontier[i], r);
    }
    forall i | 0 <= i < |frontier|
      ensures frontier[i] in rows
    {
      var k :| 0 <= k < |unique| && unique[k] == frontier[i];
    }
  }

  lemma EntryBest(rows: seq<Row>, unique: seq<Row>, entry: Row, r: Row)
    requires OnePerPoint(rows, unique) && entry in unique && Undominated(entry, unique) && r in rows
    ensures entry in rows && !Dominates(r, entry)
    ensures SamePoint(r, entry) ==> !StrLess(r.permaslug, entry.permaslug)
  {
    hide HasPoint;
    var j :| 0 <= j < |unique| && unique[j] == entry;
    var k := PointOf(unique, r);
    assert !Dominates(unique[k], entry);
  }

  lemma DifferentPoints(unique: seq<Row>, a: Row, b: Row)
    requires forall i, j :: 0 <= i < j < |unique| ==> !SamePoint(unique[i], unique[j])
    requires a in unique && b in unique && a != b
    ensures !SamePoint(a, b)
  {
    var i :| 0 <= i < |unique| && unique[i] == a;
    var j :| 0 <= j < |unique| && unique[j] == b;
    if i < j {
      assert !SamePoint(unique[i], unique[j]);
    } else {
      assert !SamePoint(unique[j], unique[i]);
    }
  }
}
