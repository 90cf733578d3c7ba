/** The stratified sampler: large files first, then one project after the other, year by year. */
module Sampler {
  import opened Distinctness
  import opened Options

  /** A year and a project. */
  datatype Part = Part(year: nat, project: nat)

  /** A corpus row: its name, its place in the directory structure, its size and its file pattern. */
  datatype Row = Row(rel: nat, part: Option<Part>, size: int, pattern: nat)

  /** Rows in the expected directory structure that are not too large. */
  predicate Eligible(row: Row, maxBytes: Option<int>) {
    row.part.Some? && (maxBytes.Some? ==> row.size <= maxBytes.value)
  }

  ghost predicate AllPlaced(rows: seq<Row>) {
    forall i :: 0 <= i < |rows| ==> rows[i].part.Some?
  }

  ghost predicate DistinctRels(rows: seq<Row>) {
    forall i, j :: 0 <= i < j < |rows| ==> rows[i].rel != rows[j].rel
  }

  /** The parts of a list of rows. */
  ghost function Parts(rows: seq<Row>): set<Part>
    requires AllPlaced(rows)
  {
    set i | 0 <= i < |rows| :: rows[i].part.value
  }

  ghost function Rels(rows: seq<Row>): set<nat> {
    set i | 0 <= i < |rows| :: rows[i].rel
  }

  /** A row only follows another one of its part when every part has one already. */
  ghost predicate Fair(chosen: seq<Row>, rows: seq<Row>)
    requires AllPlaced(chosen) && AllPlaced(rows)
  {
    forall j :: 0 <= j < |chosen| ==> FairAt(chosen, rows, j)
  }

  ghost predicate FairAt(chosen: seq<Row>, rows: seq<Row>, j: nat)
    requires AllPlaced(chosen) && AllPlaced(rows) && j < |chosen|
  {
    chosen[j].part.value in Parts(chosen[..j]) ==> Parts(rows) <= Parts(chosen[..j])
  }

  /** The filtering loop, which groups rows by part; here the groups are read off the filtered list. */
  method EligibleRows(rows: seq<Row>, maxBytes: Option<int>) returns (r: seq<Row>)
    requires DistinctRels(rows)
    ensures AllPlaced(r) && DistinctRels(r)
    ensures forall row :: row in r <==> row in rows && Eligible(row, maxBytes)
  {
    r := [];
    var i := 0;
    while i < |rows|
      invariant 0 <= i <= |rows| && AllPlaced(r) && DistinctRels(r)
      invariant forall row :: row in r <==> row in rows[..i] && Eligible(row, maxBytes)
    {
      assert rows[..i + 1] == rows[..i] + [rows[i]];
      if Eligible(rows[i], maxBytes) {
        forall k | 0 <= k < |r|
          ensures r[k].rel != rows[i].rel
        {
          assert r[k] in rows[..i];
        }
        r := r + [rows[i]];
      }
      i := i + 1;
    }
    assert rows[..i] == rows;
  }

  /** The rows of one part that were not chosen yet. */
  function Unseen(rows: seq<Row>, part: Part, seen: set<nat>): (r: seq<Row>)
    ensures forall row :: row in r <==> row in rows && row.part == Some(part) && row.rel !in seen
  {
    if rows == [] then []
    else
      var front := Unseen(rows[..|rows| - 1], part, seen);
      var row := rows[|rows| - 1];
      assert forall x :: x in rows <==> x in rows[..|rows| - 1] || x == row;
      if row.part == Some(part) && row.rel !in seen then front + [row] else front
  }

  /** list.remove. */
  function Drop(s: seq<nat>, x: nat): (r: seq<nat>)
    ensures forall y :: y in r ==> y in s
    ensures forall y :: y in s && y != x ==> y in r
  {
    if s == [] then [] else if s[0] == x then s[1..] else [s[0]] + Drop(s[1..], x)
  }

  lemma {:induction false} DropDistinct(s: seq<nat>, x: nat)
    requires Distinct(s)
    ensures Distinct(Drop(s, x)) && x !in Drop(s, x)
  {
    if s != [] {
      assert Distinct(s[1..]) && s[0] !in s[1..] by {
        assert forall i :: 0 <= i < |s| - 1 ==> s[1..][i] == s[i + 1];
      }
      DropDistinct(s[1..], x);
      if s[0] != x {
        assert s[0] !in Drop(s[1..], x);
      }
    }
  }

  function CountOf(counts: map<nat, nat>, pattern: nat): nat {
    if pattern in counts then counts[pattern] else 0
  }

  /** A candidate with the least pattern count. */
  lemma {:induction false} SomeLeast(candidates: seq<Row>, counts: map<nat, nat>) returns (row: Row)
    requires candidates != []
    ensures row in candidates
    ensures forall other :: other in candidates ==> CountOf(counts, row.pattern) <= CountOf(counts, other.pattern)
  {
    row := candidates[0];
    if |candidates| > 1 {
      var rest := SomeLeast(candidates[1..], counts);
      assert forall other :: other in candidates ==> other == candidates[0] || other in candidates[1..];
      if CountOf(counts, rest.pattern) < CountOf(counts, row.pattern) {
        row := rest;
      }
    }
  }

  ghost function PatternCount(rows: seq<Row>, pattern: nat): nat {
    if rows == [] then 0
    else PatternCount(rows[..|rows| - 1], pattern) + if rows[|rows| - 1].pattern == pattern then 1 else 0
  }

  lemma PartsGrow(chosen: seq<Row>, row: Row)
    requires AllPlaced(chosen) && row.part.Some?
    ensures Parts(chosen + [row]) == Parts(chosen) + {row.part.value}
    ensures Rels(chosen + [row]) == Rels(chosen) + {row.rel}
  {
    var more := chosen + [row];
    assert more[|chosen|] == row;
    assert forall i :: 0 <= i < |chosen| ==> more[i] == chosen[i];
  }

  lemma FairGrows(chosen: seq<Row>, rows: seq<Row>, row: Row)
    requires AllPlaced(chosen) && AllPlaced(rows) && Fair(chosen, rows) && row.part.Some?
    requires row.part.value in Parts(chosen) ==> Parts(rows) <= Parts(chosen)
    ensures Fair(chosen + [row], rows)
  {
    var more := chosen + [row];
    forall j | 0 <= j < |more|
      ensures FairAt(more, rows, j)
    {
      if j < |chosen| {
        assert FairAt(chosen, rows, j);
        assert more[..j] == chosen[..j];
      } else {
        assert more[..j] == chosen;
      }
    }
  }

  /** All projects wait in the queues of their years, and nothing else does. */
  ghost predicate AllQueued(rows: seq<Row>, years: seq<nat>, queues: map<nat, seq<nat>>)
    requires AllPlaced(rows)
  {
    && (forall y :: y in years ==> y in queues && Distinct(queues[y]))
    && (forall p :: p in Parts(rows) ==> p.year in years && p.project in queues[p.year])
    && (forall y, x :: y in queues && x in queues[y] ==> Part(y, x) in Parts(rows))
  }

  /** The first row stays the first. */
  ghost predicate SameFirst(before: seq<Row>, after: seq<Row>) {
    before != [] ==> after != [] && after[0] == before[0]
  }

  /** The sampler's running state. */
  class Sample {
    const rows: seq<Row>
    const years: seq<nat>
    var chosen: seq<Row>
    var seen: set<nat>
    var used: set<Part>
    var queues: map<nat, seq<nat>>
    var counts: map<nat, nat>

    /** What was chosen so far: different eligible rows, fairly spread. */
    ghost predicate Sound()
      reads this`chosen, this`seen, this`used
    {
      && AllPlaced(rows) && DistinctRels(rows)
      && AllPlaced(chosen) && DistinctRels(chosen) && (forall row :: row in chosen ==> row in rows)
      && seen == Rels(chosen) && used == Parts(chosen)
      && Fair(chosen, rows)
    }

    ghost predicate Exhausted(part: Part)
      reads this`seen
    {
      Unseen(rows, part, seen) == []
    }

    /** In this table every part with rows left waits in the queue of its year. */
    ghost predicate QueuedIn(table: map<nat, seq<nat>>)
      reads this`seen
    {
      && AllPlaced(rows)
      && (forall y :: y in years ==> y in table && Distinct(table[y]))
      && (forall p :: p in Parts(rows) ==> p.year in years)
      && (forall p :: p in Parts(rows) && p.year in table && p.project !in table[p.year] ==> Exhausted(p))
      && (forall y, x :: y in table && x in table[y] ==> Part(y, x) in Parts(rows))
    }

    ghost predicate Queued()
      reads this`queues, this`seen
    {
      QueuedIn(queues)
    }

    /** The pattern counter counts the chosen rows. */
    ghost predicate Counted()
      reads this`counts, this`chosen
    {
      forall p :: CountOf(counts, p) == PatternCount(chosen, p)
    }

    constructor (rows: seq<Row>, years: seq<nat>)
      requires AllPlaced(rows) && DistinctRels(rows)
      ensures this.rows == rows && this.years == years && chosen == [] && Sound()
    {
      this.rows, this.years := rows, years;
      chosen, seen, used, queues, counts := [], {}, {}, map[], map[];
    }

    /** Adds a row. */
    method Take(row: Row)
      requires Sound() && row in rows && row.rel !in seen
      requires row.part.value in used ==> Parts(rows) <= used
      modifies this`chosen, this`seen, this`used
      ensures Sound() && chosen == old(chosen) + [row]
      ensures seen == old(seen) + {row.rel} && used == old(used) + {row.part.value}
    {
      PartsGrow(chosen, row);
      FairGrows(chosen, rows, row);
      chosen := chosen + [row];
      seen := seen + {row.rel};
      used := used + {row.part.value};
    }

    /** The first phase: the largest files, at most one for each part. */
    method TakeLarge(large: seq<Row>, limit: nat)
      requires Sound() && chosen == [] && limit >= 1
      requires forall row :: row in large <==> row in rows
      requires forall i, j :: 0 <= i < j < |large| ==> large[i].size >= large[j].size
      modifies this`chosen, this`seen, this`used
      ensures Sound() && |chosen| <= limit
      ensures rows != [] ==> chosen != [] && forall row :: row in rows ==> row.size <= chosen[0].size
      ensures forall row :: row in rows ==> Covered(row) || (|chosen| == limit && NoLarger(row))
    {
      var i := 0;
      while i < |large|
        invariant 0 <= i <= |large| && Sound() && |chosen| <= limit
        invariant i > 0 ==> chosen != [] && chosen[0] == large[0]
        invariant i == 0 ==> chosen == []
        invariant forall k :: 0 <= k < i ==> Covered(large[k])
        invariant forall k :: i <= k < |large| ==> NoLarger(large[k])
      {
        if |chosen| >= limit {
          break;
        }
        var row := large[i];
        assert row in rows;
        if row.part.value !in used {
          SeenHasPart(row);
          TakeNext(row);
        } else {
          UsedCovers(row);
        }
        i := i + 1;
      }
      assert forall row :: row in rows ==> exists k :: 0 <= k < |large| && large[k] == row;
      if rows != [] {
        assert rows[0] in large;
        forall row | row in rows
          ensures row.size <= chosen[0].size
        {
          assert row in large;
        }
      }
    }

    /** Some chosen row of the same part is at least as large. */
    ghost predicate Covered(row: Row)
      reads this`chosen
    {
      exists j :: 0 <= j < |chosen| && chosen[j].part == row.part && chosen[j].size >= row.size
    }

    ghost predicate NoLarger(row: Row)
      reads this`chosen
    {
      forall j :: 0 <= j < |chosen| ==> row.size <= chosen[j].size
    }

    lemma UsedCovers(row: Row)
      requires Sound() && row in rows && row.part.value in used && NoLarger(row)
      ensures Covered(row)
    {
      var j :| 0 <= j < |chosen| && chosen[j].part.value == row.part.value;
      assert chosen[j].part == row.part;
    }

    /** Takes a row of a part that has none yet; what was covered stays covered. */
    method TakeNext(row: Row)
      requires Sound() && row in rows && row.rel !in seen && row.part.value !in used
      modifies this`chosen, this`seen, this`used
      ensures Sound() && chosen == old(chosen) + [row] && Covered(row)
      ensures forall other: Row :: old(Covered(other)) ==> Covered(other)
      ensures forall other: Row :: old(NoLarger(other)) && other.size <= row.size ==> NoLarger(other)
    {
      Take(row);
      assert chosen[|chosen| - 1] == row;
      forall other: Row | old(Covered(other))
        ensures Covered(other)
      {
        var j :| 0 <= j < |old(chosen)| && old(chosen)[j].part == other.part && old(chosen)[j].size >= other.size;
        assert chosen[j] == old(chosen)[j];
      }
    }

    /** A row of an unused part is not chosen yet. */
    lemma SeenHasPart(row: Row)
      requires Sound() && row in rows && row.part.value !in used
      ensures row.rel !in seen
    {
      forall i | 0 <= i < |chosen|
        ensures chosen[i].rel != row.rel
      {
        assert chosen[i].part.value in Parts(chosen);
        OneRow(chosen[i], row);
      }
    }

    /** Rows are told apart by their names. */
    lemma OneRow(a: Row, b: Row)
      requires DistinctRels(rows) && a in rows && b in rows
      ensures a.rel == b.rel <==> a == b
    {
      var i :| 0 <= i < |rows| && rows[i] == a;
      var j :| 0 <= j < |rows| && rows[j] == b;
    }

    /** The pattern counter over the rows of the first phase. */
    method CountPatterns()
      modifies this`counts
      ensures Counted()
    {
      counts := map[];
      var i := 0;
      while i < |chosen|
        invariant 0 <= i <= |chosen|
        invariant forall p :: CountOf(counts, p) == PatternCount(chosen[..i], p)
      {
        assert chosen[..i + 1][..i] == chosen[..i];
        var p := chosen[i].pattern;
        counts := counts[p := CountOf(counts, p) + 1];
        i := i + 1;
      }
      assert chosen[..i] == chosen;
    }

    /** The projects of a year that have no row yet. */
    method Fresh(year: nat) returns (r: seq<nat>)
      requires year in queues && Distinct(queues[year])
      ensures Distinct(r)
      ensures forall x :: x in r <==> x in queues[year] && Part(year, x) !in used
    {
      r := [];
      var q := queues[year];
      var i := 0;
      while i < |q|
        invariant 0 <= i <= |q| && Distinct(r)
        invariant forall x :: x in r <==> x in q[..i] && Part(year, x) !in used
      {
        assert q[..i + 1] == q[..i] + [q[i]];
        if Part(year, q[i]) !in used {
          assert q[i] !in q[..i];
          r := r + [q[i]];
        }
        i := i + 1;
      }
      assert q[..i] == q;
    }

    /** Takes the candidate with the least pattern count; ties are broken arbitrarily. */
    method TakeLeast(candidates: seq<Row>)
      requires Sound() && Counted() && candidates != []
      requires forall row :: row in candidates ==> row in rows && row.rel !in seen
      requires forall row :: row in candidates ==> (row.part.value in used ==> Parts(rows) <= used)
      modifies this`chosen, this`seen, this`used, this`counts
      ensures Sound() && Counted()
      ensures exists row :: row in candidates && chosen == old(chosen) + [row]
                            && seen == old(seen) + {row.rel} && used == old(used) + {row.part.value}
                            && forall other :: other in candidates ==>
                              old(PatternCount(chosen, row.pattern)) <= old(PatternCount(chosen, other.pattern))
    {
      ghost var least := SomeLeast(candidates, counts);
      var row :| row in candidates
                 && forall other :: other in candidates ==>
                      CountOf(counts, row.pattern) <= CountOf(counts, other.pattern);
      TakeCounted(row);
    }

    /** Takes a row and counts its pattern. */
    method TakeCounted(row: Row)
      requires Sound() && Counted() && row in rows && row.rel !in seen
      requires row.part.Some? && (row.part.value in used ==> Parts(rows) <= used)
      modifies this`chosen, this`seen, this`used, this`counts
      ensures Sound() && Counted()
      ensures chosen == old(chosen) + [row] && seen == old(seen) + {row.rel} && used == old(used) + {row.part.value}
    {
      ghost var before := chosen;
      Take(row);
      counts := counts[row.pattern := CountOf(counts, row.pattern) + 1];
      assert chosen[..|before|] == before;
    }

    /** One project's turn: it leaves the queue, gives a row if it can, and comes back if rows are left. */
    method TryProject(year: nat, project: nat) returns (took: bool)
      requires Sound() && Queued() && Counted() && year in years && year in queues && project in queues[year]
      requires Part(year, project) in used ==> Parts(rows) <= used
      modifies this`chosen, this`seen, this`used, this`queues, this`counts
      ensures Sound() && Queued() && Counted()
      ensures old(used) <= used && old(seen) <= seen && SameFirst(old(chosen), chosen)
      ensures took <==> !old(Exhausted(Part(year, project)))
      ensures took ==> |chosen| == |old(chosen)| + 1
      ensures !took ==> chosen == old(chosen) && seen == old(seen) && used == old(used)
                        && queues == old(queues)[year := Drop(old(queues)[year], project)]
    {
      var part := Part(year, project);
      ghost var table := queues;
      queues := queues[year := Drop(queues[year], project)];
      var candidates := Unseen(rows, part, seen);
      took := candidates != [];
      if took {
        TakeLeast(candidates);
        FewerUnseen(old(seen));
        assert QueuedIn(table);
      }
      Return(year, project, table);
    }

    /** The project goes back to the end of its queue if it has rows left. */
    method Return(year: nat, project: nat, ghost table: map<nat, seq<nat>>)
      requires QueuedIn(table) && year in years && year in table && project in table[year]
      requires queues == table[year := Drop(table[year], project)]
      modifies this`queues
      ensures Queued() && (Exhausted(Part(year, project)) ==> queues == old(queues))
    {
      if Unseen(rows, Part(year, project), seen) != [] {
        Requeued(table, year, project);
        queues := queues[year := queues[year] + [project]];
      } else {
        Dropped(table, year, project);
      }
    }

    /** What is exhausted stays exhausted. */
    lemma FewerUnseen(before: set<nat>)
      requires before <= seen
      ensures forall p :: Unseen(rows, p, before) == [] ==> Exhausted(p)
    {
      forall p | Unseen(rows, p, before) == []
        ensures Exhausted(p)
      {
        if Unseen(rows, p, seen) != [] {
          assert Unseen(rows, p, seen)[0] in Unseen(rows, p, before);
        }
      }
    }

    lemma Dropped(table: map<nat, seq<nat>>, year: nat, project: nat)
      requires QueuedIn(table) && year in years && year in table && project in table[year]
      requires Exhausted(Part(year, project))
      ensures QueuedIn(table[year := Drop(table[year], project)])
    {
      DropDistinct(table[year], project);
    }

    lemma Requeued(table: map<nat, seq<nat>>, year: nat, project: nat)
      requires QueuedIn(table) && year in years && year in table && project in table[year]
      ensures QueuedIn(table[year := Drop(table[year], project) + [project]])
    {
      DropDistinct(table[year], project);
    }

    /** A part without a chosen row has rows left. */
    lemma UnusedHasRows(part: Part)
      requires Sound() && part in Parts(rows) && part !in used
      ensures !Exhausted(part)
    {
      var i :| 0 <= i < |rows| && rows[i].part.value == part;
      SeenHasPart(rows[i]);
      assert rows[i] in Unseen(rows, part, seen);
    }

    /** One year's turn: the first of its projects that has a row to give gives one. */
    method TryYear(year: nat, anyFresh: bool) returns (took: bool)
      requires Sound() && Queued() && Counted() && year in years && (!anyFresh ==> Parts(rows) <= used)
      modifies this`chosen, this`seen, this`used, this`queues, this`counts
      ensures Sound() && Queued() && Counted() && old(used) <= used && SameFirst(old(chosen), chosen)
      ensures took ==> |chosen| == |old(chosen)| + 1
      ensures !took ==> chosen == old(chosen) && seen == old(seen) && used == old(used)
      ensures !took ==> forall p :: p in Parts(rows) && p.year == year && (anyFresh ==> p !in used) ==> Exhausted(p)
    {
      var options := queues[year];
      if anyFresh {
        options := Fresh(year);
      }
      took := TryEach(year, options, anyFresh);
      forall p | !took && p in Parts(rows) && p.year == year && (anyFresh ==> p !in used)
        ensures Exhausted(p)
      {
        assert p == Part(year, p.project);
      }
    }

    /** None of these projects has a row left. */
    ghost predicate AllSpent(year: nat, projects: seq<nat>)
      reads this`seen
    {
      forall project :: project in projects ==> Exhausted(Part(year, project))
    }

    lemma SpentToo(year: nat, projects: seq<nat>, project: nat)
      requires AllSpent(year, projects) && Exhausted(Part(year, project))
      ensures AllSpent(year, projects + [project])
    {
    }

    /** The loop over the projects of a year: up to the first that has a row to give. */
    method TryEach(year: nat, options: seq<nat>, anyFresh: bool) returns (took: bool)
      requires Sound() && Queued() && Counted() && year in years && (!anyFresh ==> Parts(rows) <= used)
      requires year in queues && Distinct(options) && forall k :: 0 <= k < |options| ==> options[k] in queues[year]
      requires anyFresh ==> forall k :: 0 <= k < |options| ==> Part(year, options[k]) !in used
      modifies this`chosen, this`seen, this`used, this`queues, this`counts
      ensures Sound() && Queued() && Counted() && old(used) <= used && SameFirst(old(chosen), chosen)
      ensures took ==> |chosen| == |old(chosen)| + 1
      ensures !took ==> chosen == old(chosen) && seen == old(seen) && used == old(used)
      ensures !took ==> AllSpent(year, options)
    {
      took := false;
      var i := 0;
      while i < |options|
        invariant 0 <= i <= |options| && Sound() && Queued() && Counted() && year in queues
        invariant chosen == old(chosen) && seen == old(seen) && used == old(used)
        invariant forall k :: i <= k < |options| ==> options[k] in queues[year]
        invariant AllSpent(year, options[..i])
      {
        took := TryProject(year, options[i]);
        if took {
          return;
        }
        SpentToo(year, options[..i], options[i]);
        assert options[..i + 1] == options[..i] + [options[i]];
        i := i + 1;
      }
      assert options[..i] == options;
    }

    /** Whether some project of some year has no row yet. */
    method AnyFresh() returns (r: bool)
      requires Sound() && Queued()
      ensures r ==> exists p :: p in Parts(rows) && p !in used
      ensures !r ==> forall p :: p in Parts(rows) && p !in used ==> Exhausted(p)
    {
      r := false;
      var i := 0;
      while i < |years|
        invariant 0 <= i <= |years|
        invariant forall p :: p in Parts(rows) && p !in used && p.year in years[..i] ==> Exhausted(p)
      {
        assert years[i] in years && years[..i + 1] == years[..i] + [years[i]];
        var unused := Fresh(years[i]);
        if unused != [] {
          assert Part(years[i], unused[0]) in Parts(rows);
          return true;
        }
        forall p | p in Parts(rows) && p !in used && p.year == years[i]
          ensures Exhausted(p)
        {
          assert p == Part(years[i], p.project) && p.project !in unused;
        }
        i := i + 1;
      }
      assert years[..i] == years;
    }

    /** One pass over the years. Without progress, every row was chosen. */
    method Pass(count: nat) returns (progressed: bool)
      requires Sound() && Queued() && Counted() && |chosen| < count
      modifies this`chosen, this`seen, this`used, this`queues, this`counts
      ensures Sound() && Queued() && Counted() && |chosen| <= count && SameFirst(old(chosen), chosen)
      ensures progressed ==> |chosen| > |old(chosen)|
      ensures !progressed ==> chosen == old(chosen) && forall p :: p in Parts(rows) ==> Exhausted(p)
    {
      var anyFresh := AnyFresh();
      if !anyFresh {
        AllUsed();
      }
      progressed := false;
      var i := 0;
      while i < |years|
        invariant 0 <= i <= |years| && Sound() && Queued() && Counted() && SameFirst(old(chosen), chosen)
        invariant |chosen| <= count && |chosen| >= |old(chosen)| && (progressed ==> |chosen| > |old(chosen)|)
        invariant old(used) <= used && (!anyFresh ==> Parts(rows) <= used)
        invariant !progressed ==> chosen == old(chosen) && seen == old(seen) && used == old(used)
        invariant !progressed ==>
          forall p :: p in Parts(rows) && p.year in years[..i] && (anyFresh ==> p !in used) ==> Exhausted(p)
      {
        if |chosen| >= count {
          break;
        }
        assert years[..i + 1] == years[..i] + [years[i]];
        var took := TryYear(years[i], anyFresh);
        progressed := progressed || took;
        i := i + 1;
      }
      if !progressed {
        assert years[..i] == years;
        if anyFresh {
          AllUsed();
        }
      }
    }

    lemma AllUsed()
      requires Sound() && forall p :: p in Parts(rows) && p !in used ==> Exhausted(p)
      ensures Parts(rows) <= used
    {
      forall p | p in Parts(rows)
        ensures p in used
      {
        if p !in used {
          UnusedHasRows(p);
        }
      }
    }

    /** The second phase. */
    method FillUp(count: int)
      requires Sound() && Queued() && Counted()
      modifies this`chosen, this`seen, this`used, this`queues, this`counts
      ensures Sound() && old(|chosen|) <= |chosen|
      ensures |chosen| <= count || chosen == old(chosen)
      ensures |chosen| < count ==> forall p :: p in Parts(rows) ==> Exhausted(p)
      ensures SameFirst(old(chosen), chosen)
    {
      while |chosen| < count
        invariant Sound() && Queued() && Counted() && old(|chosen|) <= |chosen| && SameFirst(old(chosen), chosen)
        invariant |chosen| <= count || chosen == old(chosen)
        decreases count - |chosen|
      {
        var progressed := Pass(count);
        if !progressed {
          break;
        }
      }
    }

    /** Both phases. */
    method Draw(large: seq<Row>, shuffled: map<nat, seq<nat>>, count: int)
      requires Sound() && chosen == [] && rows != [] && AllQueued(rows, years, shuffled)
      requires forall row :: row in large <==> row in rows
      requires forall i, j :: 0 <= i < j < |large| ==> large[i].size >= large[j].size
      modifies this
      ensures Sound() && chosen != [] && |chosen| <= (if count > 1 then count else 1)
      ensures |chosen| < count ==> forall row :: row in rows ==> row in chosen
      ensures forall row :: row in rows ==> row.size <= chosen[0].size
    {
      var limit: nat := if count / 6 > 1 then count / 6 else 1;
      TakeLarge(large, limit);
      queues := shuffled;
      CountPatterns();
      FillUp(count);
      if |chosen| < count {
        AllChosen();
      }
    }

    /** When every part is exhausted, every row was chosen. */
    lemma AllChosen()
      requires Sound() && forall p :: p in Parts(rows) ==> Exhausted(p)
      ensures forall row :: row in rows ==> row in chosen
    {
      forall row | row in rows
        ensures row in chosen
      {
        var i :| 0 <= i < |rows| && rows[i] == row;
        assert row.part.value in Parts(rows);
        assert row !in Unseen(rows, row.part.value, seen);
        var j :| 0 <= j < |chosen| && chosen[j].rel == row.rel;
        OneRow(chosen[j], row);
      }
    }
  }

  /**
   * years are the years of eligible rows, large the eligible rows by size, and queues the projects of
   * each year, shuffled.
   */
  ghost predicate Prepared(rows: seq<Row>, maxBytes: Option<int>, years: seq<nat>, large: seq<Row>,
                           queues: map<nat, seq<nat>>) {
    && (forall y: nat :: y in years <==>
      exists row :: row in rows && Eligible(row, maxBytes) && row.part.value.year == y)
    && (forall row :: row in large <==> row in rows && Eligible(row, maxBytes))
    && (forall i, j :: 0 <= i < j < |large| ==> large[i].size >= large[j].size)
    && (forall y :: y in years ==> y in queues && Distinct(queues[y]))
    && (forall y :: y in queues ==> y in years)
    && (forall y: nat, x: nat :: y in queues ==>
          (x in queues[y] <==> exists row :: row in rows && Eligible(row, maxBytes) && row.part.value == Part(y, x)))
  }

  /** The first queues hold all projects. */
  lemma StartsQueued(elig: seq<Row>, rows: seq<Row>, maxBytes: Option<int>, years: seq<nat>, large: seq<Row>,
                     queues: map<nat, seq<nat>>)
    requires Prepared(rows, maxBytes, years, large, queues) && AllPlaced(elig)
    requires forall row :: row in elig <==> row in rows && Eligible(row, maxBytes)
    ensures AllQueued(elig, years, queues)
  {
    forall p | p in Parts(elig)
      ensures p.year in years && p.project in queues[p.year]
    {
      var i :| 0 <= i < |elig| && elig[i].part.value == p;
      assert elig[i] in elig;
      assert p == Part(p.year, p.project);
    }
    forall y, x | y in queues && x in queues[y]
      ensures Part(y, x) in Parts(elig)
    {
      var row :| row in rows && Eligible(row, maxBytes) && row.part.value == Part(y, x);
      assert row in elig;
      var i :| 0 <= i < |elig| && elig[i] == row;
    }
  }

  /**
   * stratified_sample: different eligible rows, at most `count` of them but at least one if there is
   * one, the first of them a largest. Fewer than asked for means that all were taken, and a project
   * gets a second row only when every project has one. Shuffles and tie-breaks are arbitrary.
   */
  method StratifiedSample(rows: seq<Row>, count: int, maxBytes: Option<int>,
                          years: seq<nat>, large: seq<Row>, shuffled: map<nat, seq<nat>>)
    returns (r: seq<Row>, ghost elig: seq<Row>)
    requires DistinctRels(rows) && Prepared(rows, maxBytes, years, large, shuffled)
    ensures AllPlaced(elig) && forall row :: row in elig <==> row in rows && Eligible(row, maxBytes)
    ensures DistinctRels(r) && AllPlaced(r) && forall row :: row in r ==> row in elig
    ensures |r| <= (if count > 1 then count else 1) && (r == [] <==> elig == [])
    ensures count >= 0 ==> (|r| <= count <==> count > 0 || elig == [])
    ensures |r| < count ==> forall row :: row in elig ==> row in r
    ensures Fair(r, elig)
    ensures r != [] ==> forall row :: row in elig ==> row.size <= r[0].size
  {
    var eligible := EligibleRows(rows, maxBytes);
    elig := eligible;
    if years == [] {
      if eligible != [] {
        SomeYear(rows, maxBytes, years, large, shuffled, eligible);
      }
      return [], elig;
    }
    NonEmpty(rows, maxBytes, years, large, shuffled, eligible);
    StartsQueued(eligible, rows, maxBytes, years, large, shuffled);
    var s := new Sample(eligible, years);
    s.Draw(large, shuffled, count);
    r := s.chosen;
  }

  lemma SomeYear(rows: seq<Row>, maxBytes: Option<int>, years: seq<nat>, large: seq<Row>, queues: map<nat, seq<nat>>,
                 elig: seq<Row>)
    requires Prepared(rows, maxBytes, years, large, queues) && elig != []
    requires forall row :: row in elig <==> row in rows && Eligible(row, maxBytes)
    ensures years != []
  {
    assert elig[0] in elig;
    assert elig[0].part.value.year in years;
  }

  lemma NonEmpty(rows: seq<Row>, maxBytes: Option<int>, years: seq<nat>, large: seq<Row>, queues: map<nat, seq<nat>>,
                 elig: seq<Row>)
    requires Prepared(rows, maxBytes, years, large, queues) && years != []
    requires forall row :: row in elig <==> row in rows && Eligible(row, maxBytes)
    ensures elig != []
  {
    assert years[0] in years;
    var row :| row in rows && Eligible(row, maxBytes) && row.part.value.year == years[0];
    assert row in elig;
  }

  lemma OneRowPrepared(row: Row)
    requires row.part == Some(Part(2026, 1))
    ensures Eligible(row, None) && Prepared([row], None, [2026], [row], map[2026 := [1]])
  {
    assert row in [row] && Eligible(row, None);
    assert row.part.value == Part(2026, 1);
  }

  /** No row is asked for, there is one, and it is returned. */
  method NoneAskedFor() returns (row: Row, r: seq<Row>)
    ensures Eligible(row, None) && r == [row]
  {
    row := Row(0, Some(Part(2026, 1)), 5, 0);
    OneRowPrepared(row);
    ghost var elig;
    r, elig := StratifiedSample([row], 0, None, [2026], [row], map[2026 := [1]]);
    assert row in elig && r[0] in elig;
  }
}
