/** The sighting table and the part of pandas the dashboard uses on it: a
    frame is an ordered sequence of rows, and `frame.query(expr)` keeps, in
    order, the rows for which `expr` holds. */
module Frames {
  import opened Text

  /** One sighting report. Coordinates are only ever compared, so they are
      reals; `year` is the already-derived calendar year of the timestamp. */
  datatype Sighting = Sighting(
    latitude: real,
    longitude: real,
    year: int,
    classification: string,
    title: string)

  /** The row conditions the dashboard passes to `DataFrame.query`. */
  datatype Condition =
    | YearAtMost(maxYear: int)                    // "year<=..."
    | YearAtLeast(minYear: int)                   // "year>=..."
    | LongitudeWithin(west: real, east: real)     // "longitude>=... & longitude<=..."
    | LatitudeWithin(south: real, north: real)    // "latitude>=... & latitude<=..."
    | ClassificationIn(selected: set<string>)     // "classification.isin(...)"
    | TitleContains(query: string)                // "title.str.contains(...)"
    | TitleContainsIgnoringCase(query: string)    // the same test on the lower-cased title

  predicate Holds(c: Condition, s: Sighting) {
    match c
    case YearAtMost(maxYear) => s.year <= maxYear
    case YearAtLeast(minYear) => s.year >= minYear
    case LongitudeWithin(west, east) => west <= s.longitude && s.longitude <= east
    case LatitudeWithin(south, north) => south <= s.latitude && s.latitude <= north
    case ClassificationIn(selected) => s.classification in selected
    case TitleContains(query) => Contains(s.title, query)
    case TitleContainsIgnoringCase(query) => Contains(Lower(s.title), query)
  }

  /** A row satisfies a list of conditions when it satisfies each of them. */
  predicate AllHold(cs: seq<Condition>, s: Sighting) {
    forall i :: 0 <= i < |cs| ==> Holds(cs[i], s)
  }

  /** One filter by the conjunction of `cs`: keeps, in order and with their
      multiplicity, exactly the rows that satisfy every condition. */
  function Select(rows: seq<Sighting>, cs: seq<Condition>): (r: seq<Sighting>)
    ensures |r| <= |rows|
    ensures forall s :: s in r <==> s in rows && AllHold(cs, s)
  {
    if rows == [] then []
    else (if AllHold(cs, rows[0]) then [rows[0]] else []) + Select(rows[1..], cs)
  }

  lemma AllHoldSingle(c: Condition)
    ensures forall s :: AllHold([c], s) <==> Holds(c, s)
  {
    forall s ensures AllHold([c], s) <==> Holds(c, s) {
      assert [c][0] == c;
    }
  }

  /** `rows.query(expr)` for a single condition. */
  function Query(rows: seq<Sighting>, c: Condition): (r: seq<Sighting>)
    ensures forall s :: s in r <==> s in rows && Holds(c, s)
  {
    AllHoldSingle(c);
    Select(rows, [c])
  }

  /** `rows.query(cs[0]).query(cs[1])...`: the queries applied one after another. */
  function Chain(rows: seq<Sighting>, cs: seq<Condition>): (r: seq<Sighting>)
    ensures forall s :: s in r <==> s in rows && AllHold(cs, s)
    decreases |cs|
  {
    if cs == [] then rows
    else
      assert cs == [cs[0]] + cs[1..];
      assert forall s :: AllHold(cs, s) <==> Holds(cs[0], s) && AllHold(cs[1..], s);
      Chain(Query(rows, cs[0]), cs[1..])
  }

  /** `a` is obtained from `b` by deleting rows: `idx` maps every position of
      `a` to a position of `b` holding the same row, in increasing order. */
  ghost predicate Embeds(a: seq<Sighting>, b: seq<Sighting>, idx: seq<nat>) {
    && |idx| == |a|
    && (forall k :: 0 <= k < |idx| ==> idx[k] < |b| && a[k] == b[idx[k]])
    && (forall k, l :: 0 <= k < l < |idx| ==> idx[k] < idx[l])
  }

  ghost predicate IsSubsequence(a: seq<Sighting>, b: seq<Sighting>) {
    exists idx :: Embeds(a, b, idx)
  }

  lemma AllHoldAppend(a: seq<Condition>, b: seq<Condition>, s: Sighting)
    ensures AllHold(a + b, s) <==> AllHold(a, s) && AllHold(b, s)
  {
    if AllHold(a, s) && AllHold(b, s) {
      forall i | 0 <= i < |a + b| ensures Holds((a + b)[i], s) {
        if i < |a| { assert (a + b)[i] == a[i]; } else { assert (a + b)[i] == b[i - |a|]; }
      }
    }
    if AllHold(a + b, s) {
      forall i | 0 <= i < |a| ensures Holds(a[i], s) {
        assert (a + b)[i] == a[i];
      }
    }
    if AllHold(a + b, s) {
      forall i | 0 <= i < |b| ensures Holds(b[i], s) {
        assert (a + b)[|a| + i] == b[i];
      }
    }
  }

  /** Dropping the first row of `b` from view: positions in `b[1..]` become
      positions in `b`. */
  lemma EmbedsInTail(a: seq<Sighting>, b: seq<Sighting>, idx: seq<nat>) returns (shifted: seq<nat>)
    requires b != [] && Embeds(a, b[1..], idx)
    ensures Embeds(a, b, shifted)
    ensures forall k :: 0 <= k < |shifted| ==> shifted[k] > 0
  {
    shifted := seq(|idx|, k requires 0 <= k < |idx| => idx[k] + 1);
    forall k | 0 <= k < |shifted| ensures a[k] == b[shifted[k]] {
      assert a[k] == b[1..][idx[k]];
    }
  }

  /** Keeping the first row of `b` as well. */
  lemma EmbedsHead(a: seq<Sighting>, b: seq<Sighting>, idx: seq<nat>)
    requires b != [] && Embeds(a, b, idx)
    requires forall k :: 0 <= k < |idx| ==> idx[k] > 0
    ensures Embeds([b[0]] + a, b, [0] + idx)
  {
  }

  /** The rows a filter keeps, listed by their positions in the input. */
  lemma {:induction false} SelectEmbedding(rows: seq<Sighting>, cs: seq<Condition>) returns (idx: seq<nat>)
    ensures Embeds(Select(rows, cs), rows, idx)
  {
    if rows == [] {
      idx := [];
    } else {
      var rest := Select(rows[1..], cs);
      var tail := SelectEmbedding(rows[1..], cs);
      var shifted := EmbedsInTail(rest, rows, tail);
      if AllHold(cs, rows[0]) {
        assert Select(rows, cs) == [rows[0]] + rest;
        EmbedsHead(rest, rows, shifted);
        idx := [0] + shifted;
      } else {
        assert Select(rows, cs) == rest;
        idx := shifted;
      }
    }
  }

  /** A filter neither adds nor alters rows, and keeps their relative order. */
  lemma SelectIsSubsequence(rows: seq<Sighting>, cs: seq<Condition>)
    ensures IsSubsequence(Select(rows, cs), rows)
  {
    var idx := SelectEmbedding(rows, cs);
  }

  /** A filter keeps every copy of a matching row and no copy of any other. */
  lemma {:induction false} SelectCount(rows: seq<Sighting>, cs: seq<Condition>, s: Sighting)
    ensures multiset(Select(rows, cs))[s] == if AllHold(cs, s) then multiset(rows)[s] else 0
  {
    if rows != [] {
      SelectCount(rows[1..], cs, s);
      assert rows == [rows[0]] + rows[1..];
    }
  }

  /** Filtering by conditions that every row satisfies changes nothing. */
  lemma {:induction false} SelectKeepsAll(rows: seq<Sighting>, cs: seq<Condition>)
    requires forall s :: s in rows ==> AllHold(cs, s)
    ensures Select(rows, cs) == rows
  {
    if rows != [] {
      SelectKeepsAll(rows[1..], cs);
    }
  }

  /** Filtering by conditions that no row satisfies leaves nothing. */
  lemma {:induction false} SelectKeepsNone(rows: seq<Sighting>, cs: seq<Condition>)
    requires forall s :: s in rows ==> !AllHold(cs, s)
    ensures Select(rows, cs) == []
  {
    if rows != [] {
      SelectKeepsNone(rows[1..], cs);
    }
  }

  /** Filters that agree on every row of the input give the same result. */
  lemma {:induction false} SelectCongruent(rows: seq<Sighting>, a: seq<Condition>, b: seq<Condition>)
    requires forall s :: s in rows ==> (AllHold(a, s) <==> AllHold(b, s))
    ensures Select(rows, a) == Select(rows, b)
  {
    if rows != [] {
      SelectCongruent(rows[1..], a, b);
    }
  }

  /** Filtering a concatenation filters each part. */
  lemma {:induction false} SelectAppend(p: seq<Sighting>, q: seq<Sighting>, cs: seq<Condition>)
    ensures Select(p + q, cs) == Select(p, cs) + Select(q, cs)
  {
    if p == [] {
      assert p + q == q;
    } else {
      var head := if AllHold(cs, p[0]) then [p[0]] else [];
      assert (p + q)[0] == p[0] && (p + q)[1..] == p[1..] + q;
      assert Select(p + q, cs) == head + Select(p[1..] + q, cs);
      SelectAppend(p[1..], q, cs);
      assert Select(p, cs) == head + Select(p[1..], cs);
    }
  }

  /** Filtering by `a` and then by `b` is one filter by `a + b`. */
  lemma {:induction false} SelectFusion(rows: seq<Sighting>, a: seq<Condition>, b: seq<Condition>)
    ensures Select(Select(rows, a), b) == Select(rows, a + b)
  {
    if rows != [] {
      var x := rows[0];
      var head := if AllHold(a, x) then [x] else [];
      assert Select(rows, a) == head + Select(rows[1..], a);
      SelectAppend(head, Select(rows[1..], a), b);
      SelectFusion(rows[1..], a, b);
      AllHoldAppend(a, b, x);
      assert Select(head, b) == if AllHold(a + b, x) then [x] else [];
    }
  }

  /** A chain of queries is one filter by the conjunction of all of them. */
  lemma {:induction false} ChainIsSelect(rows: seq<Sighting>, cs: seq<Condition>)
    ensures Chain(rows, cs) == Select(rows, cs)
    decreases |cs|
  {
    if cs == [] {
      SelectKeepsAll(rows, cs);
    } else {
      ChainIsSelect(Query(rows, cs[0]), cs[1..]);
      SelectFusion(rows, [cs[0]], cs[1..]);
      assert [cs[0]] + cs[1..] == cs;
    }
  }

  /** Applying the same filter twice is the same as applying it once. */
  lemma SelectIdempotent(rows: seq<Sighting>, cs: seq<Condition>)
    ensures Select(Select(rows, cs), cs) == Select(rows, cs)
  {
    SelectKeepsAll(Select(rows, cs), cs);
  }

  /** The order in which two filters are applied does not matter. */
  lemma SelectCommutes(rows: seq<Sighting>, a: seq<Condition>, b: seq<Condition>)
    ensures Select(Select(rows, a), b) == Select(Select(rows, b), a)
  {
    SelectFusion(rows, a, b);
    SelectFusion(rows, b, a);
    forall s | s in rows ensures AllHold(a + b, s) <==> AllHold(b + a, s) {
      AllHoldAppend(a, b, s);
      AllHoldAppend(b, a, s);
    }
    SelectCongruent(rows, a + b, b + a);
  }
}
