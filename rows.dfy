/**
 * Query results as the handlers see them: each rows.Next yields a scanned
 * record or a failed Scan, and iteration may end in an error. Also the
 * two-level map that a row loop fills with m[outer][inner] = value.
 */
module Rows {

  datatype Scanned<T> = Scanned(value: T) | ScanFailed

  /** A query that failed outright, or the rows it returned and whether rows.Err() was set. */
  datatype Query<T> = QueryFailed | Rows(results: seq<Scanned<T>>, iterationError: bool)

  predicate AnyScanFailed<T>(results: seq<Scanned<T>>)
  {
    exists k :: 0 <= k < |results| && results[k].ScanFailed?
  }

  /** The records scanned before the first failed Scan. */
  function ScannedPrefix<T>(results: seq<Scanned<T>>): (values: seq<T>)
    ensures |values| <= |results|
    ensures forall k :: 0 <= k < |values| ==> results[k] == Scanned(values[k])
    ensures |values| < |results| ==> results[|values|].ScanFailed?
  {
    if results == [] || results[0].ScanFailed? then [] else [results[0].value] + ScannedPrefix(results[1..])
  }

  /** With no failed Scan every record is scanned. */
  lemma {:induction false} AllScanned<T>(results: seq<Scanned<T>>)
    requires !AnyScanFailed(results)
    ensures |ScannedPrefix(results)| == |results|
  {
    if results != [] {
      assert !AnyScanFailed(results[1..]) by {
        forall k | 0 <= k < |results[1..]| ensures !results[1..][k].ScanFailed? {
          assert results[1..][k] == results[k + 1];
        }
      }
      AllScanned(results[1..]);
    }
  }

  /** One row of a two-level grouping: m[outer][inner] = value. */
  datatype Entry<A, B, V> = Entry(outer: A, inner: B, value: V)

  /** The map after applying the entries in order, creating each inner map on first use. */
  function Nest<A, B, V>(entries: seq<Entry<A, B, V>>): map<A, map<B, V>>
  {
    if entries == [] then map[]
    else
      var prev := Nest(entries[..|entries| - 1]);
      var e := entries[|entries| - 1];
      var inner := if e.outer in prev then prev[e.outer] else map[];
      prev[e.outer := inner[e.inner := e.value]]
  }

  /** An outer key is present exactly when some entry names it. */
  lemma {:induction false} NestOuterKeys<A, B, V>(entries: seq<Entry<A, B, V>>, a: A)
    ensures a in Nest(entries) <==> exists i :: 0 <= i < |entries| && entries[i].outer == a
  {
    if entries != [] {
      var init := entries[..|entries| - 1];
      NestOuterKeys(init, a);
      if a in Nest(init) {
        var i :| 0 <= i < |init| && init[i].outer == a;
        assert entries[i].outer == a;
      }
      if exists i :: 0 <= i < |entries| && entries[i].outer == a {
        var i :| 0 <= i < |entries| && entries[i].outer == a;
        if i < |init| {
          assert init[i].outer == a;
        }
      }
    }
  }

  /** An (outer, inner) pair is present exactly when some entry names it. */
  lemma {:induction false} NestInnerKeys<A, B, V>(entries: seq<Entry<A, B, V>>, a: A, b: B)
    ensures a in Nest(entries) && b in Nest(entries)[a] <==>
            exists i :: 0 <= i < |entries| && entries[i].outer == a && entries[i].inner == b
  {
    if entries != [] {
      var init := entries[..|entries| - 1];
      NestInnerKeys(init, a, b);
      if a in Nest(init) && b in Nest(init)[a] {
        var i :| 0 <= i < |init| && init[i].outer == a && init[i].inner == b;
        assert entries[i] == init[i];
      }
      if exists i :: 0 <= i < |entries| && entries[i].outer == a && entries[i].inner == b {
        var i :| 0 <= i < |entries| && entries[i].outer == a && entries[i].inner == b;
        if i < |init| {
          assert init[i] == entries[i];
        }
      }
    }
  }

  /** The value recorded for a pair is the one of the last entry naming it. */
  lemma {:induction false} NestLastWins<A, B, V>(entries: seq<Entry<A, B, V>>, i: nat)
    requires i < |entries|
    requires forall j :: i < j < |entries| ==> entries[j].outer != entries[i].outer || entries[j].inner != entries[i].inner
    ensures entries[i].outer in Nest(entries) && entries[i].inner in Nest(entries)[entries[i].outer]
    ensures Nest(entries)[entries[i].outer][entries[i].inner] == entries[i].value
  {
    if i < |entries| - 1 {
      var init := entries[..|entries| - 1];
      assert init[i] == entries[i];
      NestLastWins(init, i);
    }
  }

  /** Applying one more entry: the step a row loop takes. */
  lemma NestStep<A, B, V>(entries: seq<Entry<A, B, V>>, e: Entry<A, B, V>)
    ensures Nest(entries + [e]) ==
      var prev := Nest(entries);
      prev[e.outer := (if e.outer in prev then prev[e.outer] else map[])[e.inner := e.value]]
  {
    assert (entries + [e])[..|entries|] == entries;
  }
}
