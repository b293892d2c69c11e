/**
  The read-only views the dashboard derives from `records`: the search
  filter, the counts by status and the guard of the details view.
 */
module Projections {
  import opened Wrappers
  import opened Records
  import opened Hydration

  /** `toLowerCase` on ASCII letters; other characters are unchanged. */
  function LowerChar(c: char): char
  {
    if 'A' <= c <= 'Z' then (c as int + 32) as char else c
  }

  function Lower(s: string): (r: string)
    ensures |r| == |s|
    ensures forall i :: 0 <= i < |s| ==> r[i] == LowerChar(s[i])
  {
    seq(|s|, i requires 0 <= i < |s| => LowerChar(s[i]))
  }

  /** `s.includes(t)`: `t` is a prefix of some suffix of `s`. */
  predicate Includes(s: string, t: string)
    ensures Includes(s, t) ==> |t| <= |s|
  {
    t <= s || (s != [] && Includes(s[1..], t))
  }

  /** `t` occurs in `s` starting at position `i`. */
  predicate OccursAt(s: string, t: string, i: int)
  {
    0 <= i && i + |t| <= |s| && s[i..i + |t|] == t
  }

  /** `Includes` means that `t` occurs in `s` at some position. */
  lemma {:induction false} IncludesIsSubstring(s: string, t: string)
    ensures Includes(s, t) <==> exists i :: OccursAt(s, t, i)
  {
    if t <= s {
      assert OccursAt(s, t, 0);
    } else if s == [] {
      assert forall i :: !OccursAt(s, t, i);
    } else {
      IncludesIsSubstring(s[1..], t);
      if exists i :: OccursAt(s, t, i) {
        var i :| OccursAt(s, t, i);
        assert i != 0;
        assert OccursAt(s[1..], t, i - 1);
      }
      if exists j :: OccursAt(s[1..], t, j) {
        var j :| OccursAt(s[1..], t, j);
        assert OccursAt(s, t, j + 1);
      }
    }
  }

  /** Every string includes the empty string. */
  lemma IncludesEmpty(s: string)
    ensures Includes(s, "")
  {
  }

  /** The search predicate of `filteredRecords`. */
  predicate Matches(r: DrugDeliveryRecord, term: string)
  {
    Includes(Lower(r.drugName), Lower(term)) || Includes(Lower(r.patientId), Lower(term))
  }

  /** `filteredRecords` */
  function FilteredRecords(records: seq<DrugDeliveryRecord>, term: string): (kept: seq<DrugDeliveryRecord>)
    ensures |kept| <= |records|
  {
    if records == [] then []
    else (if Matches(records[0], term) then [records[0]] else []) + FilteredRecords(records[1..], term)
  }

  /** `a` is `b` with some elements left out, the rest in the same order. */
  predicate IsSubsequence<T(==)>(a: seq<T>, b: seq<T>)
  {
    if a == [] then true
    else if b == [] then false
    else if a[0] == b[0] then IsSubsequence(a[1..], b[1..])
    else IsSubsequence(a, b[1..])
  }

  lemma {:induction false} SubsequenceOfTail<T>(a: seq<T>, b: seq<T>)
    requires b != [] && IsSubsequence(a, b[1..])
    ensures IsSubsequence(a, b)
    decreases |a| + |b|, 1
  {
    if a != [] && a[0] == b[0] {
      // a[0] == b[0] and a is a subsequence of b[1..]: so is a[1..]
      SubsequenceDropHead(a, b[1..]);
    }
  }

  lemma {:induction false} SubsequenceDropHead<T>(a: seq<T>, b: seq<T>)
    requires a != [] && IsSubsequence(a, b)
    ensures IsSubsequence(a[1..], b)
    decreases |a| + |b|, 0
  {
    if a[0] != b[0] {
      SubsequenceDropHead(a, b[1..]);
      SubsequenceOfTail(a[1..], b);
    } else if a[1..] != [] {
      SubsequenceOfTail(a[1..], b);
    }
  }

  /**
    The filter keeps exactly the rows whose lowercased drug name or patient
    id contains the lowercased term, in their original order, each as many
    times as it occurs in the records.
   */
  lemma {:induction false} FilteredKeepsMatches(records: seq<DrugDeliveryRecord>, term: string)
    ensures IsSubsequence(FilteredRecords(records, term), records)
    ensures forall r :: r in FilteredRecords(records, term) <==> r in records && Matches(r, term)
    ensures forall r :: multiset(FilteredRecords(records, term))[r]
                        == if Matches(r, term) then multiset(records)[r] else 0
  {
    if records != [] {
      FilteredKeepsMatches(records[1..], term);
      var rest := FilteredRecords(records[1..], term);
      var kept := FilteredRecords(records, term);
      if Matches(records[0], term) {
        assert kept == [records[0]] + rest;
        assert kept[1..] == rest;
        assert IsSubsequence(kept, records);
      } else {
        assert kept == rest;
        SubsequenceOfTail(rest, records);
      }
      assert records == [records[0]] + records[1..];
    }
  }

  /** An empty search term keeps every row. */
  lemma {:induction false} EmptyTermKeepsAll(records: seq<DrugDeliveryRecord>)
    ensures FilteredRecords(records, "") == records
  {
    if records != [] {
      EmptyTermKeepsAll(records[1..]);
      assert Lower("") == "";
      IncludesEmpty(Lower(records[0].drugName));
      assert records == [records[0]] + records[1..];
    }
  }

  /** A search for "asp" finds a row whose drug is "Aspirin". */
  lemma AspMatchesAspirin(r: DrugDeliveryRecord)
    requires r.drugName == "Aspirin"
    ensures Matches(r, "asp")
  {
  }

  /** `records.filter(r => r.status === status).length` */
  function CountStatus(records: seq<DrugDeliveryRecord>, status: string): (c: nat)
    ensures c <= |records|
  {
    if records == [] then 0
    else (if records[0].status == status then 1 else 0) + CountStatus(records[1..], status)
  }

  lemma {:induction false} CountStatusAppend(a: seq<DrugDeliveryRecord>, b: seq<DrugDeliveryRecord>, status: string)
    ensures CountStatus(a + b, status) == CountStatus(a, status) + CountStatus(b, status)
  {
    if a != [] {
      CountStatusAppend(a[1..], b, status);
      assert (a + b)[1..] == a[1..] + b;
    } else {
      assert a + b == b;
    }
  }

  /** The positions among the first `n` rows that hold `status`. */
  function PositionsWith(records: seq<DrugDeliveryRecord>, status: string, n: nat): set<nat>
    requires n <= |records|
  {
    set i: nat | i < n && records[i].status == status
  }

  /** The count is the number of positions holding that status. */
  lemma {:induction false} CountStatusIsPositions(records: seq<DrugDeliveryRecord>, status: string)
    ensures CountStatus(records, status) == |PositionsWith(records, status, |records|)|
  {
    var n := 0;
    while n < |records|
      invariant n <= |records|
      invariant CountStatus(records[..n], status) == |PositionsWith(records, status, n)|
    {
      CountStatusAppend(records[..n], [records[n]], status);
      assert records[..n + 1] == records[..n] + [records[n]];
      var before := PositionsWith(records, status, n);
      if records[n].status == status {
        assert PositionsWith(records, status, n + 1) == before + {n};
      } else {
        assert PositionsWith(records, status, n + 1) == before;
      }
      n := n + 1;
    }
    assert records[..n] == records;
  }

  /** The count is positive exactly when some row has the status. */
  lemma {:induction false} CountStatusPositive(records: seq<DrugDeliveryRecord>, status: string)
    ensures CountStatus(records, status) > 0 <==> exists r :: r in records && r.status == status
  {
    if records != [] {
      CountStatusPositive(records[1..], status);
      assert records == [records[0]] + records[1..];
    }
  }

  /** Rows of two different statuses together are at most all rows. */
  lemma {:induction false} TwoStatusesBounded(records: seq<DrugDeliveryRecord>, a: string, b: string)
    requires a != b
    ensures CountStatus(records, a) + CountStatus(records, b) <= |records|
  {
    if records != [] {
      TwoStatusesBounded(records[1..], a, b);
    }
  }

  /** `optimizedCount + pendingCount <= records.length` */
  lemma OptimizedAndPendingBounded(records: seq<DrugDeliveryRecord>)
    ensures CountStatus(records, OPTIMIZED) + CountStatus(records, PENDING) <= |records|
  {
    TwoStatusesBounded(records, OPTIMIZED, PENDING);
  }

  lemma {:induction false} InsertKeepsCount(x: DrugDeliveryRecord, s: seq<DrugDeliveryRecord>, status: string)
    ensures CountStatus(Insert(x, s), status) == CountStatus([x] + s, status)
  {
    if s != [] && x.timestamp < s[0].timestamp {
      InsertKeepsCount(x, s[1..], status);
      assert ([s[0]] + Insert(x, s[1..]))[1..] == Insert(x, s[1..]);
      assert ([x] + s[1..])[1..] == s[1..];
      assert ([x] + s)[1..] == s;
    }
  }

  /** The counts on screen do not depend on the newest-first order. */
  lemma {:induction false} SortKeepsCounts(rs: seq<DrugDeliveryRecord>, status: string)
    ensures CountStatus(SortNewestFirst(rs), status) == CountStatus(rs, status)
  {
    if rs != [] {
      SortKeepsCounts(rs[1..], status);
      InsertKeepsCount(rs[0], SortNewestFirst(rs[1..]), status);
      assert ([rs[0]] + SortNewestFirst(rs[1..]))[1..] == SortNewestFirst(rs[1..]);
    }
  }

  /**
    `viewSimulationDetails` opens the details only when the results are
    present and non-empty (a truthy string); it yields what it would parse.
   */
  function SimulationDetails(r: DrugDeliveryRecord): (d: Option<string>)
    ensures d.Some? <==> r.simulationResults.Some? && r.simulationResults.value != ""
    ensures d.Some? ==> d == r.simulationResults
  {
    match r.simulationResults
    case None => None
    case Some(s) => if s == "" then None else Some(s)
  }
}
