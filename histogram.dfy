/**
  The per-drug histogram of `renderBarChart`: a count per drug name, the
  names in the order they were first met (the order `Object.keys` gives),
  and `maxCount`, the largest count but never less than 1.
 */
module DrugHistogram {
  import opened Records

  datatype Histogram = Histogram(drugs: seq<string>, counts: map<string, nat>)

  /** One step of the `forEach`: count one more row for drug `d`. */
  function Add(h: Histogram, d: string): Histogram
  {
    if d in h.counts then Histogram(h.drugs, h.counts[d := h.counts[d] + 1])
    else Histogram(h.drugs + [d], h.counts[d := 1])
  }

  /** The dictionary `drugCounts` after the `forEach` over `records`. */
  function Tally(records: seq<DrugDeliveryRecord>): (h: Histogram)
    ensures |h.drugs| <= |records|
  {
    if records == [] then Histogram([], map[])
    else Add(Tally(records[..|records| - 1]), records[|records| - 1].drugName)
  }

  /** How many rows name drug `d`. */
  function Occurrences(records: seq<DrugDeliveryRecord>, d: string): nat
  {
    if records == [] then 0
    else Occurrences(records[..|records| - 1], d) + (if records[|records| - 1].drugName == d then 1 else 0)
  }

  predicate Distinct(drugs: seq<string>)
  {
    forall i, j :: 0 <= i < j < |drugs| ==> drugs[i] != drugs[j]
  }

  /**
    The histogram lists each drug of `records` once, and only those, with
    its number of rows as its count.
   */
  lemma {:induction false} TallyCounts(records: seq<DrugDeliveryRecord>)
    ensures var h := Tally(records);
      && Distinct(h.drugs)
      && (forall d :: d in h.drugs <==> d in h.counts)
      && (forall d :: d in h.counts <==> Occurrences(records, d) > 0)
      && (forall d :: d in h.counts ==> h.counts[d] == Occurrences(records, d))
  {
    if records != [] {
      TallyCounts(records[..|records| - 1]);
    }
  }

  /** Every drug of the rows has a bar of height at least 1; no other drug has one. */
  lemma DrugsOfRecords(records: seq<DrugDeliveryRecord>)
    ensures var h := Tally(records);
      && (forall r :: r in records ==> r.drugName in h.counts && h.counts[r.drugName] >= 1)
      && (forall d :: d in h.counts ==> exists r :: r in records && r.drugName == d)
  {
  }

  /** The sum of the counts of `drugs`. */
  function SumCounts(drugs: seq<string>, counts: map<string, nat>): nat
    requires forall d :: d in drugs ==> d in counts
  {
    if drugs == [] then 0
    else SumCounts(drugs[..|drugs| - 1], counts) + counts[drugs[|drugs| - 1]]
  }

  lemma {:induction false} SumIgnoresOthers(drugs: seq<string>, counts: map<string, nat>, d: string, v: nat)
    requires forall x :: x in drugs ==> x in counts
    requires d !in drugs
    ensures SumCounts(drugs, counts[d := v]) == SumCounts(drugs, counts)
  {
    if drugs != [] {
      SumIgnoresOthers(drugs[..|drugs| - 1], counts, d, v);
    }
  }

  lemma {:induction false} SumBump(drugs: seq<string>, counts: map<string, nat>, d: string)
    requires forall x :: x in drugs ==> x in counts
    requires Distinct(drugs) && d in drugs
    ensures SumCounts(drugs, counts[d := counts[d] + 1]) == SumCounts(drugs, counts) + 1
  {
    var init, last := drugs[..|drugs| - 1], drugs[|drugs| - 1];
    if last == d {
      assert d !in init;
      SumIgnoresOthers(init, counts, d, counts[d] + 1);
    } else {
      assert drugs == init + [last];
      SumBump(init, counts, d);
    }
  }

  /** The bar heights add up to the number of rows. */
  lemma {:induction false} TallySumsToLength(records: seq<DrugDeliveryRecord>)
    ensures forall d :: d in Tally(records).drugs ==> d in Tally(records).counts
    ensures SumCounts(Tally(records).drugs, Tally(records).counts) == |records|
  {
    TallyCounts(records);
    if records != [] {
      var init := records[..|records| - 1];
      TallySumsToLength(init);
      TallyStep(init, records[|records| - 1].drugName);
    }
  }

  /** One step of the `forEach` adds one to the sum of the counts. */
  lemma TallyStep(init: seq<DrugDeliveryRecord>, d: string)
    requires forall x :: x in Tally(init).drugs ==> x in Tally(init).counts
    ensures var h := Tally(init); var h' := Add(h, d);
      && (forall x :: x in h'.drugs ==> x in h'.counts)
      && SumCounts(h'.drugs, h'.counts) == SumCounts(h.drugs, h.counts) + 1
  {
    var h := Tally(init);
    TallyCounts(init);
    if d in h.counts {
      SumBump(h.drugs, h.counts, d);
    } else {
      SumIgnoresOthers(h.drugs, h.counts, d, 1);
      assert (h.drugs + [d])[..|h.drugs|] == h.drugs;
    }
  }

  /** `Math.max(...Object.values(drugCounts), 1)` */
  function MaxCount(drugs: seq<string>, counts: map<string, nat>): (m: nat)
    requires forall d :: d in drugs ==> d in counts
    ensures m >= 1
  {
    if drugs == [] then 1
    else
      var m := MaxCount(drugs[..|drugs| - 1], counts);
      var c := counts[drugs[|drugs| - 1]];
      if c > m then c else m
  }

  /**
    `maxCount` is at least 1 and at least every count; it is 1 for no rows
    and, when there are rows, the count of some drug.
   */
  lemma {:induction false} MaxCountIsLargest(drugs: seq<string>, counts: map<string, nat>)
    requires forall d :: d in drugs ==> d in counts
    requires forall d :: d in drugs ==> counts[d] >= 1
    ensures MaxCount(drugs, counts) >= 1
    ensures forall d :: d in drugs ==> counts[d] <= MaxCount(drugs, counts)
    ensures drugs != [] ==> exists d :: d in drugs && counts[d] == MaxCount(drugs, counts)
  {
    if drugs != [] {
      var init := drugs[..|drugs| - 1];
      MaxCountIsLargest(init, counts);
      assert drugs == init + [drugs[|drugs| - 1]];
      if init == [] {
        assert drugs == [drugs[0]];
      }
    }
  }

  /** The scale of the chart: 1 for no rows, else the tallest bar. */
  lemma HistogramMaxCount(records: seq<DrugDeliveryRecord>)
    ensures forall d :: d in Tally(records).drugs ==> d in Tally(records).counts
    ensures var h := Tally(records); var m := MaxCount(h.drugs, h.counts);
      && m >= 1
      && (records == [] ==> m == 1 && h.counts == map[])
      && (forall d :: d in h.counts ==> h.counts[d] <= m)
      && (records != [] ==> exists d :: d in h.counts && h.counts[d] == m)
  {
    var h := Tally(records);
    TallyCounts(records);
    DrugsOfRecords(records);
    MaxCountIsLargest(h.drugs, h.counts);
    if records != [] {
      assert records[0].drugName in h.drugs;
    }
  }

  /** The counting part of `renderBarChart`. */
  method RenderBarChartCounts(records: seq<DrugDeliveryRecord>)
    returns (drugs: seq<string>, drugCounts: map<string, nat>, maxCount: nat)
    ensures Histogram(drugs, drugCounts) == Tally(records)
    ensures forall d :: d in drugs ==> d in drugCounts
    ensures maxCount == MaxCount(drugs, drugCounts)
  {
    drugs, drugCounts := [], map[];
    var i := 0;
    while i < |records|
      invariant 0 <= i <= |records|
      invariant Histogram(drugs, drugCounts) == Tally(records[..i])
    {
      var d := records[i].drugName;
      assert Tally(records[..i + 1]) == Add(Tally(records[..i]), d) by {
        assert records[..i + 1][..i] == records[..i];
      }
      if d in drugCounts {
        drugCounts := drugCounts[d := drugCounts[d] + 1];
      } else {
        drugCounts := drugCounts[d := 1];
        drugs := drugs + [d];
      }
      i := i + 1;
    }
    assert records[..i] == records;
    TallyCounts(records);
    maxCount := 1;
    var j := 0;
    while j < |drugs|
      invariant 0 <= j <= |drugs|
      invariant maxCount == MaxCount(drugs[..j], drugCounts)
    {
      if drugCounts[drugs[j]] > maxCount {
        maxCount := drugCounts[drugs[j]];
      }
      assert drugs[..j + 1][..j] == drugs[..j];
      j := j + 1;
    }
    assert drugs[..j] == drugs;
  }

  // The dictionary as the source creates it: `{}` inherits Object.prototype.

  /** A value held in a dictionary slot: a count, or NaN after `++` on a non-number. */
  datatype Num = Count(n: int) | NaN

  /** The property names every plain object `{}` inherits from Object.prototype. */
  const INHERITED: set<string> := {
    "constructor", "hasOwnProperty", "isPrototypeOf", "propertyIsEnumerable",
    "toLocaleString", "toString", "valueOf", "__proto__",
    "__defineGetter__", "__defineSetter__", "__lookupGetter__", "__lookupSetter__"}

  /** `drugCounts` as a plain object: its own keys in insertion order and their values. */
  datatype PlainTally = PlainTally(keys: seq<string>, own: map<string, Num>)

  /** `drugCounts[d]` is truthy: a non-zero own count, or an inherited function. */
  predicate Truthy(t: PlainTally, d: string)
  {
    if d in t.own then t.own[d].Count? && t.own[d].n != 0 else d in INHERITED
  }

  function Increment(v: Num): Num
  {
    match v
    case Count(n) => Count(n + 1)
    case NaN => NaN
  }

  /**
    One step of the `forEach` on a plain object: `++` on an inherited
    function stores NaN as a new own key, except that assigning a number to
    `__proto__` is ignored; a NaN slot is falsy and is reset to 1.
   */
  function PlainStep(t: PlainTally, d: string): (r: PlainTally)
    ensures |t.keys| <= |r.keys| && r.keys[..|t.keys|] == t.keys
    ensures forall x :: x in r.keys && x !in t.keys ==> x == d
    ensures forall x :: x in t.own && x != d ==> x in r.own && r.own[x] == t.own[x]
    ensures (forall x :: x in t.keys ==> x in t.own) ==> forall x :: x in r.keys ==> x in r.own
  {
    if Truthy(t, d) then
      if d in t.own then PlainTally(t.keys, t.own[d := Increment(t.own[d])])
      else if d == "__proto__" then t
      else PlainTally(t.keys + [d], t.own[d := NaN])
    else if d in t.own then PlainTally(t.keys, t.own[d := Count(1)])
    else PlainTally(t.keys + [d], t.own[d := Count(1)])
  }

  /** `drugCounts` after the `forEach`, as written. */
  function PlainTallyOf(records: seq<DrugDeliveryRecord>): (t: PlainTally)
    ensures forall d :: d in t.keys ==> d in t.own
    ensures forall d :: d in t.keys ==> exists r :: r in records && r.drugName == d
  {
    if records == [] then PlainTally([], map[])
    else PlainStep(PlainTallyOf(records[..|records| - 1]), records[|records| - 1].drugName)
  }

  /** `Math.max(...Object.values(drugCounts), 1)`, where one NaN makes the result NaN. */
  function PlainMaxCount(keys: seq<string>, own: map<string, Num>): (m: Num)
    requires forall d :: d in keys ==> d in own
    ensures m.Count? ==> m.n >= 1 && forall d :: d in keys ==> own[d].Count? && own[d].n <= m.n
  {
    if keys == [] then Count(1)
    else
      var m := PlainMaxCount(keys[..|keys| - 1], own);
      var c := own[keys[|keys| - 1]];
      if m.NaN? || c.NaN? then NaN
      else if c.n > m.n then c else m
  }

  /** The histogram with every count written as a JavaScript number. */
  function AsPlain(h: Histogram): PlainTally
  {
    PlainTally(h.drugs, map d | d in h.counts :: Count(h.counts[d]))
  }

  /** On a name that is not inherited, a plain-object step counts like `Add`. */
  lemma PlainStepAgrees(h: Histogram, d: string)
    requires d !in INHERITED
    requires forall x :: x in h.counts ==> h.counts[x] >= 1
    ensures PlainStep(AsPlain(h), d) == AsPlain(Add(h, d))
  {
  }

  /** When no drug name is an inherited property, the plain object counts correctly. */
  lemma {:induction false} PlainTallyAgrees(records: seq<DrugDeliveryRecord>)
    requires forall r :: r in records ==> r.drugName !in INHERITED
    ensures PlainTallyOf(records) == AsPlain(Tally(records))
  {
    if records != [] {
      var init := records[..|records| - 1];
      var last := records[|records| - 1];
      assert forall r :: r in init ==> r in records;
      PlainTallyAgrees(init);
      TallyCounts(init);
      PlainStepAgrees(Tally(init), last.drugName);
    }
  }

  /** Finding: a single row for the drug "toString" gets a NaN count and a NaN scale. */
  lemma ToStringDrugBreaksChart(r: DrugDeliveryRecord)
    requires r.drugName == "toString"
    ensures PlainTallyOf([r]) == PlainTally(["toString"], map["toString" := NaN])
    ensures PlainMaxCount(PlainTallyOf([r]).keys, PlainTallyOf([r]).own) == NaN
    ensures Tally([r]) == Histogram(["toString"], map["toString" := 1])
    ensures MaxCount(Tally([r]).drugs, Tally([r]).counts) == 1
  {
  }

  /** Finding: a row for the drug "__proto__" gets no bar at all. */
  lemma ProtoDrugVanishes(r: DrugDeliveryRecord)
    requires r.drugName == "__proto__"
    ensures PlainTallyOf([r]).keys == []
    ensures Tally([r]).drugs == ["__proto__"]
  {
  }
}
