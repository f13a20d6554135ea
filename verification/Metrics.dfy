/** Histograms by label set and their text (observability/metrics.py). */
module Metrics {
  import opened MetricLabels

  type LabelKey = seq<(string, string)>

  // ----- what a histogram stands for -----

  /** The first bucket whose bound is not below the value; one past the last for +Inf. */
  function Slot(buckets: seq<real>, value: real): (i: nat)
    ensures i <= |buckets|
    ensures i < |buckets| ==> value <= buckets[i]
    ensures forall k :: 0 <= k < i ==> buckets[k] < value
  {
    if |buckets| == 0 || value <= buckets[0] then 0 else 1 + Slot(buckets[1..], value)
  }

  /** How many values fall into one slot. */
  function CountSlot(buckets: seq<real>, values: seq<real>, i: nat): nat {
    if |values| == 0 then 0
    else
      CountSlot(buckets, values[..|values| - 1], i) + if Slot(buckets, values[|values| - 1]) == i then 1 else 0
  }

  function CountAtMost(values: seq<real>, bound: real): nat {
    if |values| == 0 then 0
    else CountAtMost(values[..|values| - 1], bound) + if values[|values| - 1] <= bound then 1 else 0
  }

  function Sum(values: seq<real>): real {
    if |values| == 0 then 0.0 else Sum(values[..|values| - 1]) + values[|values| - 1]
  }

  /** The values observed under one label set, in order. */
  function ValuesFor<K(==)>(log: seq<(K, real)>, key: K): seq<real> {
    if |log| == 0 then []
    else
      ValuesFor(log[..|log| - 1], key) + if log[|log| - 1].0 == key then [log[|log| - 1].1] else []
  }

  function Total(counts: seq<nat>): nat {
    if |counts| == 0 then 0 else Total(counts[..|counts| - 1]) + counts[|counts| - 1]
  }

  ghost predicate Ascending(buckets: seq<real>) {
    forall i, j :: 0 <= i <= j < |buckets| ==> buckets[i] <= buckets[j]
  }

  function SlotCounts(buckets: seq<real>, values: seq<real>): (r: seq<nat>)
    ensures |r| == |buckets| + 1
    ensures forall i :: 0 <= i < |r| ==> r[i] == CountSlot(buckets, values, i)
  {
    seq(|buckets| + 1, i requires 0 <= i => CountSlot(buckets, values, i))
  }

  lemma {:induction false} SlotAtMost(buckets: seq<real>, value: real, i: nat)
    requires Ascending(buckets) && i < |buckets|
    ensures value <= buckets[i] <==> Slot(buckets, value) <= i
  {
    var slot := Slot(buckets, value);
    if slot <= i {
      assert value <= buckets[slot] <= buckets[i];
    }
  }

  /** One more value raises the prefix totals from its slot on. */
  lemma {:induction false} TotalSnoc(buckets: seq<real>, values: seq<real>, value: real, n: nat)
    requires n <= |buckets| + 1
    ensures Total(SlotCounts(buckets, values + [value])[..n])
         == Total(SlotCounts(buckets, values)[..n]) + if Slot(buckets, value) < n then 1 else 0
  {
    var a, b := SlotCounts(buckets, values), SlotCounts(buckets, values + [value]);
    if n > 0 {
      TotalSnoc(buckets, values, value, n - 1);
      assert a[..n][..n - 1] == a[..n - 1] && b[..n][..n - 1] == b[..n - 1];
      assert (values + [value])[..|values|] == values;
    }
  }

  lemma {:induction false} TotalNone(buckets: seq<real>, n: nat)
    requires n <= |buckets| + 1
    ensures Total(SlotCounts(buckets, [])[..n]) == 0
  {
    var a := SlotCounts(buckets, []);
    if n > 0 {
      TotalNone(buckets, n - 1);
      assert a[..n][..n - 1] == a[..n - 1];
    }
  }

  lemma {:induction false} CumulativeAt(buckets: seq<real>, values: seq<real>, i: nat)
    requires Ascending(buckets) && i < |buckets|
    ensures Total(SlotCounts(buckets, values)[..i + 1]) == CountAtMost(values, buckets[i])
  {
    if |values| == 0 {
      TotalNone(buckets, i + 1);
    } else {
      var before, last := values[..|values| - 1], values[|values| - 1];
      assert values == before + [last];
      CumulativeAt(buckets, before, i);
      TotalSnoc(buckets, before, last, i + 1);
      SlotAtMost(buckets, last, i);
    }
  }

  lemma {:induction false} CumulativeAll(buckets: seq<real>, values: seq<real>)
    ensures Total(SlotCounts(buckets, values)[..|buckets| + 1]) == |values|
  {
    if |values| == 0 {
      TotalNone(buckets, |buckets| + 1);
    } else {
      var before, last := values[..|values| - 1], values[|values| - 1];
      assert values == before + [last];
      CumulativeAll(buckets, before);
      TotalSnoc(buckets, before, last, |buckets| + 1);
    }
  }

  /** Summing the slots up to a bound counts the values at most that bound; all slots count all values. */
  lemma {:induction false} CumulativeCounts(buckets: seq<real>, values: seq<real>)
    requires Ascending(buckets)
    ensures forall i :: 0 <= i < |buckets| ==>
      Total(SlotCounts(buckets, values)[..i + 1]) == CountAtMost(values, buckets[i])
    ensures Total(SlotCounts(buckets, values)) == |values|
  {
    var all := SlotCounts(buckets, values);
    assert all[..|buckets| + 1] == all;
    CumulativeAll(buckets, values);
    forall i | 0 <= i < |buckets|
      ensures Total(all[..i + 1]) == CountAtMost(values, buckets[i])
    {
      CumulativeAt(buckets, values, i);
    }
  }

  /** A larger bound counts at least as many, and no bound counts more than there are. */
  lemma {:induction false} AtMostMonotone(values: seq<real>, a: real, b: real)
    requires a <= b
    ensures CountAtMost(values, a) <= CountAtMost(values, b) <= |values|
  {
    if |values| != 0 {
      AtMostMonotone(values[..|values| - 1], a, b);
    }
  }

  /** The three dictionaries of a histogram. */
  datatype Summary<K> = Summary(bucketCounts: map<K, seq<nat>>, sums: map<K, real>, counts: map<K, nat>)

  /** They hold what the observed values of one label set come to. */
  ghost predicate Summarised<K>(buckets: seq<real>, m: Summary<K>, values: seq<real>, key: K) {
    if values == [] then key !in m.bucketCounts && key !in m.sums && key !in m.counts
    else
      && key in m.bucketCounts && m.bucketCounts[key] == SlotCounts(buckets, values)
      && key in m.sums && m.sums[key] == Sum(values)
      && key in m.counts && m.counts[key] == |values|
  }

  ghost predicate AllSummarised<K(!new)>(buckets: seq<real>, m: Summary<K>, log: seq<(K, real)>) {
    forall key :: Summarised(buckets, m, ValuesFor(log, key), key)
  }

  // ----- the histogram -----

  function SlotsOf<K>(buckets: seq<real>, m: Summary<K>, key: K): seq<nat> {
    if key in m.bucketCounts then m.bucketCounts[key] else seq(|buckets| + 1, _ => 0)
  }

  function SumOf<K>(m: Summary<K>, key: K): real {
    if key in m.sums then m.sums[key] else 0.0
  }

  function CountOf<K>(m: Summary<K>, key: K): nat {
    if key in m.counts then m.counts[key] else 0
  }

  lemma {:induction false} SlotsSummarise<K>(buckets: seq<real>, m: Summary<K>, values: seq<real>, key: K)
    requires Summarised(buckets, m, values, key)
    ensures SlotsOf(buckets, m, key) == SlotCounts(buckets, values)
    ensures SumOf(m, key) == Sum(values) && CountOf(m, key) == |values|
  {
  }

  lemma {:induction false} SlotCountsSnoc(buckets: seq<real>, values: seq<real>, value: real)
    ensures var slots := SlotCounts(buckets, values);
      SlotCounts(buckets, values + [value]) == slots[Slot(buckets, value) := slots[Slot(buckets, value)] + 1]
  {
    assert (values + [value])[..|values|] == values;
  }

  lemma {:induction false} ValuesForSnoc<K>(log: seq<(K, real)>, key: K, value: real, other: K)
    ensures ValuesFor(log + [(key, value)], other) ==
      if key == other then ValuesFor(log, other) + [value] else ValuesFor(log, other)
  {
    assert (log + [(key, value)])[..|log|] == log;
  }

  /** Entering new values under one key. */
  function Entered<K>(m: Summary<K>, key: K, slots: seq<nat>, sum: real, count: nat): Summary<K> {
    Summary(m.bucketCounts[key := slots], m.sums[key := sum], m.counts[key := count])
  }

  lemma EnteredElsewhere<K>(buckets: seq<real>, m: Summary<K>, key: K, slots: seq<nat>, sum: real, count: nat,
                            values: seq<real>, other: K)
    requires other != key && Summarised(buckets, m, values, other)
    ensures Summarised(buckets, Entered(m, key, slots, sum, count), values, other)
  {
  }

  lemma {:induction false} EnteredHere<K>(buckets: seq<real>, m: Summary<K>, key: K, values: seq<real>, value: real)
    requires Summarised(buckets, m, values, key)
    ensures Summarised(buckets, Entered(m, key, SlotCounts(buckets, values + [value]), SumOf(m, key) + value,
                                        CountOf(m, key) + 1), values + [value], key)
  {
    SlotsSummarise(buckets, m, values, key);
    assert (values + [value])[..|values|] == values;
  }

  function Bump(slots: seq<nat>, i: nat): seq<nat> {
    if i < |slots| then slots[i := slots[i] + 1] else slots
  }

  /** The dictionaries after one more observation. */
  function Updated<K>(buckets: seq<real>, m: Summary<K>, key: K, value: real): Summary<K> {
    Entered(m, key, Bump(SlotsOf(buckets, m, key), Slot(buckets, value)), SumOf(m, key) + value, CountOf(m, key) + 1)
  }

  /** One observation changes the summary of its own label set and of no other. */
  lemma {:induction false} Observed<K(!new)>(buckets: seq<real>, m: Summary<K>, log: seq<(K, real)>, key: K,
                                             value: real)
    requires AllSummarised(buckets, m, log)
    ensures AllSummarised(buckets, Updated(buckets, m, key, value), log + [(key, value)])
  {
    var values := ValuesFor(log, key);
    assert Summarised(buckets, m, values, key);
    SlotsSummarise(buckets, m, values, key);
    SlotCountsSnoc(buckets, values, value);
    forall other: K
      ensures Summarised(buckets, Updated(buckets, m, key, value), ValuesFor(log + [(key, value)], other), other)
    {
      ValuesForSnoc(log, key, value, other);
      if other == key {
        EnteredHere(buckets, m, key, values, value);
      } else {
        assert Summarised(buckets, m, ValuesFor(log, other), other);
        EnteredElsewhere(buckets, m, key, Bump(SlotsOf(buckets, m, key), Slot(buckets, value)), SumOf(m, key) + value,
                         CountOf(m, key) + 1, ValuesFor(log, other), other);
      }
    }
  }

  /** How numbers are written. */
  datatype Format = Format(number: real -> string, count: nat -> string)

  /** One line: `name`, a suffix, labels, a number. */
  datatype Sample = Sample(suffix: string, labels: LabelKey, number: string)

  function SampleText(name: string, sample: Sample): string {
    name + sample.suffix + RenderLabels(sample.labels) + " " + sample.number
  }

  function BucketSample(key: LabelKey, bound: string, count: string): Sample {
    Sample("_bucket", key + [("le", bound)], count)
  }

  /** What the lines of one label set say: how many of its values are at most each bound, how many there
      are, and what they add up to. */
  function Exposition(f: Format, key: LabelKey, buckets: seq<real>, values: seq<real>): seq<Sample> {
    seq(|buckets|, i requires 0 <= i < |buckets| =>
      BucketSample(key, f.number(buckets[i]), f.count(CountAtMost(values, buckets[i]))))
    + [BucketSample(key, "+Inf", f.count(|values|)), Sample("_sum", key, f.number(Sum(values))),
       Sample("_count", key, f.count(|values|))]
  }

  method Texts(name: string, samples: seq<Sample>) returns (lines: seq<string>)
    ensures |lines| == |samples| && forall i :: 0 <= i < |samples| ==> lines[i] == SampleText(name, samples[i])
  {
    lines := [];
    for i := 0 to |samples|
      invariant |lines| == i && forall k :: 0 <= k < i ==> lines[k] == SampleText(name, samples[k])
    {
      lines := lines + [SampleText(name, samples[i])];
    }
  }

  method RunningSums(slots: seq<nat>) returns (sums: seq<nat>)
    ensures |sums| == |slots| && forall i :: 0 <= i < |slots| ==> sums[i] == Total(slots[..i + 1])
  {
    var running := 0;
    sums := [];
    for i := 0 to |slots|
      invariant running == Total(slots[..i]) && |sums| == i
      invariant forall k :: 0 <= k < i ==> sums[k] == Total(slots[..k + 1])
    {
      assert slots[..i + 1][..i] == slots[..i];
      running := running + slots[i];
      sums := sums + [running];
    }
  }

  class Histogram<K(==, !new)> {
    const name: string
    const buckets: seq<real>
    var bucketCounts: map<K, seq<nat>>
    var sums: map<K, real>
    var counts: map<K, nat>
    ghost var log: seq<(K, real)>

    function Entries(): Summary<K>
      reads this
    {
      Summary(bucketCounts, sums, counts)
    }

    /** The three dictionaries summarise the log of observations. */
    ghost predicate Valid()
      reads this
    {
      AllSummarised(buckets, Entries(), log)
    }

    constructor (name: string, buckets: seq<real>)
      ensures Valid() && this.name == name && this.buckets == buckets && log == []
    {
      this.name, this.buckets := name, buckets;
      bucketCounts, sums, counts := map[], map[], map[];
      log := [];
    }

    method Observe(value: real, key: K)
      requires Valid()
      modifies this
      ensures Valid() && log == old(log) + [(key, value)]
    {
      Observed(buckets, Entries(), log, key, value);
      var i := FindSlot(value);
      var slots := Bump(SlotsOf(buckets, Entries(), key), i);
      Enter(key, slots, SumOf(Entries(), key) + value, CountOf(Entries(), key) + 1);
      assert Entries() == Updated(buckets, old(Entries()), key, value);
      log := log + [(key, value)];
      assert Entries() == Updated(buckets, old(Entries()), key, value);
    }

    method Enter(key: K, slots: seq<nat>, sum: real, count: nat)
      modifies this`bucketCounts, this`sums, this`counts
      ensures Entries() == Entered(old(Entries()), key, slots, sum, count)
    {
      bucketCounts := bucketCounts[key := slots];
      sums := sums[key := sum];
      counts := counts[key := count];
    }

    /** The first bound not below the value. */
    method FindSlot(value: real) returns (i: nat)
      ensures i == Slot(buckets, value)
    {
      i := 0;
      while i < |buckets| && value > buckets[i]
        invariant i <= |buckets| && forall k :: 0 <= k < i ==> buckets[k] < value
      {
        i := i + 1;
      }
      SlotFound(buckets, value, i);
    }

    /** The running sums over the slots, the last one included. */
    method Cumulate(key: K) returns (cumulative: seq<nat>)
      requires Valid() && Ascending(buckets)
      ensures var values := ValuesFor(log, key);
        && |cumulative| == |buckets| + 1 && cumulative[|buckets|] == |values|
        && forall i :: 0 <= i < |buckets| ==> cumulative[i] == CountAtMost(values, buckets[i])
      ensures forall i, j :: 0 <= i <= j < |cumulative| ==> cumulative[i] <= cumulative[j]
    {
      ghost var values := ValuesFor(log, key);
      assert Summarised(buckets, Entries(), values, key);
      SlotsSummarise(buckets, Entries(), values, key);
      CumulativeCounts(buckets, values);
      var slots := SlotsOf(buckets, Entries(), key);
      cumulative := RunningSums(slots);
      assert slots[..|buckets| + 1] == slots;
      forall i, j | 0 <= i <= j < |cumulative|
        ensures cumulative[i] <= cumulative[j]
      {
        if i < |buckets| {
          AtMostMonotone(values, buckets[i], if j < |buckets| then buckets[j] else buckets[i]);
        }
      }
    }
  }

  /** The lines of one label set: with ascending bounds the running sums are the numbers of observed
      values at most each bound. */
  method RenderKey(h: Histogram<LabelKey>, f: Format, key: LabelKey) returns (lines: seq<string>)
    requires h.Valid() && Ascending(h.buckets)
    ensures var samples := Exposition(f, key, h.buckets, ValuesFor(h.log, key));
      |lines| == |samples| && forall i :: 0 <= i < |samples| ==> lines[i] == SampleText(h.name, samples[i])
    ensures var values, n := ValuesFor(h.log, key), |h.buckets|;
      && |lines| == n + 3
      && (forall i :: 0 <= i < n ==>
            lines[i] == h.name + "_bucket" + RenderLabels(key + [("le", f.number(h.buckets[i]))]) + " "
                        + f.count(CountAtMost(values, h.buckets[i])))
      && lines[n] == h.name + "_bucket" + RenderLabels(key + [("le", "+Inf")]) + " " + f.count(|values|)
      && lines[n + 1] == h.name + "_sum" + RenderLabels(key) + " " + f.number(Sum(values))
      && lines[n + 2] == h.name + "_count" + RenderLabels(key) + " " + f.count(|values|)
  {
    var samples := Samples(h, f, key);
    lines := Texts(h.name, samples);
  }

  method Samples(h: Histogram<LabelKey>, f: Format, key: LabelKey) returns (samples: seq<Sample>)
    requires h.Valid() && Ascending(h.buckets)
    ensures samples == Exposition(f, key, h.buckets, ValuesFor(h.log, key))
  {
    var cumulative := h.Cumulate(key);
    var sum, count := SumOf(h.Entries(), key), CountOf(h.Entries(), key);
    assert Summarised(h.buckets, h.Entries(), ValuesFor(h.log, key), key);
    samples := [];
    for i := 0 to |h.buckets|
      invariant |samples| == i
      invariant forall k :: 0 <= k < i ==>
        samples[k] == BucketSample(key, f.number(h.buckets[k]), f.count(cumulative[k]))
    {
      samples := samples + [BucketSample(key, f.number(h.buckets[i]), f.count(cumulative[i]))];
    }
    samples := samples
      + [BucketSample(key, "+Inf", f.count(cumulative[|h.buckets|])), Sample("_sum", key, f.number(sum)),
         Sample("_count", key, f.count(count))];
  }

  lemma {:induction false} SlotFound(buckets: seq<real>, value: real, i: nat)
    requires i <= |buckets| && (forall k :: 0 <= k < i ==> buckets[k] < value)
    requires i < |buckets| ==> value <= buckets[i]
    ensures Slot(buckets, value) == i
  {
  }
}
