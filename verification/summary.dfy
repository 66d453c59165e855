/** The attendance summary: the visible records tallied per day key, in the
    order in which each day first occurs (the order of the chart's bars). */
module Summary {
  import opened Attendance

  /** Number of records whose day key is d. */
  function CountOn(records: seq<Record>, d: string): (n: nat)
  {
    if records == [] then 0
    else CountOn(records[..|records| - 1], d) + (if DayKey(records[|records| - 1].date) == d then 1 else 0)
  }

  /** The day keys of the records, each once, in order of first occurrence. */
  function FirstSeen(records: seq<Record>): (keys: seq<string>)
  {
    if records == [] then []
    else
      var earlier := FirstSeen(records[..|records| - 1]);
      var d := DayKey(records[|records| - 1].date);
      if d in earlier then earlier else earlier + [d]
  }

  predicate Distinct(keys: seq<string>) {
    forall i, j :: 0 <= i < j < |keys| ==> keys[i] != keys[j]
  }

  /** The sum of the counts of the given keys. */
  function SumCounts(keys: seq<string>, records: seq<Record>): (total: nat)
  {
    if keys == [] then 0
    else SumCounts(keys[..|keys| - 1], records) + CountOn(records, keys[|keys| - 1])
  }

  /** `filtered.reduce((acc, entry) => { acc[date] = (acc[date] || 0) + 1 }, {})`:
      `counts` is the accumulator object and `order` the order in which its
      keys were inserted. */
  method AttendanceByDate(filtered: seq<Record>) returns (order: seq<string>, counts: map<string, nat>)
    ensures order == FirstSeen(filtered)
    ensures forall d :: d in counts <==> d in order
    ensures forall d :: d in counts ==> counts[d] == CountOn(filtered, d) && counts[d] >= 1
    ensures SumCounts(order, filtered) == |filtered|
  {
    order, counts := [], map[];
    var i := 0;
    while i < |filtered|
      invariant 0 <= i <= |filtered|
      invariant order == FirstSeen(filtered[..i])
      invariant forall d :: d in counts <==> d in order
      invariant forall d :: d in counts ==> counts[d] == CountOn(filtered[..i], d)
    {
      var date := DayKey(filtered[i].date);
      assert filtered[..i + 1][..i] == filtered[..i];
      if date !in counts {
        CountPositive(filtered[..i], date);
        order := order + [date];
      }
      counts := counts[date := (if date in counts then counts[date] else 0) + 1];
      i := i + 1;
    }
    assert filtered[..|filtered|] == filtered;
    forall d | d in counts ensures counts[d] >= 1 {
      CountPositive(filtered, d);
    }
    CountsTotal(filtered);
  }

  /** Each day key is listed at most once. */
  lemma {:induction false} FirstSeenDistinct(records: seq<Record>)
    ensures Distinct(FirstSeen(records))
  {
    if records != [] {
      FirstSeenDistinct(records[..|records| - 1]);
    }
  }

  /** The listed keys are exactly the day keys that occur. */
  lemma {:induction false} FirstSeenExactly(records: seq<Record>, d: string)
    ensures d in FirstSeen(records) <==> exists i :: 0 <= i < |records| && DayKey(records[i].date) == d
  {
    if records != [] {
      var n := |records| - 1;
      var earlier := records[..n];
      FirstSeenExactly(earlier, d);
      if i :| 0 <= i < |records| && DayKey(records[i].date) == d {
        if i < n {
          assert earlier[i] == records[i];
        }
      }
      if i :| 0 <= i < n && DayKey(earlier[i].date) == d {
        assert records[i] == earlier[i];
      }
    }
  }

  /** Some record keyed d comes before every record keyed e. */
  predicate KeyedBefore(records: seq<Record>, d: string, e: string) {
    exists p :: 0 <= p < |records| && DayKey(records[p].date) == d &&
      forall q :: 0 <= q <= p ==> DayKey(records[q].date) != e
  }

  /** The listed order is the order of first occurrence: for every two listed
      days, a record of the earlier one comes before any record of the later. */
  lemma {:induction false} FirstSeenOrder(records: seq<Record>, i: nat, j: nat)
    requires i < j < |FirstSeen(records)|
    ensures KeyedBefore(records, FirstSeen(records)[i], FirstSeen(records)[j])
  {
    var n := |records| - 1;
    var earlier := records[..n];
    var listed := FirstSeen(earlier);
    var d, e := FirstSeen(records)[i], FirstSeen(records)[j];
    if j < |listed| {
      assert d == listed[i] && e == listed[j];
      FirstSeenOrder(earlier, i, j);
      var p :| 0 <= p < |earlier| && DayKey(earlier[p].date) == d &&
        forall q :: 0 <= q <= p ==> DayKey(earlier[q].date) != e;
      assert forall q :: 0 <= q <= p ==> records[q] == earlier[q];
      assert DayKey(records[p].date) == d;
    } else {
      assert e == DayKey(records[n].date) && e !in listed && d == listed[i];
      FirstSeenExactly(earlier, d);
      FirstSeenExactly(earlier, e);
      var p :| 0 <= p < |earlier| && DayKey(earlier[p].date) == d;
      assert forall q :: 0 <= q <= p ==> records[q] == earlier[q];
      assert DayKey(records[p].date) == d;
    }
  }

  /** A day is counted at least once exactly when it is listed. */
  lemma {:induction false} CountPositive(records: seq<Record>, d: string)
    ensures CountOn(records, d) >= 1 <==> d in FirstSeen(records)
  {
    if records != [] {
      CountPositive(records[..|records| - 1], d);
    }
  }

  /** Adding one record adds one to the sum exactly when its key is listed. */
  lemma {:induction false} SumCountsStep(keys: seq<string>, records: seq<Record>, r: Record)
    requires Distinct(keys)
    ensures SumCounts(keys, records + [r]) ==
            SumCounts(keys, records) + (if DayKey(r.date) in keys then 1 else 0)
  {
    var extended := records + [r];
    assert extended[..|extended| - 1] == records;
    if keys != [] {
      var init := keys[..|keys| - 1];
      assert Distinct(init);
      SumCountsStep(init, records, r);
      assert keys == init + [keys[|keys| - 1]];
    }
  }

  /** The counts of the listed days add up to the number of records. */
  lemma {:induction false} CountsTotal(records: seq<Record>)
    ensures SumCounts(FirstSeen(records), records) == |records|
  {
    if records != [] {
      var n := |records| - 1;
      var earlier := records[..n];
      var r := records[n];
      var d := DayKey(r.date);
      assert records == earlier + [r];
      CountsTotal(earlier);
      FirstSeenDistinct(earlier);
      SumCountsStep(FirstSeen(earlier), earlier, r);
      if d !in FirstSeen(earlier) {
        var keys := FirstSeen(earlier) + [d];
        assert keys[..|keys| - 1] == FirstSeen(earlier);
        CountPositive(earlier, d);
      }
    }
  }

  /** Two visits on one day, one of them time-stamped, and one on the next day. */
  lemma TallyExample(a: Record, b: Record, c: Record)
    requires a.date == "2024-01-05" && b.date == "2024-01-05T10:00" && c.date == "2024-01-06"
    ensures FirstSeen([a, b, c]) == ["2024-01-05", "2024-01-06"]
    ensures CountOn([a, b, c], "2024-01-05") == 2 && CountOn([a, b, c], "2024-01-06") == 1
  {
    DayKeyOfLongDate(b.date);
    assert b.date[..DayLength] == "2024-01-05";
    assert DayKey(a.date) == DayKey(b.date) == "2024-01-05" && DayKey(c.date) == "2024-01-06";
    assert [a, b, c][..2] == [a, b] && [a, b][..1] == [a] && [a][..0] == [];
    assert "2024-01-05"[9] != "2024-01-06"[9];
    assert FirstSeen([a]) == ["2024-01-05"] && CountOn([a], "2024-01-06") == 0;
    assert FirstSeen([a, b]) == ["2024-01-05"] && CountOn([a, b], "2024-01-06") == 0;
    assert CountOn([a], "2024-01-05") == 1 && CountOn([a, b], "2024-01-05") == 2;
  }
}
