/** The loops that set refunds aside, proved against the filter's specification. */
module GroupFilter {
  import opened Common
  import opened Expenses
  import opened Grouping

  method Total(table: Table, ids: seq<nat>) returns (total: int)
    ensures total == Sum(table, ids)
  {
    total := 0;
    for i := 0 to |ids|
      invariant total == Sum(table, ids[..i])
    {
      assert ids[..i + 1][..i] == ids[..i];
      total := total + AmountOf(table, ids[i]);
    }
    assert ids[..|ids|] == ids;
  }

  method Collect(table: Table, c: Cond, ids: seq<nat>) returns (r: seq<nat>)
    ensures r == Pick(table, c, ids)
  {
    r := [];
    for i := 0 to |ids|
      invariant r == Pick(table, c, ids[..i])
    {
      assert ids[..i + 1][..i] == ids[..i];
      if Holds(table, c, ids[i]) {
        r := r + [ids[i]];
      }
    }
    assert ids[..|ids|] == ids;
  }

  /** days and data are the insertion-ordered dictionary from spent_at to the ids spent then. */
  ghost predicate Bucketed(table: Table, ids: seq<nat>, days: seq<Option<int>>, data: map<Option<int>, seq<nat>>) {
    && days == FirstSeen(SpentDays(table, ids))
    && (forall d :: d in data <==> d in days)
    && (forall d :: d in data ==> data[d] == Pick(table, SpentOn(d), ids))
  }

  lemma PickSnoc(table: Table, c: Cond, ids: seq<nat>, id: nat)
    ensures Pick(table, c, ids + [id]) == Pick(table, c, ids) + (if Holds(table, c, id) then [id] else [])
  {
    assert (ids + [id])[..|ids|] == ids;
  }

  lemma DaysSnoc(table: Table, ids: seq<nat>, id: nat)
    ensures var days, day := FirstSeen(SpentDays(table, ids)), SpentAt(table, id);
            FirstSeen(SpentDays(table, ids + [id])) == (if day in days then days else days + [day])
  {
    assert SpentDays(table, ids + [id])[..|ids|] == SpentDays(table, ids);
  }

  /** What grouped_data[day] reads: the list so far, or an empty one. */
  function At(data: map<Option<int>, seq<nat>>, day: Option<int>): seq<nat> {
    if day in data then data[day] else []
  }

  lemma AtIsPick(table: Table, ids: seq<nat>, days: seq<Option<int>>, data: map<Option<int>, seq<nat>>,
                 day: Option<int>)
    requires Bucketed(table, ids, days, data)
    ensures At(data, day) == Pick(table, SpentOn(day), ids)
  {
    if day !in data {
      NoSuchDay(table, day, ids);
    }
  }

  lemma AtAfterAppend(table: Table, ids: seq<nat>, days: seq<Option<int>>, data: map<Option<int>, seq<nat>>, id: nat,
                      d: Option<int>)
    requires id in table && Bucketed(table, ids, days, data)
    ensures var day := SpentAt(table, id);
            At(data[day := At(data, day) + [id]], d) == Pick(table, SpentOn(d), ids + [id])
  {
    AtIsPick(table, ids, days, data, d);
    PickSnoc(table, SpentOn(d), ids, id);
    assert At(data, d) + [] == At(data, d);
  }

  lemma BucketedSnoc(table: Table, ids: seq<nat>, days: seq<Option<int>>, data: map<Option<int>, seq<nat>>, id: nat)
    requires id in table && Bucketed(table, ids, days, data)
    ensures var day := SpentAt(table, id);
            Bucketed(table, ids + [id], if day in days then days else days + [day], data[day := At(data, day) + [id]])
  {
    var day := SpentAt(table, id);
    var data' := data[day := At(data, day) + [id]];
    DaysSnoc(table, ids, id);
    forall d | d in data' ensures data'[d] == Pick(table, SpentOn(d), ids + [id]) {
      AtAfterAppend(table, ids, days, data, id, d);
    }
  }

  method GroupByDay(table: Table, ids: seq<nat>) returns (days: seq<Option<int>>, data: map<Option<int>, seq<nat>>)
    requires Exist(table, ids)
    ensures Bucketed(table, ids, days, data)
  {
    days, data := [], map[];
    for i := 0 to |ids|
      invariant Bucketed(table, ids[..i], days, data)
    {
      var day := SpentAt(table, ids[i]);
      assert ids[i] in ids;
      assert ids[..i + 1] == ids[..i] + [ids[i]];
      BucketedSnoc(table, ids[..i], days, data, ids[i]);
      data := data[day := At(data, day) + [ids[i]]];
      if day !in days {
        days := days + [day];
      }
    }
    assert ids[..|ids|] == ids;
  }

  method Values(days: seq<Option<int>>, data: map<Option<int>, seq<nat>>) returns (r: seq<seq<nat>>)
    requires forall d :: d in days ==> d in data
    ensures |r| == |days| && forall k :: 0 <= k < |days| ==> days[k] in data && r[k] == data[days[k]]
  {
    r := [];
    for k := 0 to |days|
      invariant |r| == k && forall j :: 0 <= j < k ==> days[j] in data && r[j] == data[days[j]]
    {
      assert days[k] in days;
      r := r + [data[days[k]]];
    }
  }

  method CollectBuckets(table: Table, ids: seq<nat>) returns (buckets: seq<seq<nat>>)
    requires Exist(table, ids)
    ensures buckets == Buckets(table, ids)
  {
    var days, data := GroupByDay(table, ids);
    buckets := Values(days, data);
    forall k | 0 <= k < |days| ensures buckets[k] == Buckets(table, ids)[k] {
      assert days[k] in days;
    }
  }

  lemma {:induction false} NoSuchDay(table: Table, day: Option<int>, ids: seq<nat>)
    requires day !in SpentDays(table, ids)
    ensures Pick(table, SpentOn(day), ids) == []
  {
    if ids == [] {
    } else {
      var front := ids[..|ids| - 1];
      assert SpentDays(table, ids)[|front|] == SpentAt(table, ids[|front|]);
      assert SpentDays(table, front) == SpentDays(table, ids)[..|front|];
      NoSuchDay(table, day, front);
    }
  }

  /** The bucket loop: a bucket with a negative total replaces the kept rows by its positive ones. */
  method NetEachBucket(table: Table, ids: seq<nat>) returns (s: Sifted)
    requires Exist(table, ids)
    ensures s == NetBuckets(table, Buckets(table, ids), ids)
  {
    var buckets := CollectBuckets(table, ids);
    var kept, skipped := ids, [];
    for k := 0 to |buckets|
      invariant Sifted(kept, skipped) == NetBuckets(table, buckets[..k], ids)
    {
      assert buckets[..k + 1][..k] == buckets[..k];
      var total := Total(table, buckets[k]);
      if total < 0 {
        var refunds := Collect(table, Negative, buckets[k]);
        skipped := skipped + refunds;
        kept := Collect(table, Positive, buckets[k]);
      }
    }
    assert buckets[..|buckets|] == buckets;
    s := Sifted(kept, skipped);
  }

  method FilterExpenseGroups(table: Table, groups: seq<seq<nat>>, expenses: seq<nat>, fields: seq<string>,
                             reimbursable: Option<ExportType>, ccc: Option<ExportType>)
    returns (filtered: seq<seq<nat>>, skipped: seq<nat>)
    requires Exist(table, expenses)
    ensures Filtered(filtered, skipped) == FilterGroups(table, expenses, fields, reimbursable, ccc, groups)
  {
    filtered, skipped := [], [];
    for g := 0 to |groups|
      invariant Filtered(filtered, skipped) == FilterGroups(table, expenses, fields, reimbursable, ccc, groups[..g])
    {
      assert groups[..g + 1][..g] == groups[..g];
      var members := Collect(table, Listed(groups[g]), expenses);
      var s := SiftGroup(table, fields, reimbursable, ccc, members);
      skipped := skipped + s.skipped;
      if |s.kept| != 0 {
        filtered := filtered + [s.kept];
      } else {
        assert filtered + [] == filtered;
      }
    }
    assert groups[..|groups|] == groups;
  }

  method SiftGroup(table: Table, fields: seq<string>, reimbursable: Option<ExportType>, ccc: Option<ExportType>,
                   members: seq<nat>) returns (s: Sifted)
    requires Exist(table, members)
    ensures s == Sift(table, fields, reimbursable, ccc, members)
  {
    s := Sifted(members, []);
    if "expense_id" !in fields
       && (reimbursable == Some(EXPENSE_REPORT) || reimbursable == Some(BILL) || ccc == Some(BILL)) {
      if "spent_at" in fields {
        s := NetEachBucket(table, members);
      } else {
        var total := Total(table, members);
        if total < 0 {
          s := SetRefundsAside(table, members);
        }
      }
    } else if reimbursable != Some(JOURNAL_ENTRY) || ccc == Some(BILL) {
      s := SetRefundsAside(table, members);
    }
  }

  method SetRefundsAside(table: Table, members: seq<nat>) returns (s: Sifted)
    ensures s == Positives(table, members)
  {
    var refunds := Collect(table, Negative, members);
    var charges := Collect(table, Positive, members);
    s := Sifted(charges, refunds);
  }
}
