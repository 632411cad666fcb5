/**
 Turning a list of imported expenses into expense groups: the GROUP BY query, the filter that
 sets refunds aside, and the per-fund-source pipeline around them.
 */
module Grouping {
  import opened Common
  import opened Expenses

  // ---------------------------------------------------------------- the GROUP BY query

  /** The distinct grouping keys of the listed rows. */
  function GroupKeys(table: Table, fields: seq<string>, ids: seq<nat>): (keys: seq<Key>)
    ensures NoDup(keys)
  {
    FirstSeen(Keys(table, fields, FirstSeen(ids)))
  }

  /** One list of distinct ids per value of the grouping fields. */
  function GroupBy(table: Table, fields: seq<string>, ids: seq<nat>): (groups: seq<seq<nat>>)
    ensures |groups| == |GroupKeys(table, fields, ids)|
  {
    var keys := GroupKeys(table, fields, ids);
    seq(|keys|, i requires 0 <= i < |keys| => Pick(table, Keyed(fields, keys[i]), FirstSeen(ids)))
  }

  ghost predicate Covered(groups: seq<seq<nat>>, id: nat) {
    exists i :: 0 <= i < |groups| && id in groups[i]
  }

  ghost predicate SameKey(table: Table, fields: seq<string>, ids: seq<nat>) {
    forall a, b :: a in ids && b in ids ==> KeyOf(table, fields, a) == KeyOf(table, fields, b)
  }

  /** What the database promises of the query, whatever order it lists groups and rows in. */
  ghost predicate IsGroupBy(table: Table, fields: seq<string>, ids: set<nat>, groups: seq<seq<nat>>) {
    && (forall i :: 0 <= i < |groups| ==>
          groups[i] != [] && NoDup(groups[i]) && Elems(groups[i]) <= ids && SameKey(table, fields, groups[i]))
    && (forall i, j, a, b :: 0 <= i < j < |groups| && a in groups[i] && b in groups[j] ==>
          KeyOf(table, fields, a) != KeyOf(table, fields, b))
    && (forall id :: id in ids ==> Covered(groups, id))
  }

  lemma KeyAmongKeys(table: Table, fields: seq<string>, ids: seq<nat>, id: nat)
    requires id in ids
    ensures KeyOf(table, fields, id) in GroupKeys(table, fields, ids)
  {
    var rows := FirstSeen(ids);
    var i :| 0 <= i < |rows| && rows[i] == id;
    assert Keys(table, fields, rows)[i] == KeyOf(table, fields, id);
  }

  lemma KeyHasMember(table: Table, fields: seq<string>, ids: seq<nat>, key: Key) returns (id: nat)
    requires key in GroupKeys(table, fields, ids)
    ensures id in ids && KeyOf(table, fields, id) == key
  {
    var rows := FirstSeen(ids);
    var keys := Keys(table, fields, rows);
    assert key in keys;
    var i :| 0 <= i < |keys| && keys[i] == key;
    id := rows[i];
    assert id in rows;
  }

  lemma GroupByMembers(table: Table, fields: seq<string>, ids: seq<nat>, i: nat)
    requires Exist(table, ids) && i < |GroupBy(table, fields, ids)|
    ensures var group := GroupBy(table, fields, ids)[i];
            && NoDup(group) && group != [] && SameKey(table, fields, group)
            && (forall id :: id in group <==>
                  id in ids && id in table && KeyOf(table, fields, id) == GroupKeys(table, fields, ids)[i])
  {
    var key := GroupKeys(table, fields, ids)[i];
    PickKeepsNoDup(table, Keyed(fields, key), FirstSeen(ids));
    var id := KeyHasMember(table, fields, ids, key);
    assert id in GroupBy(table, fields, ids)[i];
  }

  lemma GroupByIsGroupBy(table: Table, fields: seq<string>, ids: seq<nat>)
    requires Exist(table, ids)
    ensures IsGroupBy(table, fields, Elems(ids), GroupBy(table, fields, ids))
  {
    var keys := GroupKeys(table, fields, ids);
    var groups := GroupBy(table, fields, ids);
    forall i | 0 <= i < |groups|
      ensures groups[i] != [] && NoDup(groups[i]) && Elems(groups[i]) <= Elems(ids) && SameKey(table, fields, groups[i])
    {
      GroupByMembers(table, fields, ids, i);
    }
    forall i, j, a, b | 0 <= i < j < |groups| && a in groups[i] && b in groups[j]
      ensures KeyOf(table, fields, a) != KeyOf(table, fields, b)
    {
      GroupByMembers(table, fields, ids, i);
      GroupByMembers(table, fields, ids, j);
      assert keys[i] != keys[j];
    }
    forall id | id in Elems(ids) ensures Covered(groups, id) {
      KeyAmongKeys(table, fields, ids, id);
      var i :| 0 <= i < |keys| && keys[i] == KeyOf(table, fields, id);
      GroupByMembers(table, fields, ids, i);
      assert id in groups[i];
    }
  }

  // ---------------------------------------------------------------- setting refunds aside

  datatype Sifted = Sifted(kept: seq<nat>, skipped: seq<nat>)

  /** Whether a group's refunds may be netted against its charges. */
  predicate Nets(fields: seq<string>, reimbursable: Option<ExportType>, ccc: Option<ExportType>) {
    && "expense_id" !in fields
    && (reimbursable == Some(EXPENSE_REPORT) || reimbursable == Some(BILL) || ccc == Some(BILL))
  }

  predicate DropsRefunds(reimbursable: Option<ExportType>, ccc: Option<ExportType>) {
    reimbursable != Some(JOURNAL_ENTRY) || ccc == Some(BILL)
  }

  /** Refunds are set aside: netted against the charges of their group, or dropped. */
  predicate SetsAside(fields: seq<string>, reimbursable: Option<ExportType>, ccc: Option<ExportType>) {
    Nets(fields, reimbursable, ccc) || DropsRefunds(reimbursable, ccc)
  }

  function Positives(table: Table, ids: seq<nat>): Sifted {
    Sifted(Pick(table, Positive, ids), Pick(table, Negative, ids))
  }

  function NetWhole(table: Table, ids: seq<nat>): Sifted {
    if Sum(table, ids) < 0 then Positives(table, ids) else Sifted(ids, [])
  }

  function SpentAt(table: Table, id: nat): Option<int> {
    if id in table then table[id].details.spentAt else None
  }

  function SpentDays(table: Table, ids: seq<nat>): seq<Option<int>> {
    seq(|ids|, i requires 0 <= i < |ids| => SpentAt(table, ids[i]))
  }

  function Buckets(table: Table, ids: seq<nat>): seq<seq<nat>> {
    var days := FirstSeen(SpentDays(table, ids));
    seq(|days|, i requires 0 <= i < |days| => Pick(table, SpentOn(days[i]), ids))
  }

  /** The loop over the spent_at buckets: a negative bucket replaces what was kept so far. */
  function NetBuckets(table: Table, buckets: seq<seq<nat>>, ids: seq<nat>): Sifted {
    if buckets == [] then Sifted(ids, [])
    else
      var before := NetBuckets(table, buckets[..|buckets| - 1], ids);
      var bucket := buckets[|buckets| - 1];
      if Sum(table, bucket) < 0 then
        Sifted(Pick(table, Positive, bucket), before.skipped + Pick(table, Negative, bucket))
      else before
  }

  function Sift(table: Table, fields: seq<string>, reimbursable: Option<ExportType>, ccc: Option<ExportType>,
                ids: seq<nat>): Sifted {
    if Nets(fields, reimbursable, ccc) then
      if "spent_at" in fields then NetBuckets(table, Buckets(table, ids), ids) else NetWhole(table, ids)
    else if DropsRefunds(reimbursable, ccc) then Positives(table, ids)
    else Sifted(ids, [])
  }

  datatype Filtered = Filtered(kept: seq<seq<nat>>, skipped: seq<nat>)

  function AsGroups(kept: seq<nat>): seq<seq<nat>> {
    if kept == [] then [] else [kept]
  }

  /** The whole filter: groups left empty disappear, skipped ids accumulate. */
  function FilterGroups(table: Table, ids: seq<nat>, fields: seq<string>, reimbursable: Option<ExportType>,
                        ccc: Option<ExportType>, groups: seq<seq<nat>>): Filtered {
    if groups == [] then Filtered([], [])
    else
      var before := FilterGroups(table, ids, fields, reimbursable, ccc, groups[..|groups| - 1]);
      var s := Sift(table, fields, reimbursable, ccc, Pick(table, Listed(groups[|groups| - 1]), ids));
      Filtered(before.kept + AsGroups(s.kept), before.skipped + s.skipped)
  }

  /** spent_at is a grouping field, so the rows of one group share it. */
  lemma SameKeySameDay(table: Table, fields: seq<string>, a: nat, b: nat)
    requires a in table && b in table && "spent_at" in fields
    requires KeyOf(table, fields, a) == KeyOf(table, fields, b)
    ensures SpentAt(table, a) == SpentAt(table, b)
  {
    var i :| 0 <= i < |fields| && fields[i] == "spent_at";
    assert KeyOf(table, fields, a).values[i] == Column(a, table[a], "spent_at");
    assert KeyOf(table, fields, b).values[i] == Column(b, table[b], "spent_at");
  }

  /** Within a group of the query the bucket loop sees one bucket, so it nets the group as a whole. */
  lemma BucketsNetTheWholeGroup(table: Table, fields: seq<string>, ids: seq<nat>)
    requires Exist(table, ids) && "spent_at" in fields && SameKey(table, fields, ids)
    ensures NetBuckets(table, Buckets(table, ids), ids) == NetWhole(table, ids)
  {
    if ids == [] {
      assert Buckets(table, ids) == [];
    } else {
      var days := SpentDays(table, ids);
      var day := days[0];
      forall i | 0 <= i < |days| ensures days[i] == day {
        assert ids[i] in ids && ids[0] in ids;
        SameKeySameDay(table, fields, ids[i], ids[0]);
      }
      FirstSeenOfConstant(days, day);
      forall id | id in ids ensures Holds(table, SpentOn(day), id) {
        var i :| 0 <= i < |ids| && ids[i] == id;
        assert days[i] == day;
      }
      PickAll(table, SpentOn(day), ids);
      assert Buckets(table, ids) == [ids];
      assert [ids][..0] == [];
    }
  }

  /** Rows of two days, as no group of the query holds them: the second bucket discards the first day's charge. */
  lemma BucketsOfTwoDaysLoseACharge(table: Table, a: nat, b: nat)
    requires a in table && b in table && SpentAt(table, a) != SpentAt(table, b)
    requires AmountOf(table, a) > 0 > AmountOf(table, b)
    ensures var s := NetBuckets(table, Buckets(table, [a, b]), [a, b]);
            a !in s.kept && a !in s.skipped
  {
    var x := Pick(table, SpentOn(SpentAt(table, a)), [a, b]);
    var y := Pick(table, SpentOn(SpentAt(table, b)), [a, b]);
    BucketsOfTwoDays(table, a, b);
    OnlyBucketOf(table, a, b, a);
    OnlyBucketOf(table, a, b, b);
    SumOfOthers(table, x, a);
    SumOfOthers(table, y, b);
    NetTwoBuckets(table, x, y, [a, b]);
    assert a !in y;
  }

  lemma BucketsOfTwoDays(table: Table, a: nat, b: nat)
    requires SpentAt(table, a) != SpentAt(table, b)
    ensures Buckets(table, [a, b])
         == [Pick(table, SpentOn(SpentAt(table, a)), [a, b]), Pick(table, SpentOn(SpentAt(table, b)), [a, b])]
  {
    var days := SpentDays(table, [a, b]);
    assert days == [SpentAt(table, a), SpentAt(table, b)];
    FirstSeenOfDistinct(days);
  }

  lemma NetTwoBuckets(table: Table, x: seq<nat>, y: seq<nat>, ids: seq<nat>)
    requires Sum(table, x) >= 0 > Sum(table, y)
    ensures NetBuckets(table, [x, y], ids) == Sifted(Pick(table, Positive, y), Pick(table, Negative, y))
  {
    assert [x, y][..1] == [x] && [x][..0] == [];
    assert NetBuckets(table, [x], ids) == Sifted(ids, []);
    assert [] + Pick(table, Negative, y) == Pick(table, Negative, y);
  }

  lemma OnlyBucketOf(table: Table, a: nat, b: nat, one: nat)
    requires a in table && b in table && SpentAt(table, a) != SpentAt(table, b) && (one == a || one == b)
    ensures var bucket := Pick(table, SpentOn(SpentAt(table, one)), [a, b]);
            bucket != [] && forall i :: 0 <= i < |bucket| ==> bucket[i] == one
  {
    var bucket := Pick(table, SpentOn(SpentAt(table, one)), [a, b]);
    assert one in [a, b];
    assert one in bucket;
    forall i | 0 <= i < |bucket| ensures bucket[i] == one {
      assert bucket[i] in bucket && bucket[i] in [a, b];
    }
  }

  /** A non-empty list that repeats one id has the sign of that id's amount. */
  lemma {:induction false} SumOfOthers(table: Table, ids: seq<nat>, id: nat)
    requires ids != [] && forall i :: 0 <= i < |ids| ==> ids[i] == id
    ensures AmountOf(table, id) > 0 ==> Sum(table, ids) > 0
    ensures AmountOf(table, id) < 0 ==> Sum(table, ids) < 0
  {
    if |ids| == 1 {
      assert ids[..0] == [];
    } else {
      SumOfOthers(table, ids[..|ids| - 1], id);
    }
  }

  // ---------------------------------------------------------------- partition of the input

  /** kept and skipped split whole: groups disjoint and non-empty, only refunds skipped, only zero amounts dropped. */
  ghost predicate Splits(table: Table, kept: seq<seq<nat>>, skipped: seq<nat>, whole: set<nat>) {
    && (forall i :: 0 <= i < |kept| ==> kept[i] != [] && Elems(kept[i]) <= whole && Elems(kept[i]) !! Elems(skipped))
    && (forall i, j :: 0 <= i < j < |kept| ==> Elems(kept[i]) !! Elems(kept[j]))
    && (forall id :: id in skipped ==> id in whole && AmountOf(table, id) < 0)
    && (forall id :: id in whole ==> Covered(kept, id) || id in skipped || AmountOf(table, id) == 0)
  }

  /** Splits of disjoint wholes join. */
  lemma SplitsJoin(table: Table, kept: seq<seq<nat>>, skipped: seq<nat>, whole: set<nat>,
                   kept': seq<seq<nat>>, skipped': seq<nat>, whole': set<nat>)
    requires whole !! whole'
    requires Splits(table, kept, skipped, whole) && Splits(table, kept', skipped', whole')
    ensures Splits(table, kept + kept', skipped + skipped', whole + whole')
  {
    var all := kept + kept';
    assert Elems(skipped) <= whole && Elems(skipped') <= whole';
    assert Elems(skipped + skipped') == Elems(skipped) + Elems(skipped');
    forall id | id in whole + whole'
      ensures Covered(all, id) || id in skipped + skipped' || AmountOf(table, id) == 0
    {
      if id in whole && Covered(kept, id) {
        var i :| 0 <= i < |kept| && id in kept[i];
        assert id in all[i];
      } else if id in whole' && Covered(kept', id) {
        var i :| 0 <= i < |kept'| && id in kept'[i];
        assert id in all[|kept| + i];
      }
    }
  }

  lemma WholeSplits(table: Table, ids: seq<nat>)
    ensures Splits(table, AsGroups(ids), [], Elems(ids))
  {
    forall id | id in Elems(ids) ensures Covered(AsGroups(ids), id) {
      assert id in ids && AsGroups(ids)[0] == ids;
    }
  }

  lemma PositivesSplit(table: Table, ids: seq<nat>)
    requires Exist(table, ids)
    ensures Splits(table, AsGroups(Positives(table, ids).kept), Positives(table, ids).skipped, Elems(ids))
  {
    var s := Positives(table, ids);
    forall id | id in Elems(ids) ensures Covered(AsGroups(s.kept), id) || id in s.skipped || AmountOf(table, id) == 0 {
      if AmountOf(table, id) > 0 {
        assert id in s.kept && AsGroups(s.kept)[0] == s.kept;
      }
    }
  }

  /** What one group of the query is sifted to: all of it, or its positive and its negative rows. */
  lemma SiftCases(table: Table, fields: seq<string>, reimbursable: Option<ExportType>, ccc: Option<ExportType>,
                  ids: seq<nat>)
    requires Exist(table, ids) && SameKey(table, fields, ids)
    ensures var s := Sift(table, fields, reimbursable, ccc, ids);
            || s == Positives(table, ids)
            || (s == Sifted(ids, []) && (SetsAside(fields, reimbursable, ccc) ==> Sum(table, ids) >= 0))
  {
    if "spent_at" in fields {
      BucketsNetTheWholeGroup(table, fields, ids);
    }
  }

  lemma AllAsOften(ids: seq<nat>)
    ensures AsOften(ids, ids) && AsOften([], ids)
  {
  }

  /** s splits the rows of ids, each row as often as it was listed, conserves their total and leaves it non-negative. */
  ghost predicate SiftOk(table: Table, ids: seq<nat>, aside: bool, s: Sifted) {
    && Splits(table, AsGroups(s.kept), s.skipped, Elems(ids))
    && AsOften(s.kept, ids) && AsOften(s.skipped, ids)
    && Sum(table, s.kept) + Sum(table, s.skipped) == Sum(table, ids)
    && (aside ==> Sum(table, s.kept) >= 0)
  }

  lemma PositivesOk(table: Table, ids: seq<nat>)
    requires Exist(table, ids)
    ensures SiftOk(table, ids, true, Positives(table, ids))
  {
    SumBySign(table, ids);
    PositivesSplit(table, ids);
    PickAsOften(table, Positive, ids);
    PickAsOften(table, Negative, ids);
  }

  lemma WholeOk(table: Table, ids: seq<nat>, aside: bool)
    requires aside ==> Sum(table, ids) >= 0
    ensures SiftOk(table, ids, aside, Sifted(ids, []))
  {
    WholeSplits(table, ids);
    AllAsOften(ids);
  }

  /** Sifting the rows of one group splits them, each row as often as it was listed, and conserves their total. */
  lemma SiftSplits(table: Table, fields: seq<string>, reimbursable: Option<ExportType>, ccc: Option<ExportType>,
                   ids: seq<nat>)
    requires Exist(table, ids) && SameKey(table, fields, ids)
    ensures SiftOk(table, ids, SetsAside(fields, reimbursable, ccc), Sift(table, fields, reimbursable, ccc, ids))
  {
    SiftCases(table, fields, reimbursable, ccc, ids);
    PositivesOk(table, ids);
    if Sift(table, fields, reimbursable, ccc, ids) != Positives(table, ids) {
      WholeOk(table, ids, SetsAside(fields, reimbursable, ccc));
    }
  }

  ghost function Union(groups: seq<seq<nat>>): set<nat> {
    set i, id | 0 <= i < |groups| && id in groups[i] :: id
  }

  lemma UnionSnoc(front: seq<seq<nat>>, last: seq<nat>)
    ensures Union(front + [last]) == Union(front) + Elems(last)
  {
    var all := front + [last];
    forall id | id in Union(front) + Elems(last) ensures id in Union(all) {
      if id in Elems(last) {
        assert all[|front|] == last;
      } else {
        var i :| 0 <= i < |front| && id in front[i];
        assert all[i] == front[i];
      }
    }
  }

  ghost predicate NonNegative(table: Table, kept: seq<seq<nat>>) {
    forall i :: 0 <= i < |kept| ==> Sum(table, kept[i]) >= 0
  }

  lemma FilterSnoc(table: Table, ids: seq<nat>, fields: seq<string>, reimbursable: Option<ExportType>,
                   ccc: Option<ExportType>, front: seq<seq<nat>>, last: seq<nat>)
    ensures var before := FilterGroups(table, ids, fields, reimbursable, ccc, front);
            var s := Sift(table, fields, reimbursable, ccc, Pick(table, Listed(last), ids));
            FilterGroups(table, ids, fields, reimbursable, ccc, front + [last])
              == Filtered(before.kept + AsGroups(s.kept), before.skipped + s.skipped)
  {
    assert (front + [last])[..|front|] == front;
  }

  lemma SameRows(table: Table, ids: seq<nat>, last: seq<nat>)
    requires Exist(table, ids) && Elems(last) <= Elems(ids)
    ensures Elems(Pick(table, Listed(last), ids)) == Elems(last)
  {
    forall id | id in last ensures id in ids {
      assert id in Elems(last);
    }
  }

  lemma SameKeyOfPart(table: Table, fields: seq<string>, part: seq<nat>, whole: seq<nat>)
    requires SameKey(table, fields, whole) && Elems(part) <= Elems(whole)
    ensures SameKey(table, fields, part)
  {
    forall a | a in part ensures a in whole {
      assert a in Elems(part);
    }
  }

  /** What sifting a list of rows says of a longer list that holds these rows as often. */
  ghost predicate SiftedFrom(table: Table, last: seq<nat>, ids: seq<nat>, aside: bool, s: Sifted) {
    && Splits(table, AsGroups(s.kept), s.skipped, Elems(last))
    && AsOften(s.kept, ids) && AsOften(s.skipped, ids)
    && (aside ==> Sum(table, s.kept) >= 0)
  }

  lemma OkIsSiftedFrom(table: Table, members: seq<nat>, last: seq<nat>, ids: seq<nat>, aside: bool, s: Sifted)
    requires SiftOk(table, members, aside, s) && Elems(members) == Elems(last) && AsOften(members, ids)
    ensures SiftedFrom(table, last, ids, aside, s)
  {
    AsOftenTransitive(s.kept, members, ids);
    AsOftenTransitive(s.skipped, members, ids);
  }

  /** What the filter makes of one more group of the query. */
  lemma LastIsSifted(table: Table, ids: seq<nat>, fields: seq<string>, reimbursable: Option<ExportType>,
                     ccc: Option<ExportType>, last: seq<nat>)
    requires Exist(table, ids) && Elems(last) <= Elems(ids) && SameKey(table, fields, last)
    ensures SiftedFrom(table, last, ids, SetsAside(fields, reimbursable, ccc),
                       Sift(table, fields, reimbursable, ccc, Pick(table, Listed(last), ids)))
  {
    var members := Pick(table, Listed(last), ids);
    SameRows(table, ids, last);
    SameKeyOfPart(table, fields, members, last);
    SiftSplits(table, fields, reimbursable, ccc, members);
    PickAsOften(table, Listed(last), ids);
    OkIsSiftedFrom(table, members, last, ids, SetsAside(fields, reimbursable, ccc),
                   Sift(table, fields, reimbursable, ccc, members));
  }

  /** The lists hold each of their rows as often as whole does. */
  ghost predicate EachAsOften(lists: seq<seq<nat>>, whole: seq<nat>) {
    forall i :: 0 <= i < |lists| ==> AsOften(lists[i], whole)
  }

  /** The filter's result on the groups seen so far, whose rows are seen. */
  ghost predicate FilterOk(table: Table, ids: seq<nat>, aside: bool, seen: set<nat>, f: Filtered) {
    && Splits(table, f.kept, f.skipped, seen)
    && AsOften(f.skipped, ids) && EachAsOften(f.kept, ids)
    && (aside ==> NonNegative(table, f.kept))
  }

  lemma EachAsOftenMore(kept: seq<seq<nat>>, more: seq<nat>, ids: seq<nat>)
    requires EachAsOften(kept, ids) && AsOften(more, ids)
    ensures EachAsOften(kept + AsGroups(more), ids)
  {
  }

  lemma NonNegativeMore(table: Table, kept: seq<seq<nat>>, more: seq<nat>)
    requires NonNegative(table, kept) && Sum(table, more) >= 0
    ensures NonNegative(table, kept + AsGroups(more))
  {
  }

  /** One more group, with rows no earlier group has. */
  lemma FilterStep(table: Table, ids: seq<nat>, aside: bool, seen: set<nat>, before: Filtered, last: seq<nat>,
                   s: Sifted)
    requires FilterOk(table, ids, aside, seen, before) && SiftedFrom(table, last, ids, aside, s) && seen !! Elems(last)
    ensures FilterOk(table, ids, aside, seen + Elems(last),
                     Filtered(before.kept + AsGroups(s.kept), before.skipped + s.skipped))
  {
    SplitsJoin(table, before.kept, before.skipped, seen, AsGroups(s.kept), s.skipped, Elems(last));
    assert Elems(before.skipped) <= seen && Elems(s.skipped) <= Elems(last);
    AsOftenConcat(before.skipped, s.skipped, ids);
    EachAsOftenMore(before.kept, s.kept, ids);
    if aside {
      NonNegativeMore(table, before.kept, s.kept);
    }
  }

  /** A group's rows are in no earlier group. */
  lemma LastIsNew(table: Table, fields: seq<string>, ids: set<nat>, groups: seq<seq<nat>>, n: nat)
    requires n < |groups| && IsGroupBy(table, fields, ids, groups)
    ensures Union(groups[..n]) !! Elems(groups[n])
    ensures groups[..n + 1] == groups[..n] + [groups[n]]
    ensures Union(groups[..n + 1]) == Union(groups[..n]) + Elems(groups[n])
  {
    forall a | a in groups[n] ensures a !in Union(groups[..n]) {
      assert forall i :: 0 <= i < n ==> groups[..n][i] == groups[i] && a !in groups[i];
    }
    UnionSnoc(groups[..n], groups[n]);
  }

  lemma {:induction false} FilterSplitsPrefix(table: Table, ids: seq<nat>, fields: seq<string>,
                                              reimbursable: Option<ExportType>, ccc: Option<ExportType>,
                                              groups: seq<seq<nat>>, n: nat)
    requires Exist(table, ids) && n <= |groups| && IsGroupBy(table, fields, Elems(ids), groups)
    ensures FilterOk(table, ids, SetsAside(fields, reimbursable, ccc), Union(groups[..n]),
                     FilterGroups(table, ids, fields, reimbursable, ccc, groups[..n]))
  {
    if n == 0 {
    } else {
      var front, last := groups[..n - 1], groups[n - 1];
      FilterSplitsPrefix(table, ids, fields, reimbursable, ccc, groups, n - 1);
      LastIsNew(table, fields, Elems(ids), groups, n - 1);
      FilterSnoc(table, ids, fields, reimbursable, ccc, front, last);
      LastIsSifted(table, ids, fields, reimbursable, ccc, last);
      FilterStep(table, ids, SetsAside(fields, reimbursable, ccc), Union(front),
                 FilterGroups(table, ids, fields, reimbursable, ccc, front), last,
                 Sift(table, fields, reimbursable, ccc, Pick(table, Listed(last), ids)));
    }
  }

  /**
   Filtering splits its input, for any answer of the query: every id ends in exactly one group, skipped, or
   as a dropped zero amount, and where refunds are set aside no group has a negative total. A row is grouped or
   skipped as often as it was listed: once, or again for every repetition of the row in the import.
   */
  lemma FilterSplits(table: Table, ids: seq<nat>, fields: seq<string>, reimbursable: Option<ExportType>,
                     ccc: Option<ExportType>, groups: seq<seq<nat>>)
    requires Exist(table, ids) && IsGroupBy(table, fields, Elems(ids), groups)
    ensures var f := FilterGroups(table, ids, fields, reimbursable, ccc, groups);
            && Splits(table, f.kept, f.skipped, Elems(ids))
            && AsOften(f.skipped, ids) && EachAsOften(f.kept, ids)
            && (SetsAside(fields, reimbursable, ccc) ==> NonNegative(table, f.kept))
  {
    FilterSplitsPrefix(table, ids, fields, reimbursable, ccc, groups, |groups|);
    assert groups[..|groups|] == groups;
    QueryCovers(table, fields, Elems(ids), groups);
  }

  lemma QueryCovers(table: Table, fields: seq<string>, ids: set<nat>, groups: seq<seq<nat>>)
    requires IsGroupBy(table, fields, ids, groups)
    ensures Union(groups) == ids
  {
    forall id | id in Union(groups) ensures id in ids {
      var i :| 0 <= i < |groups| && id in groups[i];
      assert id in Elems(groups[i]);
    }
    forall id | id in ids ensures id in Union(groups) {
      assert Covered(groups, id);
    }
  }

  // ---------------------------------------------------------------- conservation of amounts

  function SumLists(table: Table, lists: seq<seq<nat>>): int {
    if lists == [] then 0 else SumLists(table, lists[..|lists| - 1]) + Sum(table, lists[|lists| - 1])
  }

  lemma {:induction false} SumListsConcat(table: Table, a: seq<seq<nat>>, b: seq<seq<nat>>)
    ensures SumLists(table, a + b) == SumLists(table, a) + SumLists(table, b)
  {
    if b == [] {
      assert a + b == a;
    } else {
      assert (a + b)[..|a + b| - 1] == a + b[..|b| - 1];
      SumListsConcat(table, a, b[..|b| - 1]);
    }
  }

  /** The total of the listed ids, taken key by key. */
  ghost function SumByKey(table: Table, fields: seq<string>, keys: seq<Key>, ids: seq<nat>): int {
    if keys == [] then 0
    else
      SumByKey(table, fields, keys[..|keys| - 1], ids)
      + Sum(table, Pick(table, Keyed(fields, keys[|keys| - 1]), ids))
  }

  lemma SumOfKeySnoc(table: Table, fields: seq<string>, key: Key, ids: seq<nat>, id: nat)
    requires id in table
    ensures Sum(table, Pick(table, Keyed(fields, key), ids + [id]))
         == Sum(table, Pick(table, Keyed(fields, key), ids))
            + (if KeyOf(table, fields, id) == key then AmountOf(table, id) else 0)
  {
    SumPickSnoc(table, Keyed(fields, key), ids, id);
  }

  lemma {:induction false} SumByKeySnoc(table: Table, fields: seq<string>, keys: seq<Key>, ids: seq<nat>, id: nat)
    requires id in table && NoDup(keys)
    ensures SumByKey(table, fields, keys, ids + [id])
         == SumByKey(table, fields, keys, ids) + (if KeyOf(table, fields, id) in keys then AmountOf(table, id) else 0)
  {
    if keys == [] {
    } else {
      var front, key := keys[..|keys| - 1], keys[|keys| - 1];
      SumByKeySnoc(table, fields, front, ids, id);
      SumOfKeySnoc(table, fields, key, ids, id);
      LastOfDistinct(keys, KeyOf(table, fields, id));
    }
  }

  lemma {:induction false} SumByKeyIsSum(table: Table, fields: seq<string>, keys: seq<Key>, ids: seq<nat>)
    requires Exist(table, ids) && NoDup(keys)
    requires forall id :: id in ids ==> KeyOf(table, fields, id) in keys
    ensures SumByKey(table, fields, keys, ids) == Sum(table, ids)
  {
    if ids == [] {
      SumByKeyOfNothing(table, fields, keys);
    } else {
      var front, last := ids[..|ids| - 1], ids[|ids| - 1];
      assert ids == front + [last] && last in Elems(ids) && Elems(front) <= Elems(ids);
      SumByKeyIsSum(table, fields, keys, front);
      SumByKeySnoc(table, fields, keys, front, last);
    }
  }

  lemma {:induction false} SumByKeyOfNothing(table: Table, fields: seq<string>, keys: seq<Key>)
    ensures SumByKey(table, fields, keys, []) == 0
  {
    if keys == [] {
    } else {
      SumByKeyOfNothing(table, fields, keys[..|keys| - 1]);
    }
  }

  lemma SameKeyOfKeyed(table: Table, fields: seq<string>, key: Key, ids: seq<nat>)
    ensures SameKey(table, fields, Pick(table, Keyed(fields, key), ids))
    ensures Exist(table, Pick(table, Keyed(fields, key), ids))
  {
    var members := Pick(table, Keyed(fields, key), ids);
    forall id | id in members ensures KeyOf(table, fields, id) == key && id in table {
      assert Holds(table, Keyed(fields, key), id);
    }
  }

  /** What the filter keeps of each group and what it skips add up to the rows of that group. */
  lemma {:induction false} FilterSumPrefix(table: Table, ids: seq<nat>, fields: seq<string>,
                                           reimbursable: Option<ExportType>, ccc: Option<ExportType>,
                                           keys: seq<Key>, groups: seq<seq<nat>>)
    requires |keys| == |groups|
    requires forall i :: 0 <= i < |groups| ==>
               Pick(table, Listed(groups[i]), ids) == Pick(table, Keyed(fields, keys[i]), ids)
    ensures var f := FilterGroups(table, ids, fields, reimbursable, ccc, groups);
            SumLists(table, f.kept) + Sum(table, f.skipped) == SumByKey(table, fields, keys, ids)
  {
    if groups == [] {
    } else {
      var n := |groups| - 1;
      var front, last := groups[..n], groups[n];
      FilterSumPrefix(table, ids, fields, reimbursable, ccc, keys[..n], front);
      var f := FilterGroups(table, ids, fields, reimbursable, ccc, front);
      var members := Pick(table, Keyed(fields, keys[n]), ids);
      SameKeyOfKeyed(table, fields, keys[n], ids);
      SiftSplits(table, fields, reimbursable, ccc, members);
      var s := Sift(table, fields, reimbursable, ccc, members);
      SumListsConcat(table, f.kept, AsGroups(s.kept));
      assert [s.kept][..0] == [];
      SumConcat(table, f.skipped, s.skipped);
    }
  }

  /** The kept groups and the skipped refunds together carry exactly the amount that came in. */
  lemma FilterConserves(table: Table, ids: seq<nat>, fields: seq<string>, reimbursable: Option<ExportType>,
                        ccc: Option<ExportType>)
    requires Exist(table, ids)
    ensures var f := FilterGroups(table, ids, fields, reimbursable, ccc, GroupBy(table, fields, ids));
            SumLists(table, f.kept) + Sum(table, f.skipped) == Sum(table, ids)
  {
    var groups := GroupBy(table, fields, ids);
    var keys := GroupKeys(table, fields, ids);
    forall i | 0 <= i < |groups|
      ensures Pick(table, Listed(groups[i]), ids) == Pick(table, Keyed(fields, keys[i]), ids)
    {
      PickSame(table, Listed(groups[i]), Keyed(fields, keys[i]), ids);
    }
    FilterSumPrefix(table, ids, fields, reimbursable, ccc, keys, groups);
    forall id | id in ids ensures KeyOf(table, fields, id) in keys {
      KeyAmongKeys(table, fields, ids, id);
    }
    SumByKeyIsSum(table, fields, keys, ids);
  }

  // ---------------------------------------------------------------- totals of the stored rows

  /** The rows a group stores: each listed one once. */
  function Stored(lists: seq<seq<nat>>): (r: seq<seq<nat>>)
    ensures |r| == |lists|
  {
    seq(|lists|, i requires 0 <= i < |lists| => FirstSeen(lists[i]))
  }

  /** A group of the query whose listed rows do not total below zero while its distinct rows do. */
  predicate Skewed(table: Table, ids: seq<nat>, group: seq<nat>) {
    Sum(table, Pick(table, Listed(group), ids)) >= 0 > Sum(table, group)
  }

  ghost predicate SomeSkewed(table: Table, ids: seq<nat>, groups: seq<seq<nat>>) {
    exists i :: 0 <= i < |groups| && Skewed(table, ids, groups[i])
  }

  lemma StoredPositives(table: Table, ids: seq<nat>)
    ensures Sum(table, FirstSeen(Pick(table, Positive, ids))) >= 0
  {
    FirstSeenOfPick(table, Positive, ids);
    SumBySign(table, FirstSeen(ids));
  }

  lemma SiftStoredExactly(table: Table, fields: seq<string>, reimbursable: Option<ExportType>, ccc: Option<ExportType>,
                          ids: seq<nat>)
    requires Exist(table, ids) && SameKey(table, fields, ids) && SetsAside(fields, reimbursable, ccc)
    ensures Sum(table, FirstSeen(Sift(table, fields, reimbursable, ccc, ids).kept)) < 0 <==>
            Nets(fields, reimbursable, ccc) && Sum(table, ids) >= 0 > Sum(table, FirstSeen(ids))
  {
    StoredPositives(table, ids);
    if "spent_at" in fields {
      BucketsNetTheWholeGroup(table, fields, ids);
    }
  }

  /** The distinct listed rows of a group are its rows. */
  lemma StoredRows(table: Table, ids: seq<nat>, group: seq<nat>)
    requires Exist(table, ids) && NoDup(group) && Elems(group) <= Elems(ids)
    ensures Sum(table, FirstSeen(Pick(table, Listed(group), ids))) == Sum(table, group)
  {
    SameRows(table, ids, group);
    forall id ensures id in FirstSeen(Pick(table, Listed(group), ids)) <==> id in group {
      assert id in Elems(group) <==> id in Elems(Pick(table, Listed(group), ids));
    }
    SumOfSameRows(table, FirstSeen(Pick(table, Listed(group), ids)), group);
  }

  lemma StoredStep(table: Table, before: seq<seq<nat>>, kept: seq<nat>)
    ensures NonNegative(table, Stored(before + AsGroups(kept))) <==>
            NonNegative(table, Stored(before)) && Sum(table, FirstSeen(kept)) >= 0
  {
    var all := before + AsGroups(kept);
    if kept == [] {
      assert all == before;
    } else {
      assert Stored(all) == Stored(before) + [FirstSeen(kept)];
      assert Stored(all)[|before|] == FirstSeen(kept);
      assert forall i :: 0 <= i < |before| ==> Stored(all)[i] == Stored(before)[i];
    }
  }

  /**
   Where refunds are set aside every stored group has a non-negative total exactly when no group of the query is
   skewed, or nothing is netted.
   */
  lemma {:induction false} FilterStoredExactly(table: Table, ids: seq<nat>, fields: seq<string>,
                                               reimbursable: Option<ExportType>, ccc: Option<ExportType>,
                                               groups: seq<seq<nat>>)
    requires Exist(table, ids) && SetsAside(fields, reimbursable, ccc)
    requires forall i :: 0 <= i < |groups| ==>
               NoDup(groups[i]) && Elems(groups[i]) <= Elems(ids) && SameKey(table, fields, groups[i])
    ensures NonNegative(table, Stored(FilterGroups(table, ids, fields, reimbursable, ccc, groups).kept)) <==>
            !(Nets(fields, reimbursable, ccc) && SomeSkewed(table, ids, groups))
  {
    if groups == [] {
    } else {
      var front, last := groups[..|groups| - 1], groups[|groups| - 1];
      var members := Pick(table, Listed(last), ids);
      FilterStoredExactly(table, ids, fields, reimbursable, ccc, front);
      SameRows(table, ids, last);
      SameKeyOfPart(table, fields, members, last);
      SiftStoredExactly(table, fields, reimbursable, ccc, members);
      StoredRows(table, ids, last);
      StoredStep(table, FilterGroups(table, ids, fields, reimbursable, ccc, front).kept,
                 Sift(table, fields, reimbursable, ccc, members).kept);
      SkewedSnoc(table, ids, groups);
    }
  }

  lemma SkewedSnoc(table: Table, ids: seq<nat>, groups: seq<seq<nat>>)
    requires groups != []
    ensures SomeSkewed(table, ids, groups) <==>
            || SomeSkewed(table, ids, groups[..|groups| - 1])
            || Skewed(table, ids, groups[|groups| - 1])
  {
    var n := |groups| - 1;
    if SomeSkewed(table, ids, groups[..n]) {
      var i :| 0 <= i < n && Skewed(table, ids, groups[..n][i]);
      assert Skewed(table, ids, groups[i]);
    }
    if SomeSkewed(table, ids, groups) {
      var i :| 0 <= i < |groups| && Skewed(table, ids, groups[i]);
      assert i < n ==> groups[..n][i] == groups[i];
    }
  }

  /** Rows that are listed once skew no group. */
  lemma DistinctNotSkewed(table: Table, ids: seq<nat>, group: seq<nat>)
    requires Exist(table, ids) && NoDup(ids) && NoDup(group) && Elems(group) <= Elems(ids)
    ensures !Skewed(table, ids, group)
  {
    PickKeepsNoDup(table, Listed(group), ids);
    FirstSeenOfDistinct(Pick(table, Listed(group), ids));
    StoredRows(table, ids, group);
  }

  function Flat(lists: seq<seq<nat>>): seq<nat> {
    if lists == [] then [] else Flat(lists[..|lists| - 1]) + lists[|lists| - 1]
  }

  lemma {:induction false} FlatMembers(lists: seq<seq<nat>>, id: nat)
    ensures id in Flat(lists) <==> Covered(lists, id)
  {
    if lists == [] {
    } else {
      var n := |lists| - 1;
      FlatMembers(lists[..n], id);
      if Covered(lists[..n], id) {
        var i :| 0 <= i < n && id in lists[..n][i];
        assert id in lists[i];
      }
      if Covered(lists, id) {
        var i :| 0 <= i < |lists| && id in lists[i];
        assert i < n ==> id in lists[..n][i];
      }
    }
  }

  lemma {:induction false} SumOfFlat(table: Table, lists: seq<seq<nat>>)
    ensures Sum(table, Flat(lists)) == SumLists(table, lists)
  {
    if lists == [] {
    } else {
      SumOfFlat(table, lists[..|lists| - 1]);
      SumConcat(table, Flat(lists[..|lists| - 1]), lists[|lists| - 1]);
    }
  }

  lemma {:induction false} FlatOnce(lists: seq<seq<nat>>)
    requires forall i :: 0 <= i < |lists| ==> NoDup(lists[i])
    requires forall i, j :: 0 <= i < j < |lists| ==> Elems(lists[i]) !! Elems(lists[j])
    ensures NoDup(Flat(lists))
  {
    if lists == [] {
    } else {
      var n := |lists| - 1;
      FlatOnce(lists[..n]);
      forall id | id in Flat(lists[..n]) ensures id !in lists[n] {
        FlatMembers(lists[..n], id);
        var i :| 0 <= i < n && id in lists[..n][i];
        assert id in Elems(lists[i]);
      }
      DistinctConcat(Flat(lists[..n]), lists[n]);
    }
  }

  lemma StoredMember(lists: seq<seq<nat>>, id: nat)
    ensures id in Flat(Stored(lists)) <==> Covered(lists, id)
  {
    FlatMembers(Stored(lists), id);
    if Covered(lists, id) {
      var i :| 0 <= i < |lists| && id in lists[i];
      assert id in Stored(lists)[i];
    }
    if Covered(Stored(lists), id) {
      var i :| 0 <= i < |lists| && id in Stored(lists)[i];
      assert id in lists[i];
    }
  }

  lemma SplitMember(table: Table, kept: seq<seq<nat>>, skipped: seq<nat>, whole: set<nat>, id: nat)
    requires Splits(table, kept, skipped, whole)
    ensures Covered(kept, id) ==> id in whole && id !in skipped
    ensures AmountOf(table, id) != 0 ==> (Covered(kept, id) || id in skipped <==> id in whole)
  {
    if Covered(kept, id) {
      var i :| 0 <= i < |kept| && id in kept[i];
      assert id in Elems(kept[i]);
      assert id !in Elems(skipped);
    }
  }

  /** Each row counted once, what a split stores and what it skips add up to the rows it was made of. */
  lemma StoredConserves(table: Table, kept: seq<seq<nat>>, skipped: seq<nat>, ids: seq<nat>)
    requires Splits(table, kept, skipped, Elems(ids))
    ensures SumLists(table, Stored(kept)) + Sum(table, FirstSeen(skipped)) == Sum(table, FirstSeen(ids))
  {
    var stored, aside := Stored(kept), FirstSeen(skipped);
    forall i, j | 0 <= i < j < |stored| ensures Elems(stored[i]) !! Elems(stored[j]) {
      assert Elems(stored[i]) == Elems(kept[i]) && Elems(stored[j]) == Elems(kept[j]);
    }
    FlatOnce(stored);
    forall id
      ensures id in Flat(stored) ==> id !in aside
      ensures AmountOf(table, id) != 0 ==> (id in Flat(stored) + aside <==> id in FirstSeen(ids))
    {
      StoredMember(kept, id);
      SplitMember(table, kept, skipped, Elems(ids), id);
    }
    DistinctConcat(Flat(stored), aside);
    SumOfFlat(table, stored);
    SumConcat(table, Flat(stored), aside);
    SumOfSameRows(table, Flat(stored) + aside, FirstSeen(ids));
  }
}
