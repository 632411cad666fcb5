/**
 The two-phase update of destination ids: records whose internal id changed get a temporary id first and their
 new id second, because every single row write is checked against the unique constraint.
 */
module IdSwap {
  import opened Common
  import opened Text

  /** A destination attribute of one workspace; the constraint covers kind, display and destination id. */
  datatype Row = Row(kind: string, display: string, value: string, destId: string)

  datatype Incoming = Incoming(name: string, internalId: string)

  datatype Write = Write(row: nat, id: string)

  datatype Change = Change(row: nat, newId: string)

  type Rows = map<nat, Row>

  // ---------------------------------------------------------------- checked row writes

  predicate SameKey(a: Row, b: Row) {
    a.kind == b.kind && a.display == b.display && a.destId == b.destId
  }

  predicate Distinct(rows: Rows) {
    forall a, b :: a in rows && b in rows && SameKey(rows[a], rows[b]) ==> a == b
  }

  function Put(rows: Rows, w: Write): Rows {
    if w.row in rows then rows[w.row := rows[w.row].(destId := w.id)] else rows
  }

  predicate Clashes(rows: Rows, w: Write) {
    w.row in rows && exists other ::
      other in rows && other != w.row && SameKey(rows[other], rows[w.row].(destId := w.id))
  }

  /** Row by row; None when a write violates the constraint. */
  function WriteAll(rows: Rows, writes: seq<Write>): Option<Rows> {
    if writes == [] then Some(rows)
    else
      var before, w := WriteAll(rows, writes[..|writes| - 1]), writes[|writes| - 1];
      if before == None || Clashes(before.value, w) then None else Some(Put(before.value, w))
  }

  /** The same writes without the checks. */
  function PutAll(rows: Rows, writes: seq<Write>): Rows {
    if writes == [] then rows else Put(PutAll(rows, writes[..|writes| - 1]), writes[|writes| - 1])
  }

  predicate RowsOnce(writes: seq<Write>) {
    forall i, j :: 0 <= i < j < |writes| ==> writes[i].row != writes[j].row
  }

  function RowsOf(writes: seq<Write>): set<nat> {
    set w | w in writes :: w.row
  }

  /** A checked run that succeeds did the writes and kept the ids distinct. */
  lemma {:induction false} WrittenIsDistinct(rows: Rows, writes: seq<Write>)
    requires Distinct(rows) && WriteAll(rows, writes).Some?
    ensures WriteAll(rows, writes).value == PutAll(rows, writes) && Distinct(PutAll(rows, writes))
  {
    if writes == [] {
    } else {
      WrittenIsDistinct(rows, writes[..|writes| - 1]);
    }
  }

  /** It succeeds if the ids are distinct after every prefix of the unchecked writes. */
  lemma {:induction false} DistinctIsWritten(rows: Rows, writes: seq<Write>)
    requires forall k :: 0 <= k <= |writes| ==> Distinct(PutAll(rows, writes[..k]))
    ensures WriteAll(rows, writes) == Some(PutAll(rows, writes))
  {
    if writes == [] {
    } else {
      var n := |writes| - 1;
      var front, w := writes[..n], writes[n];
      forall k | 0 <= k <= n ensures Distinct(PutAll(rows, front[..k])) {
        assert front[..k] == writes[..k];
      }
      DistinctIsWritten(rows, front);
      assert writes[..n + 1] == writes;
      NoClashIfDistinct(PutAll(rows, front), w);
    }
  }

  lemma NoClashIfDistinct(rows: Rows, w: Write)
    requires Distinct(Put(rows, w))
    ensures !Clashes(rows, w)
  {
    if w.row in rows {
      var after := Put(rows, w);
      forall other | other in rows && other != w.row
        ensures !SameKey(rows[other], rows[w.row].(destId := w.id))
      {
        assert SameKey(after[other], after[w.row]) == SameKey(rows[other], rows[w.row].(destId := w.id));
      }
    }
  }

  /** What the unchecked writes leave in a row: its written id, or its old one. */
  lemma {:induction false} PutAllAt(rows: Rows, writes: seq<Write>, r: nat)
    requires r in rows
    ensures PutAll(rows, writes).Keys == rows.Keys
    ensures PutAll(rows, writes)[r] == rows[r].(destId := PutAll(rows, writes)[r].destId)
    ensures r !in RowsOf(writes) ==> PutAll(rows, writes)[r] == rows[r]
    ensures forall k :: 0 <= k < |writes| && writes[k].row == r && RowsOnce(writes) ==>
              PutAll(rows, writes)[r].destId == writes[k].id
  {
    if writes == [] {
    } else {
      var n := |writes| - 1;
      PutAllAt(rows, writes[..n], r);
      assert writes[n] in writes;
      if r in RowsOf(writes[..n]) {
        var w :| w in writes[..n] && w.row == r;
        assert w in writes;
      }
      forall k | 0 <= k < |writes| && writes[k].row == r && RowsOnce(writes)
        ensures PutAll(rows, writes)[r].destId == writes[k].id
      {
        if k < n {
          assert writes[..n][k].row == r;
        }
      }
    }
  }

  // ---------------------------------------------------------------- two phases

  predicate IsTemp(id: string) {
    |id| >= 8 && id[..8] == "temp_id_"
  }

  /** Neither the table nor the new ids use temporary ids. */
  ghost predicate Fresh(rows: Rows, finals: seq<Write>) {
    && (forall r :: r in rows ==> !IsTemp(rows[r].destId))
    && (forall k :: 0 <= k < |finals| ==> !IsTemp(finals[k].id))
  }

  /** Pairwise different temporary ids for the rows that finals writes, in any order. */
  ghost predicate Covers(temps: seq<Write>, finals: seq<Write>) {
    && RowsOnce(temps) && RowsOnce(finals) && RowsOf(temps) == RowsOf(finals)
    && (forall k :: 0 <= k < |temps| ==> IsTemp(temps[k].id))
    && (forall i, j :: 0 <= i < j < |temps| ==> temps[i].id != temps[j].id)
  }

  lemma InRowsOf(writes: seq<Write>, r: nat) returns (k: nat)
    requires r in RowsOf(writes)
    ensures k < |writes| && writes[k].row == r
  {
    var w :| w in writes && w.row == r;
    k :| 0 <= k < |writes| && writes[k] == w;
  }

  /** A row holds no temporary id after unchecked writes of lasting ids. */
  lemma LastingId(rows: Rows, finals: seq<Write>, r: nat)
    requires Fresh(rows, finals) && RowsOnce(finals) && r in rows
    ensures r in PutAll(rows, finals) && !IsTemp(PutAll(rows, finals)[r].destId)
  {
    PutAllAt(rows, finals, r);
    if r in RowsOf(finals) {
      var k := InRowsOf(finals, r);
    }
  }

  /** row is row r of the table, but with a temporary id that is its own. */
  ghost predicate HoldsTemp(rows: Rows, temps: seq<Write>, r: nat, row: Row) {
    r in rows && exists i :: 0 <= i < |temps| && temps[i].row == r && row == rows[r].(destId := temps[i].id)
  }

  /** After the first phase and k writes of the second a row has its target id, or its own temporary one. */
  lemma MidwayRow(rows: Rows, temps: seq<Write>, finals: seq<Write>, k: nat, r: nat)
    requires Covers(temps, finals) && k <= |finals| && r in rows
    ensures var mid, target := PutAll(PutAll(rows, temps), finals[..k]), PutAll(rows, finals);
            && r in mid && r in target
            && (mid[r] == target[r] || HoldsTemp(rows, temps, r, mid[r]))
  {
    var first := PutAll(rows, temps);
    PutAllAt(rows, temps, r);
    PutAllAt(first, finals[..k], r);
    PutAllAt(rows, finals, r);
    if r in RowsOf(finals[..k]) {
      var j := InRowsOf(finals[..k], r);
      assert finals[j].row == r;
    } else if r in RowsOf(temps) {
      var i := InRowsOf(temps, r);
    }
  }

  /** Likewise during the first phase, against the old row. */
  lemma FirstPhaseRow(rows: Rows, temps: seq<Write>, k: nat, r: nat)
    requires RowsOnce(temps) && k <= |temps| && r in rows
    ensures var mid := PutAll(rows, temps[..k]);
            && r in mid
            && (mid[r] == rows[r] || HoldsTemp(rows, temps, r, mid[r]))
  {
    PutAllAt(rows, temps[..k], r);
    if r in RowsOf(temps[..k]) {
      var i := InRowsOf(temps[..k], r);
      assert temps[i].row == r;
    }
  }

  /** A table between two others: each row is as in base, which has no temporary ids, or has its own temporary id. */
  ghost predicate Between(rows: Rows, base: Rows, mid: Rows, temps: seq<Write>) {
    && base.Keys == mid.Keys == rows.Keys
    && (forall r :: r in base ==> !IsTemp(base[r].destId))
    && (forall r :: r in mid ==>
          mid[r] == base[r] || HoldsTemp(rows, temps, r, mid[r]))
  }

  lemma BetweenIsDistinct(rows: Rows, base: Rows, mid: Rows, temps: seq<Write>)
    requires Between(rows, base, mid, temps) && Distinct(base)
    requires forall k :: 0 <= k < |temps| ==> IsTemp(temps[k].id)
    requires forall i, j :: 0 <= i < j < |temps| ==> temps[i].id != temps[j].id
    ensures Distinct(mid)
  {
    forall a, b | a in mid && b in mid && SameKey(mid[a], mid[b])
      ensures a == b
    {
      if mid[a] != base[a] && mid[b] != base[b] {
        var i :| 0 <= i < |temps| && temps[i].row == a && mid[a] == rows[a].(destId := temps[i].id);
        var j :| 0 <= j < |temps| && temps[j].row == b && mid[b] == rows[b].(destId := temps[j].id);
        assert i == j;
      }
    }
  }

  /**
   The two phases succeed exactly when the table they aim at has distinct ids, whatever permutation or cycle the
   new ids form and in whatever order the rows are written; then they end at that table.
   */
  lemma TwoPhasesSucceedExactly(rows: Rows, temps: seq<Write>, finals: seq<Write>)
    requires Distinct(rows) && Fresh(rows, finals) && Covers(temps, finals)
    ensures WriteAll(rows, temps) == Some(PutAll(rows, temps))
    ensures WriteAll(PutAll(rows, temps), finals).Some? <==> Distinct(PutAll(rows, finals))
    ensures WriteAll(PutAll(rows, temps), finals).Some? ==>
              WriteAll(PutAll(rows, temps), finals).value == PutAll(rows, finals)
  {
    var first, target := PutAll(rows, temps), PutAll(rows, finals);
    forall k | 0 <= k <= |temps| ensures Distinct(PutAll(rows, temps[..k])) {
      FirstPhaseIsBetween(rows, temps, finals, k);
      BetweenIsDistinct(rows, rows, PutAll(rows, temps[..k]), temps);
    }
    DistinctIsWritten(rows, temps);
    assert temps[..|temps|] == temps;
    if Distinct(target) {
      forall k | 0 <= k <= |finals| ensures Distinct(PutAll(first, finals[..k])) {
        SecondPhaseIsBetween(rows, temps, finals, k);
        BetweenIsDistinct(rows, target, PutAll(first, finals[..k]), temps);
      }
      DistinctIsWritten(first, finals);
    }
    SecondPhaseEnds(rows, temps, finals);
    if WriteAll(first, finals).Some? {
      WrittenIsDistinct(first, finals);
    }
  }

  lemma FirstPhaseIsBetween(rows: Rows, temps: seq<Write>, finals: seq<Write>, k: nat)
    requires Fresh(rows, finals) && RowsOnce(temps) && k <= |temps|
    ensures Between(rows, rows, PutAll(rows, temps[..k]), temps)
  {
    KeysStay(rows, temps[..k]);
    forall r | r in rows
      ensures var mid := PutAll(rows, temps[..k]);
              && r in mid
              && (mid[r] == rows[r] || HoldsTemp(rows, temps, r, mid[r]))
    {
      FirstPhaseRow(rows, temps, k, r);
    }
  }

  lemma SecondPhaseIsBetween(rows: Rows, temps: seq<Write>, finals: seq<Write>, k: nat)
    requires Fresh(rows, finals) && Covers(temps, finals) && k <= |finals|
    ensures Between(rows, PutAll(rows, finals), PutAll(PutAll(rows, temps), finals[..k]), temps)
  {
    KeysStay(rows, finals);
    KeysStay(rows, temps);
    KeysStay(PutAll(rows, temps), finals[..k]);
    forall r | r in rows
      ensures var mid, target := PutAll(PutAll(rows, temps), finals[..k]), PutAll(rows, finals);
              && r in target && !IsTemp(target[r].destId) && r in mid
              && (mid[r] == target[r] || HoldsTemp(rows, temps, r, mid[r]))
    {
      LastingId(rows, finals, r);
      MidwayRow(rows, temps, finals, k, r);
    }
  }

  lemma {:induction false} KeysStay(rows: Rows, writes: seq<Write>)
    ensures PutAll(rows, writes).Keys == rows.Keys
  {
    if writes == [] {
    } else {
      KeysStay(rows, writes[..|writes| - 1]);
    }
  }

  /** The second phase overwrites every temporary id. */
  lemma SecondPhaseEnds(rows: Rows, temps: seq<Write>, finals: seq<Write>)
    requires Covers(temps, finals)
    ensures PutAll(PutAll(rows, temps), finals) == PutAll(rows, finals)
  {
    var first := PutAll(rows, temps);
    KeysStay(rows, temps);
    KeysStay(first, finals);
    KeysStay(rows, finals);
    forall r | r in rows ensures PutAll(first, finals)[r] == PutAll(rows, finals)[r] {
      PutAllAt(rows, temps, r);
      PutAllAt(first, finals, r);
      PutAllAt(rows, finals, r);
      if r in RowsOf(finals) {
        var k := InRowsOf(finals, r);
      }
    }
  }

  /** Without the first phase even a swap of two ids fails on its first write. */
  lemma DirectSwapFails()
    ensures var rows: Rows := map[1 := Row("T", "t", "A", "1"), 2 := Row("T", "t", "B", "2")];
            var finals := [Write(1, "2"), Write(2, "1")];
            Distinct(PutAll(rows, finals)) && WriteAll(rows, finals) == None
  {
    var rows: Rows := map[1 := Row("T", "t", "A", "1"), 2 := Row("T", "t", "B", "2")];
    var finals := [Write(1, "2"), Write(2, "1")];
    assert finals[..1] == [Write(1, "2")] && finals[..1][..0] == [];
    assert SameKey(rows[2], rows[1].(destId := "2"));
    assert Clashes(rows, Write(1, "2"));
    assert WriteAll(rows, finals[..1]) == None;
    PutAllAt(rows, finals, 1);
    PutAllAt(rows, finals, 2);
    assert finals[0].row == 1 && finals[1].row == 2;
  }

  // ---------------------------------------------------------------- temporary ids

  function TempId(i: nat): string {
    "temp_id_" + Digits(i)
  }

  lemma TempIdsDiffer(i: nat, j: nat)
    ensures IsTemp(TempId(i)) && (TempId(i) == TempId(j) ==> i == j)
  {
    assert TempId(i)[..8] == "temp_id_";
    assert TempId(i)[8..] == Digits(i) && TempId(j)[8..] == Digits(j);
    NumeralOfDigits(i);
    NumeralOfDigits(j);
  }

  // ---------------------------------------------------------------- from the incoming records to the changes

  function Names(incoming: seq<Incoming>): seq<string> {
    seq(|incoming|, i requires 0 <= i < |incoming| => incoming[i].name)
  }

  /** The id the last record of that name brings; the empty string for a name nobody brings. */
  function LatestId(incoming: seq<Incoming>, name: string): string {
    if incoming == [] then ""
    else
      var last := incoming[|incoming| - 1];
      if last.name == name then last.internalId else LatestId(incoming[..|incoming| - 1], name)
  }

  function RowsNamed(rows: Rows, kind: string, value: string): set<nat> {
    set r | r in rows && rows[r].kind == kind && rows[r].value == value
  }

  predicate IsLeast(s: set<nat>, r: nat) {
    r in s && forall t :: t in s ==> r <= t
  }

  lemma {:induction false} LeastExists(s: set<nat>)
    requires s != {}
    ensures exists r :: IsLeast(s, r)
  {
    var r :| r in s;
    var rest := s - {r};
    assert s == rest + {r};
    if rest == {} {
      assert IsLeast(s, r);
    } else {
      LeastExists(rest);
      var least :| IsLeast(rest, least);
      assert IsLeast(s, if r <= least then r else least);
    }
  }

  /** The first row of that kind and value, in the order of row ids. */
  function FirstRow(rows: Rows, kind: string, value: string): (r: Option<nat>)
    ensures r.Some? ==> r.value in RowsNamed(rows, kind, value)
  {
    var named := RowsNamed(rows, kind, value);
    if named == {} then None
    else
      LeastExists(named);
      var r :| IsLeast(named, r);
      Some(r)
  }

  /** The change a name asks for: its first row, when that has another id. */
  function ChangeOf(rows: Rows, kind: string, incoming: seq<Incoming>, name: string): seq<Change> {
    var r := FirstRow(rows, kind, name);
    if r.Some? && rows[r.value].destId != LatestId(incoming, name) then [Change(r.value, LatestId(incoming, name))]
    else []
  }

  function Changes(rows: Rows, kind: string, incoming: seq<Incoming>, names: seq<string>): seq<Change> {
    if names == [] then []
    else Changes(rows, kind, incoming, names[..|names| - 1]) + ChangeOf(rows, kind, incoming, names[|names| - 1])
  }

  function TempWrites(changes: seq<Change>): seq<Write> {
    seq(|changes|, i requires 0 <= i < |changes| => Write(changes[i].row, TempId(i)))
  }

  function FinalWrites(changes: seq<Change>): seq<Write> {
    seq(|changes|, i requires 0 <= i < |changes| => Write(changes[i].row, changes[i].newId))
  }

  /** The whole update in one transaction; None when it is rolled back. */
  function Update(rows: Rows, kind: string, incoming: seq<Incoming>): Option<Rows> {
    var changes := Changes(rows, kind, incoming, FirstSeen(Names(incoming)));
    var first := WriteAll(rows, TempWrites(changes));
    if first == None then None else WriteAll(first.value, FinalWrites(changes))
  }

  // ---------------------------------------------------------------- what the update aims at

  /** Whether the update is about this row. */
  predicate Matched(rows: Rows, kind: string, names: seq<string>, r: nat) {
    r in rows && rows[r].kind == kind && rows[r].value in names && FirstRow(rows, kind, rows[r].value) == Some(r)
  }

  /** Every matched row holds the latest id of its value; every other row is as before. */
  function Target(rows: Rows, kind: string, incoming: seq<Incoming>, names: seq<string>): Rows {
    map r | r in rows ::
      if Matched(rows, kind, names, r) then rows[r].(destId := LatestId(incoming, rows[r].value)) else rows[r]
  }

  ghost predicate IsChange(rows: Rows, kind: string, incoming: seq<Incoming>, names: seq<string>, c: Change) {
    && Matched(rows, kind, names, c.row)
    && c.newId == LatestId(incoming, rows[c.row].value) && rows[c.row].destId != c.newId
  }

  lemma {:induction false} ChangesAreChanges(rows: Rows, kind: string, incoming: seq<Incoming>, names: seq<string>)
    ensures forall c :: c in Changes(rows, kind, incoming, names) ==> IsChange(rows, kind, incoming, names, c)
  {
    if names == [] {
    } else {
      var front, last := names[..|names| - 1], names[|names| - 1];
      ChangesAreChanges(rows, kind, incoming, front);
      forall c | c in Changes(rows, kind, incoming, names)
        ensures IsChange(rows, kind, incoming, names, c)
      {
        if c in Changes(rows, kind, incoming, front) {
          assert IsChange(rows, kind, incoming, front, c);
        } else {
          assert c in ChangeOf(rows, kind, incoming, last);
        }
      }
    }
  }

  lemma {:induction false} EveryChangeIsListed(rows: Rows, kind: string, incoming: seq<Incoming>, names: seq<string>,
                                               c: Change)
    requires IsChange(rows, kind, incoming, names, c)
    ensures c in Changes(rows, kind, incoming, names)
  {
    var front, last := names[..|names| - 1], names[|names| - 1];
    if rows[c.row].value == last {
      assert c in ChangeOf(rows, kind, incoming, last);
    } else {
      EveryChangeIsListed(rows, kind, incoming, front, c);
    }
  }

  lemma {:induction false} ChangesOnce(rows: Rows, kind: string, incoming: seq<Incoming>, names: seq<string>)
    requires NoDup(names)
    ensures forall i, j :: 0 <= i < j < |Changes(rows, kind, incoming, names)| ==>
              Changes(rows, kind, incoming, names)[i].row != Changes(rows, kind, incoming, names)[j].row
  {
    if names == [] {
    } else {
      var front, last := names[..|names| - 1], names[|names| - 1];
      ChangesOnce(rows, kind, incoming, front);
      ChangesAreChanges(rows, kind, incoming, front);
      forall c | c in Changes(rows, kind, incoming, front)
        ensures c.row in rows && rows[c.row].value != last
      {
        assert IsChange(rows, kind, incoming, front, c);
      }
    }
  }

  lemma WritesOfChanges(changes: seq<Change>)
    requires forall i, j :: 0 <= i < j < |changes| ==> changes[i].row != changes[j].row
    ensures Covers(TempWrites(changes), FinalWrites(changes))
  {
    var temps, finals := TempWrites(changes), FinalWrites(changes);
    forall i, j: nat ensures IsTemp(TempId(i)) && (TempId(i) == TempId(j) ==> i == j) {
      TempIdsDiffer(i, j);
    }
    forall r ensures r in RowsOf(temps) <==> r in RowsOf(finals) {
      if r in RowsOf(temps) {
        var k := InRowsOf(temps, r);
        assert finals[k] in finals && finals[k].row == r;
      }
      if r in RowsOf(finals) {
        var k := InRowsOf(finals, r);
        assert temps[k] in temps && temps[k].row == r;
      }
    }
  }

  lemma WrittenExactlyChanged(rows: Rows, kind: string, incoming: seq<Incoming>, names: seq<string>, r: nat)
    requires r in rows
    ensures r in RowsOf(FinalWrites(Changes(rows, kind, incoming, names))) <==>
              IsChange(rows, kind, incoming, names, Change(r, LatestId(incoming, rows[r].value)))
  {
    var changes := Changes(rows, kind, incoming, names);
    var finals, c := FinalWrites(changes), Change(r, LatestId(incoming, rows[r].value));
    ChangesAreChanges(rows, kind, incoming, names);
    if r in RowsOf(finals) {
      var k := InRowsOf(finals, r);
      assert changes[k] in changes;
    }
    if IsChange(rows, kind, incoming, names, c) {
      EveryChangeIsListed(rows, kind, incoming, names, c);
      var k :| 0 <= k < |changes| && changes[k] == c;
      assert finals[k] in finals && finals[k].row == r;
    }
  }

  lemma FinalsReachTarget(rows: Rows, kind: string, incoming: seq<Incoming>, names: seq<string>)
    requires NoDup(names)
    ensures PutAll(rows, FinalWrites(Changes(rows, kind, incoming, names))) == Target(rows, kind, incoming, names)
  {
    var changes := Changes(rows, kind, incoming, names);
    var finals := FinalWrites(changes);
    ChangesOnce(rows, kind, incoming, names);
    ChangesAreChanges(rows, kind, incoming, names);
    KeysStay(rows, finals);
    forall r | r in rows ensures PutAll(rows, finals)[r] == Target(rows, kind, incoming, names)[r] {
      PutAllAt(rows, finals, r);
      WrittenExactlyChanged(rows, kind, incoming, names, r);
      if r in RowsOf(finals) {
        var k := InRowsOf(finals, r);
        assert changes[k] in changes && IsChange(rows, kind, incoming, names, changes[k]);
      }
    }
  }

  /** No id in the table or among the incoming ones looks like a temporary one. */
  ghost predicate NoTemps(rows: Rows, incoming: seq<Incoming>) {
    && (forall r :: r in rows ==> !IsTemp(rows[r].destId))
    && (forall k :: 0 <= k < |incoming| ==> !IsTemp(incoming[k].internalId))
  }

  lemma {:induction false} LatestIsLasting(incoming: seq<Incoming>, name: string)
    requires forall k :: 0 <= k < |incoming| ==> !IsTemp(incoming[k].internalId)
    ensures !IsTemp(LatestId(incoming, name))
  {
    if incoming == [] {
    } else {
      LatestIsLasting(incoming[..|incoming| - 1], name);
    }
  }

  /**
   The update succeeds exactly when its target has distinct ids, that is, when the matched rows get different ids
   and no other row of the same kind and display holds one of them; it then ends at the target.
   */
  lemma UpdateReachesTargetExactly(rows: Rows, kind: string, incoming: seq<Incoming>)
    requires Distinct(rows) && NoTemps(rows, incoming)
    ensures var target := Target(rows, kind, incoming, FirstSeen(Names(incoming)));
            Update(rows, kind, incoming) == if Distinct(target) then Some(target) else None
  {
    var names := FirstSeen(Names(incoming));
    var changes := Changes(rows, kind, incoming, names);
    ChangesOnce(rows, kind, incoming, names);
    ChangesAreChanges(rows, kind, incoming, names);
    forall k | 0 <= k < |changes| ensures !IsTemp(changes[k].newId) {
      assert changes[k] in changes;
      LatestIsLasting(incoming, rows[changes[k].row].value);
    }
    WritesOfChanges(changes);
    FinalsReachTarget(rows, kind, incoming, names);
    TwoPhasesSucceedExactly(rows, TempWrites(changes), FinalWrites(changes));
  }

  /** Two matched rows with the same display get different ids. */
  predicate IncomingDistinct(rows: Rows, kind: string, incoming: seq<Incoming>, names: seq<string>) {
    forall a, b :: a in rows && b in rows && Matched(rows, kind, names, a) && Matched(rows, kind, names, b) ==>
      (rows[a].display == rows[b].display && LatestId(incoming, rows[a].value) == LatestId(incoming, rows[b].value) ==>
          a == b)
  }

  /** No row outside the update holds an id that a matched row with its kind and display is to get. */
  predicate TargetsUnheld(rows: Rows, kind: string, incoming: seq<Incoming>, names: seq<string>) {
    forall a, b :: a in rows && b in rows && Matched(rows, kind, names, a) && !Matched(rows, kind, names, b) ==>
      (rows[b].kind == kind && rows[a].display == rows[b].display ==>
          rows[b].destId != LatestId(incoming, rows[a].value))
  }

  lemma TargetIsDistinctExactly(rows: Rows, kind: string, incoming: seq<Incoming>, names: seq<string>)
    requires Distinct(rows)
    ensures Distinct(Target(rows, kind, incoming, names)) <==>
              IncomingDistinct(rows, kind, incoming, names) && TargetsUnheld(rows, kind, incoming, names)
  {
    var target := Target(rows, kind, incoming, names);
    if IncomingDistinct(rows, kind, incoming, names) && TargetsUnheld(rows, kind, incoming, names) {
      forall a, b | a in target && b in target && SameKey(target[a], target[b]) ensures a == b {
        assert SameKey(rows[a], rows[b]) || Matched(rows, kind, names, a) || Matched(rows, kind, names, b);
      }
    }
    if Distinct(target) {
      forall a, b | a in rows && b in rows && Matched(rows, kind, names, a) && rows[b].kind == kind
        && rows[a].display == rows[b].display && target[b].destId == LatestId(incoming, rows[a].value)
        ensures a == b
      {
        assert SameKey(target[a], target[b]);
      }
    }
  }

  lemma TargetAsksNothing(rows: Rows, kind: string, incoming: seq<Incoming>, names: seq<string>, c: Change)
    ensures !IsChange(Target(rows, kind, incoming, names), kind, incoming, names, c)
  {
    var target := Target(rows, kind, incoming, names);
    if c.row in target {
      assert RowsNamed(target, kind, target[c.row].value) == RowsNamed(rows, kind, rows[c.row].value);
    }
  }

  /** A second update with the same records has nothing left to do. */
  lemma UpdateIsIdempotent(rows: Rows, kind: string, incoming: seq<Incoming>)
    requires Distinct(rows) && NoTemps(rows, incoming) && Update(rows, kind, incoming).Some?
    ensures Update(Update(rows, kind, incoming).value, kind, incoming) == Update(rows, kind, incoming)
  {
    UpdateReachesTargetExactly(rows, kind, incoming);
    var names := FirstSeen(Names(incoming));
    var target := Target(rows, kind, incoming, names);
    var changes := Changes(target, kind, incoming, names);
    ChangesAreChanges(target, kind, incoming, names);
    if changes != [] {
      assert changes[0] in changes;
      TargetAsksNothing(rows, kind, incoming, names, changes[0]);
    }
  }

  // ---------------------------------------------------------------- the update in terms of rows and records

  /** No two rows share kind, display and id. */
  predicate IdsDiffer(rows: Rows) {
    forall a, b :: a in rows && b in rows && a != b ==>
      rows[a].kind != rows[b].kind || rows[a].display != rows[b].display || rows[a].destId != rows[b].destId
  }

  predicate IsBrought(incoming: seq<Incoming>, name: string) {
    exists i :: 0 <= i < |incoming| && incoming[i].name == name
  }

  /** The last record of that name has this id. */
  predicate Brings(incoming: seq<Incoming>, name: string, id: string) {
    exists i :: 0 <= i < |incoming| && incoming[i].name == name && incoming[i].internalId == id
                && forall j :: i < j < |incoming| ==> incoming[j].name != name
  }

  /** The row is of the kind and the first one with its value. */
  predicate IsFirst(rows: Rows, kind: string, r: nat) {
    && r in rows && rows[r].kind == kind
    && forall s :: s in rows && rows[s].kind == kind && rows[s].value == rows[r].value ==> r <= s
  }

  /** The row is to have this id: that of the last record of its value if it is the first one, else the id it has. */
  predicate IsDueId(rows: Rows, kind: string, incoming: seq<Incoming>, r: nat, id: string) {
    r in rows
    && if IsFirst(rows, kind, r) && IsBrought(incoming, rows[r].value) then Brings(incoming, rows[r].value, id)
       else id == rows[r].destId
  }

  lemma {:induction false} LatestRecord(incoming: seq<Incoming>, name: string) returns (i: nat)
    requires IsBrought(incoming, name)
    ensures i < |incoming| && incoming[i].name == name && incoming[i].internalId == LatestId(incoming, name)
    ensures forall j :: i < j < |incoming| ==> incoming[j].name != name
  {
    var n := |incoming| - 1;
    if incoming[n].name == name {
      i := n;
    } else {
      var k :| 0 <= k < |incoming| && incoming[k].name == name;
      assert incoming[..n][k].name == name;
      i := LatestRecord(incoming[..n], name);
      forall j | i < j < |incoming| ensures incoming[j].name != name {
        assert j < n ==> incoming[..n][j] == incoming[j];
      }
    }
  }

  lemma LatestIsBrought(incoming: seq<Incoming>, name: string)
    requires IsBrought(incoming, name)
    ensures Brings(incoming, name, LatestId(incoming, name))
  {
    var i := LatestRecord(incoming, name);
  }

  lemma BroughtOnce(incoming: seq<Incoming>, name: string, a: string, b: string)
    requires Brings(incoming, name, a) && Brings(incoming, name, b)
    ensures a == b
  {
    var i :| 0 <= i < |incoming| && incoming[i].name == name && incoming[i].internalId == a
             && forall j :: i < j < |incoming| ==> incoming[j].name != name;
    var k :| 0 <= k < |incoming| && incoming[k].name == name && incoming[k].internalId == b
             && forall j :: k < j < |incoming| ==> incoming[j].name != name;
    assert i == k;
  }

  lemma MatchedIsFirst(rows: Rows, kind: string, incoming: seq<Incoming>, r: nat)
    requires r in rows
    ensures Matched(rows, kind, FirstSeen(Names(incoming)), r) <==>
              IsFirst(rows, kind, r) && IsBrought(incoming, rows[r].value)
  {
    var named, value := RowsNamed(rows, kind, rows[r].value), rows[r].value;
    assert forall s :: s in named <==> s in rows && rows[s].kind == kind && rows[s].value == value;
    assert value in Names(incoming) <==> IsBrought(incoming, value) by {
      if i :| 0 <= i < |incoming| && incoming[i].name == value {
        assert Names(incoming)[i] == value;
      }
    }
    if IsFirst(rows, kind, r) {
      assert IsLeast(named, r);
    }
  }

  lemma TargetIsDue(rows: Rows, kind: string, incoming: seq<Incoming>, r: nat, id: string)
    requires r in rows
    ensures IsDueId(rows, kind, incoming, r, id) <==>
              id == Target(rows, kind, incoming, FirstSeen(Names(incoming)))[r].destId
  {
    MatchedIsFirst(rows, kind, incoming, r);
    if IsFirst(rows, kind, r) && IsBrought(incoming, rows[r].value) {
      LatestIsBrought(incoming, rows[r].value);
      if Brings(incoming, rows[r].value, id) {
        BroughtOnce(incoming, rows[r].value, id, LatestId(incoming, rows[r].value));
      }
    }
  }

  /** Two rows of one kind and display would end with the same id. */
  ghost predicate Collide(rows: Rows, kind: string, incoming: seq<Incoming>, a: nat, b: nat, id: string) {
    && a != b && IsDueId(rows, kind, incoming, a, id) && IsDueId(rows, kind, incoming, b, id)
    && rows[a].kind == rows[b].kind && rows[a].display == rows[b].display
  }

  lemma CollisionIsClash(rows: Rows, kind: string, incoming: seq<Incoming>, a: nat, b: nat, id: string)
    requires Collide(rows, kind, incoming, a, b, id)
    ensures !Distinct(Target(rows, kind, incoming, FirstSeen(Names(incoming))))
  {
    var target := Target(rows, kind, incoming, FirstSeen(Names(incoming)));
    TargetIsDue(rows, kind, incoming, a, id);
    TargetIsDue(rows, kind, incoming, b, id);
    assert SameKey(target[a], target[b]);
  }

  lemma ClashIsCollision(rows: Rows, kind: string, incoming: seq<Incoming>, a: nat, b: nat)
    requires var target := Target(rows, kind, incoming, FirstSeen(Names(incoming)));
             a in target && b in target && a != b && SameKey(target[a], target[b])
    ensures exists id :: Collide(rows, kind, incoming, a, b, id)
  {
    var target := Target(rows, kind, incoming, FirstSeen(Names(incoming)));
    TargetIsDue(rows, kind, incoming, a, target[a].destId);
    TargetIsDue(rows, kind, incoming, b, target[b].destId);
    assert Collide(rows, kind, incoming, a, b, target[a].destId);
  }

  /** Some two rows collide. */
  ghost predicate SomeCollide(rows: Rows, kind: string, incoming: seq<Incoming>) {
    exists a, b, id :: Collide(rows, kind, incoming, a, b, id)
  }

  lemma CollidesExactly(rows: Rows, kind: string, incoming: seq<Incoming>)
    ensures SomeCollide(rows, kind, incoming) <==>
              !Distinct(Target(rows, kind, incoming, FirstSeen(Names(incoming))))
  {
    var target := Target(rows, kind, incoming, FirstSeen(Names(incoming)));
    if SomeCollide(rows, kind, incoming) {
      var a, b, id :| Collide(rows, kind, incoming, a, b, id);
      CollisionIsClash(rows, kind, incoming, a, b, id);
    }
    if !Distinct(target) {
      var a, b :| a in target && b in target && SameKey(target[a], target[b]) && a != b;
      ClashIsCollision(rows, kind, incoming, a, b);
    }
  }

  /** Every row has its due id, and nothing else of it changed. */
  ghost predicate HoldsDueIds(rows: Rows, kind: string, incoming: seq<Incoming>, after: Rows) {
    && after.Keys == rows.Keys
    && forall r :: r in rows ==>
         IsDueId(rows, kind, incoming, r, after[r].destId) && after[r] == rows[r].(destId := after[r].destId)
  }

  lemma TargetHoldsDueIds(rows: Rows, kind: string, incoming: seq<Incoming>)
    ensures HoldsDueIds(rows, kind, incoming, Target(rows, kind, incoming, FirstSeen(Names(incoming))))
  {
    var target := Target(rows, kind, incoming, FirstSeen(Names(incoming)));
    forall r | r in rows
      ensures IsDueId(rows, kind, incoming, r, target[r].destId) && target[r] == rows[r].(destId := target[r].destId)
    {
      TargetIsDue(rows, kind, incoming, r, target[r].destId);
    }
  }

  lemma DistinctIsDiffering(rows: Rows)
    ensures Distinct(rows) <==> IdsDiffer(rows)
  {
    if Distinct(rows) {
      forall a, b | a in rows && b in rows && a != b
        ensures rows[a].kind != rows[b].kind || rows[a].display != rows[b].display || rows[a].destId != rows[b].destId
      {
        assert !SameKey(rows[a], rows[b]);
      }
    }
  }

  /**
   What an update does: every row ends with its due id and nothing else of it changes; it is rolled back exactly when
   two rows of one kind and display would end with the same id.
   */
  lemma UpdateExactly(rows: Rows, kind: string, incoming: seq<Incoming>)
    requires IdsDiffer(rows) && NoTemps(rows, incoming)
    ensures Update(rows, kind, incoming) == None <==> SomeCollide(rows, kind, incoming)
    ensures Update(rows, kind, incoming).Some? ==>
              HoldsDueIds(rows, kind, incoming, Update(rows, kind, incoming).value)
  {
    DistinctIsDiffering(rows);
    UpdateReachesTargetExactly(rows, kind, incoming);
    CollidesExactly(rows, kind, incoming);
    TargetHoldsDueIds(rows, kind, incoming);
  }

  // ---------------------------------------------------------------- the update in place

  class DestinationAttributes {
    var rows: Rows

    /** One bulk update, row by row; it stops at the first violation. */
    method BulkUpdate(writes: seq<Write>) returns (ok: bool)
      modifies this
      ensures ok == WriteAll(old(rows), writes).Some?
      ensures ok ==> rows == WriteAll(old(rows), writes).value
    {
      for i := 0 to |writes|
        invariant WriteAll(old(rows), writes[..i]) == Some(rows)
      {
        assert writes[..i + 1][..i] == writes[..i];
        if Clashes(rows, writes[i]) {
          FailsForGood(old(rows), writes, i + 1);
          return false;
        }
        rows := Put(rows, writes[i]);
      }
      assert writes[..|writes|] == writes;
      return true;
    }

    /** Both bulk updates in one transaction. */
    method UpdateInTwoPhases(temps: seq<Write>, finals: seq<Write>) returns (ok: bool)
      modifies this
      ensures var first := WriteAll(old(rows), temps);
              var last := if first == None then None else WriteAll(first.value, finals);
              ok == last.Some? && rows == if ok then last.value else old(rows)
    {
      var saved := rows;
      ok := BulkUpdate(temps);
      if ok {
        ok := BulkUpdate(finals);
      }
      if !ok {
        rows := saved;
      }
    }

    /** update_destination_attributes. */
    method UpdateDestinationAttributes(kind: string, incoming: seq<Incoming>) returns (ok: bool)
      modifies this
      ensures ok == Update(old(rows), kind, incoming).Some?
      ensures rows == if ok then Update(old(rows), kind, incoming).value else old(rows)
    {
      var names, latest := ValueToAttributeMap(incoming);
      var changes := ChangedAttributes(kind, incoming, names, latest);
      if changes == [] {
        return true;
      }
      var temps, finals := WritesFor(changes);
      ok := UpdateInTwoPhases(temps, finals);
    }

    /** The changes the names ask for, in order. */
    method ChangedAttributes(kind: string, ghost incoming: seq<Incoming>, names: seq<string>,
                             latest: map<string, string>)
      returns (changes: seq<Change>)
      requires forall name :: name in names ==> name in latest && latest[name] == LatestId(incoming, name)
      ensures changes == Changes(rows, kind, incoming, names)
    {
      changes := [];
      for i := 0 to |names|
        invariant changes == Changes(rows, kind, incoming, names[..i])
      {
        assert names[..i + 1][..i] == names[..i];
        assert names[i] in names;
        var existing := FirstRow(rows, kind, names[i]);
        if existing.Some? && rows[existing.value].destId != latest[names[i]] {
          changes := changes + [Change(existing.value, latest[names[i]])];
        }
      }
      assert names[..|names|] == names;
    }
  }

  /** The writes of both phases. */
  method WritesFor(changes: seq<Change>) returns (temps: seq<Write>, finals: seq<Write>)
    ensures temps == TempWrites(changes) && finals == FinalWrites(changes)
  {
    temps, finals := [], [];
    for i := 0 to |changes|
      invariant temps == TempWrites(changes)[..i] && finals == FinalWrites(changes)[..i]
    {
      temps := temps + [Write(changes[i].row, TempId(i))];
      finals := finals + [Write(changes[i].row, changes[i].newId)];
    }
  }

  lemma FailsForGood(rows: Rows, writes: seq<Write>, i: nat)
    requires i <= |writes| && WriteAll(rows, writes[..i]) == None
    ensures WriteAll(rows, writes) == None
    decreases |writes| - i
  {
    if i < |writes| {
      assert writes[..i + 1][..i] == writes[..i];
      FailsForGood(rows, writes, i + 1);
    } else {
      assert writes[..i] == writes;
    }
  }

  /** names and latest hold the dictionary of the records: the names in insertion order, the last id of each. */
  ghost predicate MapsNames(incoming: seq<Incoming>, names: seq<string>, latest: map<string, string>) {
    && names == FirstSeen(Names(incoming))
    && (forall name :: name in names <==> name in latest)
    && (forall name :: name in latest ==> latest[name] == LatestId(incoming, name))
  }

  lemma GatherOneMore(incoming: seq<Incoming>, i: nat, names: seq<string>, latest: map<string, string>)
    requires i < |incoming| && MapsNames(incoming[..i], names, latest)
    ensures var r := incoming[i];
            MapsNames(incoming[..i + 1], if r.name in latest then names else names + [r.name],
                      latest[r.name := r.internalId])
  {
    assert incoming[..i + 1][..i] == incoming[..i];
    assert Names(incoming[..i + 1])[..i] == Names(incoming[..i]);
  }

  /** The dictionary value_to_attribute_map. */
  method ValueToAttributeMap(incoming: seq<Incoming>) returns (names: seq<string>, latest: map<string, string>)
    ensures MapsNames(incoming, names, latest)
  {
    names, latest := [], map[];
    for i := 0 to |incoming|
      invariant MapsNames(incoming[..i], names, latest)
    {
      GatherOneMore(incoming, i, names, latest);
      if incoming[i].name !in latest {
        names := names + [incoming[i].name];
      }
      latest := latest[incoming[i].name := incoming[i].internalId];
    }
    assert incoming[..|incoming|] == incoming;
  }
}
