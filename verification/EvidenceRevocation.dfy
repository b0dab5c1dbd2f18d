/**
 * The two revoking loops visit evidence rows one at a time, and cancel a run only once. Which
 * installation is then sent to recovery can depend on the order of the rows; this module says exactly
 * when it does (src/db/agent-integration-schema.ts:1138-1167).
 */
module EvidenceRevocation {
  import opened Wrappers
  import opened EvidenceTables
  import opened EvidenceRepair

  ghost predicate DistinctIds(rows: seq<Revoked>) {
    forall j, k | 0 <= j < k < |rows| :: rows[j].id != rows[k].id
  }

  // ---------- one row at a time ----------

  lemma RevokeNothing(t: Tables, unbind: bool, now: int)
    ensures Revoke(t, [], unbind, now) == t && AffectedBy(t, []) == {}
  {
    var s := Revoke(t, [], unbind, now);
    assert Ids([]) == {} && MarkedBy(t.runs, []) == {};
    assert s.runs == t.runs && s.evidence == t.evidence && s.components == t.components
      && s.installations == t.installations;
  }

  lemma NamesAddUp(a: seq<Revoked>, row: Revoked, run: string)
    ensures NamesRun(a + [row], run) <==> NamesRun(a, run) || row.run == Some(run)
  {
    if NamesRun(a, run) {
      var k :| 0 <= k < |a| && a[k].run == Some(run);
      assert (a + [row])[k].run == Some(run);
    }
    if row.run == Some(run) { assert (a + [row])[|a|].run == Some(run); }
  }

  lemma IdsAddUp(a: seq<Revoked>, row: Revoked)
    ensures Ids(a + [row]) == Ids(a) + {row.id}
  {
    forall x | x in Ids(a) + {row.id} ensures x in Ids(a + [row]) {
      if x == row.id { assert (a + [row])[|a|].id == x; }
      else {
        var k :| 0 <= k < |a| && a[k].id == x;
        assert (a + [row])[k].id == x;
      }
    }
  }

  lemma MarksAddUp(t: Tables, a: seq<Revoked>, row: Revoked, unbind: bool, now: int)
    ensures MarkedBy(t.runs, a + [row]) == MarkedBy(t.runs, a) + MarkedBy(Revoke(t, a, unbind, now).runs, [row])
  {
    var s := Revoke(t, a, unbind, now);
    var both := a + [row];
    var n := |a|;
    assert both[..n] == a && [row][..0] == [];
    assert VerifiedIn(s.runs, row.run) <==> VerifiedIn(t.runs, row.run) && !NamesRun(a, row.run.value);
    forall k | 0 <= k < n ensures both[..k] == a[..k] && both[k] == a[k] {}
    forall i | i in MarkedBy(t.runs, both)
      ensures i in MarkedBy(t.runs, a) + MarkedBy(s.runs, [row])
    {
      var k :| 0 <= k < |both| && VerifiedIn(t.runs, both[k].run) && !NamesRun(both[..k], both[k].run.value)
        && both[k].installation == i;
      if k < n { assert a[..k] == both[..k]; } else { assert [row][0] == row; }
    }
    forall i | i in MarkedBy(t.runs, a) + MarkedBy(s.runs, [row])
      ensures i in MarkedBy(t.runs, both)
    {
      if i in MarkedBy(t.runs, a) {
        var k :| 0 <= k < n && VerifiedIn(t.runs, a[k].run) && !NamesRun(a[..k], a[k].run.value)
          && a[k].installation == i;
        assert both[..k] == a[..k] && both[k] == a[k];
      } else {
        assert both[n] == row && both[n].installation == i;
      }
    }
  }

  lemma RunRowsAddUp(t: Tables, a: seq<Revoked>, row: Revoked, unbind: bool, now: int)
    ensures Revoke(Revoke(t, a, unbind, now), [row], unbind, now).runs == Revoke(t, a + [row], unbind, now).runs
  {
    hide MarkedBy, AffectedBy, NamesRun, Ids;
    var s := Revoke(t, a, unbind, now);
    forall r | r in t.runs
      ensures Revoke(s, [row], unbind, now).runs[r] == Revoke(t, a + [row], unbind, now).runs[r]
    {
      NamesAddUp(a, row, r);
      NamesAddUp([], row, r);
      NamesNothing(r);
      assert [] + [row] == [row];
    }
  }

  lemma NamesNothing(run: string)
    ensures !NamesRun([], run) && Ids([]) == {}
  {
  }

  lemma EvidenceRowsAddUp(t: Tables, a: seq<Revoked>, row: Revoked, unbind: bool, now: int)
    requires row.id !in Ids(a)
    ensures Revoke(Revoke(t, a, unbind, now), [row], unbind, now).evidence == Revoke(t, a + [row], unbind, now).evidence
  {
    hide MarkedBy, AffectedBy, NamesRun, Ids, ReasonOf, RevokedEvidence, InstallationAfter, PointsInto;
    ReasonsAddUp(a, row);
    ReasonsAddUp([], row);
    assert [] + [row] == [row] && Ids([row]) == {row.id};
    var once := Revoke(t, a, unbind, now);
    assert once.evidence.Keys == t.evidence.Keys;
  }

  /** A new row gives its own reason and leaves those of the rows before it. */
  lemma ReasonsAddUp(a: seq<Revoked>, row: Revoked)
    requires row.id !in Ids(a)
    ensures Ids(a + [row]) == Ids(a) + {row.id} && Ids([]) == {}
    ensures ReasonOf(a + [row], row.id) == row.reason
    ensures forall id | id in Ids(a) :: ReasonOf(a + [row], id) == ReasonOf(a, id)
  {
    assert (a + [row])[..|a|] == a;
    IdsAddUp(a, row);
  }

  lemma PointsAddUp(resultId: Option<string>, a: set<string>, b: set<string>)
    ensures PointsInto(resultId, a + b) <==> PointsInto(resultId, a) || PointsInto(resultId, b)
    ensures !PointsInto(None, a)
  {
  }

  lemma InstallationRowsAddUp(t: Tables, a: seq<Revoked>, row: Revoked, unbind: bool, now: int)
    ensures Revoke(Revoke(t, a, unbind, now), [row], unbind, now).installations
      == Revoke(t, a + [row], unbind, now).installations
  {
    hide MarkedBy, AffectedBy, NamesRun, Ids, PointsInto, InstallationAfter;
    var s := Revoke(t, a, unbind, now);
    IdsAddUp(a, row);
    IdsAddUp([], row);
    NamesNothing("");
    assert [] + [row] == [row];
    assert Ids([row]) == {row.id};
    MarksAddUp(t, a, row, unbind, now);
    forall i | i in t.installations
      ensures Revoke(s, [row], unbind, now).installations[i] == Revoke(t, a + [row], unbind, now).installations[i]
    {
      var x := t.installations[i];
      var d1 := PointsInto(x.resultId, Ids(a));
      PointsAddUp(x.resultId, Ids(a), {row.id});
      PointsAddUp(None, {row.id}, {});
      VisitedTwice(x, i in MarkedBy(t.runs, a), d1, i in MarkedBy(s.runs, [row]),
                   PointsInto(if d1 then None else x.resultId, {row.id}), now);
    }
  }

  lemma ComponentRowsAddUp(t: Tables, a: seq<Revoked>, row: Revoked, unbind: bool, now: int)
    ensures Revoke(Revoke(t, a, unbind, now), [row], unbind, now).components
      == Revoke(t, a + [row], unbind, now).components
  {
    hide MarkedBy, AffectedBy, NamesRun, Ids;
    IdsAddUp(a, row);
    IdsAddUp([], row);
    NamesNothing("");
    assert [] + [row] == [row];
  }

  /** Visiting one more row continues the effect of the rows visited before it. */
  lemma RevocationAddsUp(t: Tables, a: seq<Revoked>, row: Revoked, unbind: bool, now: int)
    requires row.id !in Ids(a)
    ensures Revoke(Revoke(t, a, unbind, now), [row], unbind, now) == Revoke(t, a + [row], unbind, now)
  {
    hide MarkedBy, AffectedBy, NamesRun, Ids;
    RunRowsAddUp(t, a, row, unbind, now);
    EvidenceRowsAddUp(t, a, row, unbind, now);
    ComponentRowsAddUp(t, a, row, unbind, now);
    InstallationRowsAddUp(t, a, row, unbind, now);
  }

  lemma AffectedAddUp(t: Tables, a: seq<Revoked>, row: Revoked, unbind: bool, now: int)
    ensures AffectedBy(t, a + [row]) == AffectedBy(t, a) + AffectedBy(Revoke(t, a, unbind, now), [row])
  {
    hide MarkedBy, NamesRun, Ids, Owners, PointsInto, InstallationAfter;
    IdsAddUp(a, row);
    IdsAddUp([], row);
    NamesNothing("");
    assert [] + [row] == [row];
    assert Ids([row]) == {row.id};
    OwnersAddUp(a, row);
    var s := Revoke(t, a, unbind, now);
    forall c | c in t.components ensures PointsInto(t.components[c].resultId, Ids(a + [row]))
      <==> PointsInto(t.components[c].resultId, Ids(a)) || PointsInto(s.components[c].resultId, Ids([row]))
    {
      PointsAddUp(t.components[c].resultId, Ids(a), {row.id});
      PointsAddUp(None, {row.id}, {});
    }
    forall i | i in t.installations ensures PointsInto(t.installations[i].resultId, Ids(a + [row]))
      <==> PointsInto(t.installations[i].resultId, Ids(a)) || PointsInto(s.installations[i].resultId, Ids([row]))
    {
      PointsAddUp(t.installations[i].resultId, Ids(a), {row.id});
      PointsAddUp(None, {row.id}, {});
      VisitedTwice(t.installations[i], i in MarkedBy(t.runs, a), PointsInto(t.installations[i].resultId, Ids(a)), false,
                   false, now);
    }
    LinkedAddUp(t, s, Ids(a), Ids([row]), Ids(a + [row]));
  }

  lemma LinkedAddUp(t: Tables, s: Tables, a: set<string>, b: set<string>, ab: set<string>)
    requires s.components.Keys == t.components.Keys && s.installations.Keys == t.installations.Keys
    requires forall c | c in t.components ::
      PointsInto(t.components[c].resultId, ab) <==>
        PointsInto(t.components[c].resultId, a) || PointsInto(s.components[c].resultId, b)
    requires forall i | i in t.installations ::
      PointsInto(t.installations[i].resultId, ab) <==>
        PointsInto(t.installations[i].resultId, a) || PointsInto(s.installations[i].resultId, b)
    ensures LinkedTo(t, ab) == LinkedTo(t, a) + LinkedTo(s, b)
  {
    hide PointsInto;
  }

  lemma OwnersAddUp(a: seq<Revoked>, row: Revoked)
    ensures Owners(a + [row]) == Owners(a) + Owners([row])
  {
    var both := a + [row];
    forall i | i in Owners(a) + Owners([row]) ensures i in Owners(both) {
      if i in Owners(a) {
        var k :| 0 <= k < |a| && a[k].installation == i;
        assert both[k] == a[k];
      } else {
        assert both[|a|].installation == i;
      }
    }
    assert [row][0] == row;
  }

  // ---------- the order of the rows ----------

  ghost predicate Rearranged(a: seq<Revoked>, b: seq<Revoked>) {
    multiset(a) == multiset(b)
  }

  /** Sending this installation to recovery would change its row. */
  ghost predicate Recoverable(t: Tables, i: string, now: int) {
    i in t.installations && NeedsRecovery(t.installations[i], now) != t.installations[i]
  }

  /** A verified run all of whose visited rows belong to one installation. */
  ghost predicate OnlyFor(t: Tables, rows: seq<Revoked>, run: string, i: string) {
    && VerifiedIn(t.runs, Some(run)) && NamesRun(rows, run)
    && forall k | 0 <= k < |rows| && rows[k].run == Some(run) :: rows[k].installation == i
  }

  /** Every installation that some order would send to recovery is sent there by a run of its own. */
  ghost predicate Unambiguous(t: Tables, rows: seq<Revoked>, now: int) {
    forall k | 0 <= k < |rows| && VerifiedIn(t.runs, rows[k].run) && Recoverable(t, rows[k].installation, now) ::
      exists run :: OnlyFor(t, rows, run, rows[k].installation)
  }

  lemma SameMembers(a: seq<Revoked>, b: seq<Revoked>)
    requires Rearranged(a, b)
    ensures forall x: Revoked :: x in a <==> x in b
    ensures |a| == |b|
  {
    assert forall x: Revoked :: x in a <==> x in multiset(a);
    assert forall x: Revoked :: x in b <==> x in multiset(b);
    assert |multiset(a)| == |a| && |multiset(b)| == |b|;
  }

  lemma SameNames(a: seq<Revoked>, b: seq<Revoked>, run: string)
    requires forall x: Revoked :: x in a <==> x in b
    ensures NamesRun(a, run) <==> NamesRun(b, run)
  {
    if NamesRun(a, run) {
      var k :| 0 <= k < |a| && a[k].run == Some(run);
      assert a[k] in b;
    }
    if NamesRun(b, run) {
      var k :| 0 <= k < |b| && b[k].run == Some(run);
      assert b[k] in a;
    }
  }

  lemma SameOwner(t: Tables, a: seq<Revoked>, b: seq<Revoked>, run: string, i: string)
    requires (forall x: Revoked :: x in a <==> x in b) && OnlyFor(t, a, run, i)
    ensures OnlyFor(t, b, run, i)
  {
    SameNames(a, b, run);
    forall k | 0 <= k < |b| && b[k].run == Some(run) ensures b[k].installation == i {
      assert b[k] in a;
    }
  }

  lemma {:induction false} FirstNaming(rows: seq<Revoked>, run: string) returns (k: nat)
    requires NamesRun(rows, run)
    ensures k < |rows| && rows[k].run == Some(run) && !NamesRun(rows[..k], run)
  {
    var n := |rows| - 1;
    if NamesRun(rows[..n], run) {
      k := FirstNaming(rows[..n], run);
      assert rows[..n][..k] == rows[..k];
    } else {
      k := n;
      NamesAddUp(rows[..n], rows[n], run);
      assert rows == rows[..n] + [rows[n]];
    }
  }

  lemma MarkedByOwnRun(t: Tables, rows: seq<Revoked>, run: string, i: string)
    requires OnlyFor(t, rows, run, i)
    ensures i in MarkedBy(t.runs, rows)
  {
    var k := FirstNaming(rows, run);
  }

  lemma MarkedHasRow(t: Tables, rows: seq<Revoked>, i: string) returns (x: Revoked)
    requires i in MarkedBy(t.runs, rows)
    ensures x in rows && VerifiedIn(t.runs, x.run) && x.installation == i
  {
    var k :| 0 <= k < |rows| && VerifiedIn(t.runs, rows[k].run) && !NamesRun(rows[..k], rows[k].run.value)
             && rows[k].installation == i;
    x := rows[k];
  }

  lemma UnambiguousMarks(t: Tables, a: seq<Revoked>, b: seq<Revoked>, now: int, i: string)
    requires Unambiguous(t, a, now) && Rearranged(a, b) && Recoverable(t, i, now)
    ensures i in MarkedBy(t.runs, a) <==> i in MarkedBy(t.runs, b)
  {
    hide VerifiedIn, NamesRun, OnlyFor, NeedsRecovery;
    SameMembers(a, b);
    if i in MarkedBy(t.runs, a) || i in MarkedBy(t.runs, b) {
      var x := MarkedHasRow(t, if i in MarkedBy(t.runs, a) then a else b, i);
      var k :| 0 <= k < |a| && a[k] == x;
      var run :| OnlyFor(t, a, run, a[k].installation);
      MarkedByOwnRun(t, a, run, i);
      SameOwner(t, a, b, run, i);
      MarkedByOwnRun(t, b, run, i);
    }
  }

  lemma {:induction false} ReasonIsItsOwn(rows: seq<Revoked>, k: nat)
    requires DistinctIds(rows) && k < |rows|
    ensures rows[k].id in Ids(rows) && ReasonOf(rows, rows[k].id) == rows[k].reason
  {
    var n := |rows| - 1;
    if k < n {
      ReasonIsItsOwn(rows[..n], k);
      assert rows[..n][k] == rows[k];
    }
  }

  lemma SameReasons(a: seq<Revoked>, b: seq<Revoked>)
    requires Rearranged(a, b) && DistinctIds(a) && DistinctIds(b)
    ensures Ids(a) == Ids(b)
    ensures forall id | id in Ids(a) :: ReasonOf(a, id) == ReasonOf(b, id)
  {
    SameMembers(a, b);
    forall id | id in Ids(a) ensures id in Ids(b) && ReasonOf(a, id) == ReasonOf(b, id) {
      var k :| 0 <= k < |a| && a[k].id == id;
      assert a[k] in b;
      var j :| 0 <= j < |b| && b[j] == a[k];
      ReasonIsItsOwn(a, k);
      ReasonIsItsOwn(b, j);
    }
    forall id | id in Ids(b) ensures id in Ids(a) {
      var k :| 0 <= k < |b| && b[k].id == id;
      assert b[k] in a;
      var j :| 0 <= j < |a| && a[j] == b[k];
      assert a[j].id == id;
    }
  }

  lemma UnambiguousIsEnough(t: Tables, a: seq<Revoked>, b: seq<Revoked>, unbind: bool, now: int)
    requires Rearranged(a, b) && DistinctIds(a) && DistinctIds(b) && Unambiguous(t, a, now)
    ensures Revoke(t, a, unbind, now) == Revoke(t, b, unbind, now)
  {
    var u, w := Revoke(t, a, unbind, now), Revoke(t, b, unbind, now);
    SameReasons(a, b);
    SameMembers(a, b);
    assert u.runs == w.runs by {
      forall r | r in t.runs ensures u.runs[r] == w.runs[r] { SameNames(a, b, r); }
    }
    assert u.evidence == w.evidence;
    assert u.components == w.components;
    assert u.installations == w.installations by {
      forall i | i in t.installations ensures u.installations[i] == w.installations[i] {
        if Recoverable(t, i, now) { UnambiguousMarks(t, a, b, now, i); }
      }
    }
  }

  function Having(rows: seq<Revoked>, i: string): seq<Revoked> {
    if rows == [] then [] else (if rows[0].installation == i then [rows[0]] else []) + Having(rows[1..], i)
  }

  function Without(rows: seq<Revoked>, i: string): seq<Revoked> {
    if rows == [] then [] else (if rows[0].installation != i then [rows[0]] else []) + Without(rows[1..], i)
  }

  lemma {:induction false} SplitBy(rows: seq<Revoked>, i: string)
    ensures Rearranged(rows, Without(rows, i) + Having(rows, i))
    ensures forall x | x in Without(rows, i) :: x.installation != i
    ensures forall x | x in Having(rows, i) :: x.installation == i
  {
    if rows != [] {
      SplitBy(rows[1..], i);
      assert rows == [rows[0]] + rows[1..];
    }
  }

  lemma RearrangedStaysDistinct(a: seq<Revoked>, b: seq<Revoked>)
    requires Rearranged(a, b) && DistinctIds(a)
    ensures DistinctIds(b)
  {
    SameMembers(a, b);
    forall j, k | 0 <= j < k < |b| ensures b[j].id != b[k].id {
      if b[j].id == b[k].id {
        assert b[j] in a && b[k] in a;
        RepeatedMeansTwice(b, j, k);
        TwiceMeansRepeated(a, b[j]);
      }
    }
  }

  lemma RepeatedMeansTwice(b: seq<Revoked>, j: nat, k: nat)
    requires j < k < |b| && b[j] == b[k]
    ensures multiset(b)[b[j]] >= 2
  {
    assert b == b[..j] + [b[j]] + b[j + 1..k] + [b[k]] + b[k + 1..];
  }

  lemma {:induction false} TwiceMeansRepeated(a: seq<Revoked>, x: Revoked)
    requires multiset(a)[x] >= 2
    ensures exists j, k :: 0 <= j < k < |a| && a[j] == x && a[k] == x
  {
    var n := |a| - 1;
    assert a == a[..n] + [a[n]];
    if a[n] == x {
      assert multiset(a[..n])[x] >= 1;
      assert x in a[..n];
      var j :| 0 <= j < n && a[..n][j] == x;
      assert a[j] == x && a[n] == x;
    } else {
      TwiceMeansRepeated(a[..n], x);
      var j, k :| 0 <= j < k < n && a[..n][j] == x && a[..n][k] == x;
      assert a[j] == x && a[k] == x;
    }
  }

  /** An order that visits the rows of one installation last never marks it, unless a run is its alone. */
  lemma VisitedLastIsNotMarked(t: Tables, rows: seq<Revoked>, i: string)
    requires forall run :: !OnlyFor(t, rows, run, i)
    ensures i !in MarkedBy(t.runs, Without(rows, i) + Having(rows, i))
  {
    hide MarkedBy, Having, Without, VerifiedIn;
    var first, last := Without(rows, i), Having(rows, i);
    var order := first + last;
    SplitBy(rows, i);
    SameMembers(rows, order);
    if i in MarkedBy(t.runs, order) {
      var k := MarkingRow(t, order, i);
      var run := order[k].run.value;
      assert !OnlyFor(t, rows, run, i);
      SameNames(rows, order, run);
      NamedAt(order, k, run);
      var j :| 0 <= j < |rows| && rows[j].run == Some(run) && rows[j].installation != i;
      var m := SplitPosition(first, last, i, k, rows[j]);
      NamedEarlier(order, k, m, run);
    }
  }

  lemma MarkingRow(t: Tables, rows: seq<Revoked>, i: string) returns (k: nat)
    requires i in MarkedBy(t.runs, rows)
    ensures k < |rows| && VerifiedIn(t.runs, rows[k].run) && rows[k].run.Some?
    ensures !NamesRun(rows[..k], rows[k].run.value) && rows[k].installation == i
  {
    k :| 0 <= k < |rows| && VerifiedIn(t.runs, rows[k].run) && !NamesRun(rows[..k], rows[k].run.value)
         && rows[k].installation == i;
  }

  lemma NamedAt(rows: seq<Revoked>, k: nat, run: string)
    requires k < |rows| && rows[k].run == Some(run)
    ensures NamesRun(rows, run)
  {
  }

  lemma NamedEarlier(rows: seq<Revoked>, k: nat, m: nat, run: string)
    requires m < k <= |rows| && rows[m].run == Some(run)
    ensures NamesRun(rows[..k], run)
  {
    assert rows[..k][m].run == Some(run);
  }

  lemma SplitPosition(first: seq<Revoked>, last: seq<Revoked>, i: string, k: nat, x: Revoked) returns (m: nat)
    requires (forall y | y in first :: y.installation != i) && (forall y | y in last :: y.installation == i)
    requires k < |first + last| && (first + last)[k].installation == i
    requires x in first + last && x.installation != i
    ensures m < k && (first + last)[m] == x
  {
    assert x in first;
    m :| 0 <= m < |first| && first[m] == x;
    assert forall j | 0 <= j < |first| :: first[j] in first;
  }

  lemma FrontRowIsMarked(t: Tables, rows: seq<Revoked>, k: nat)
    requires k < |rows| && VerifiedIn(t.runs, rows[k].run)
    ensures var order := [rows[k]] + (rows[..k] + rows[k + 1..]);
      Rearranged(rows, order) && rows[k].installation in MarkedBy(t.runs, order)
  {
    var order := [rows[k]] + (rows[..k] + rows[k + 1..]);
    assert rows == rows[..k] + [rows[k]] + rows[k + 1..];
    assert order[..0] == [];
    assert order[0] == rows[k] && !NamesRun(order[..0], rows[k].run.value);
  }

  lemma MarkingShows(x: Installation, detached: bool, now: int)
    requires NeedsRecovery(x, now) != x
    ensures InstallationAfter(x, true, detached, now) != InstallationAfter(x, false, detached, now)
  {
  }

  /** Two orders of the same rows with different results, whenever the rows are ambiguous. */
  lemma AmbiguityShows(t: Tables, rows: seq<Revoked>, unbind: bool, now: int) returns (a: seq<Revoked>, b: seq<Revoked>)
    requires DistinctIds(rows) && !Unambiguous(t, rows, now)
    ensures Rearranged(rows, a) && Rearranged(rows, b)
    ensures Revoke(t, a, unbind, now) != Revoke(t, b, unbind, now)
  {
    var k :| 0 <= k < |rows| && VerifiedIn(t.runs, rows[k].run) && Recoverable(t, rows[k].installation, now)
             && forall run :: !OnlyFor(t, rows, run, rows[k].installation);
    var i := rows[k].installation;
    a, b := [rows[k]] + (rows[..k] + rows[k + 1..]), Without(rows, i) + Having(rows, i);
    FrontRowIsMarked(t, rows, k);
    SplitBy(rows, i);
    VisitedLastIsNotMarked(t, rows, i);
    RearrangedStaysDistinct(rows, a);
    RearrangedStaysDistinct(rows, b);
    assert Rearranged(a, b);
    SameReasons(a, b);
    var x := t.installations[i];
    MarkingShows(x, PointsInto(x.resultId, Ids(a)), now);
    assert Revoke(t, a, unbind, now).installations[i] != Revoke(t, b, unbind, now).installations[i];
  }

  /** The order of the visited rows is irrelevant exactly when they are unambiguous. */
  lemma RowOrderIsIrrelevantIff(t: Tables, rows: seq<Revoked>, unbind: bool, now: int)
    requires DistinctIds(rows)
    ensures Unambiguous(t, rows, now) <==>
      forall other | Rearranged(rows, other) :: Revoke(t, other, unbind, now) == Revoke(t, rows, unbind, now)
  {
    if Unambiguous(t, rows, now) {
      forall other | Rearranged(rows, other) ensures Revoke(t, other, unbind, now) == Revoke(t, rows, unbind, now) {
        RearrangedStaysDistinct(rows, other);
        UnambiguousIsEnough(t, rows, other, unbind, now);
      }
    } else {
      var a, b := AmbiguityShows(t, rows, unbind, now);
    }
  }

  /**
   * A concrete ambiguity: one verified run with two evidence rows for the same component, recorded
   * under two managed installations. Whichever row is visited first decides who is sent to recovery.
   */
  lemma RowOrderCanMatter(run: Run, e: Evidence, i: Installation, now: int)
    requires run.state == VerifiedRun && e.runId == Some("run") && i.desired == "managed"
      && i.reconcile != "needs_recovery"
    ensures var rowA, rowB := Revoked("a", "left", Some("run"), "duplicate_run_component_quarantined"),
                              Revoked("b", "right", Some("run"), "duplicate_run_component_quarantined");
      var t := Tables(map["run" := run], map["a" := e.(installation := "left"), "b" := e.(installation := "right")],
                      map[], map["left" := i, "right" := i]);
      && Lists([rowA, rowB], t, UnfitIds(t, false), false) && Lists([rowB, rowA], t, UnfitIds(t, false), false)
      && Revoke(t, [rowA, rowB], true, now).installations["left"].reconcile == "needs_recovery"
      && Revoke(t, [rowB, rowA], true, now).installations["left"].reconcile == i.reconcile
  {
    var rowA, rowB := Revoked("a", "left", Some("run"), "duplicate_run_component_quarantined"),
                      Revoked("b", "right", Some("run"), "duplicate_run_component_quarantined");
    var t := Tables(map["run" := run], map["a" := e.(installation := "left"), "b" := e.(installation := "right")],
                    map[], map["left" := i, "right" := i]);
    hide Revoke, MarkedBy, Complete, Lists;
    TwoRows(t, rowA, rowB, "run");
    TwoRows(t, rowB, rowA, "run");
    MarkingIsAll(t, [rowA, rowB], now, "left");
    MarkingIsAll(t, [rowB, rowA], now, "left");
    assert "a"[0] != "b"[0] && "left"[0] != "right"[0];
    assert "b" in t.evidence && t.evidence["b"].runId == t.evidence["a"].runId
      && t.evidence["b"].component == t.evidence["a"].component;
    assert Duplicated(t, "a") && Duplicated(t, "b");
    assert UnfitIds(t, false) == {"a", "b"};
    ListsBoth(t, rowA, rowB);
    ListsBoth(t, rowB, rowA);
    assert {rowB.id, rowA.id} == {"a", "b"};
  }

  lemma MarkingIsAll(t: Tables, rows: seq<Revoked>, now: int, id: string)
    requires id in t.installations && t.installations[id].desired == "managed"
    ensures id in Revoke(t, rows, true, now).installations
    ensures Revoke(t, rows, true, now).installations[id].reconcile
      == if id in MarkedBy(t.runs, rows) then "needs_recovery" else t.installations[id].reconcile
  {
    hide MarkedBy, Ids, NamesRun, ReasonOf;
  }

  lemma ListsBoth(t: Tables, x: Revoked, y: Revoked)
    requires x.id != y.id && x.id in t.evidence && y.id in t.evidence
    requires x.installation == t.evidence[x.id].installation && x.run == t.evidence[x.id].runId
    requires y.installation == t.evidence[y.id].installation && y.run == t.evidence[y.id].runId
    ensures Lists([x, y], t, {x.id, y.id}, false)
  {
    var rows := [x, y];
    assert rows[0] == x && rows[1] == y;
  }

  lemma TwoRows(t: Tables, x: Revoked, y: Revoked, run: string)
    requires x.run == y.run == Some(run) && VerifiedIn(t.runs, Some(run))
    ensures MarkedBy(t.runs, [x, y]) == {x.installation}
  {
    var rows := [x, y];
    assert rows[0] == x && rows[1] == y && rows[..0] == [];
    assert NamesRun(rows[..1], run) by { assert rows[..1][0] == x; }
    assert 0 <= 0 < |rows| && !NamesRun(rows[..0], run);
  }
}
