/**
 * The order in which the queries return their rows, over the whole repair pass: exactly when it is
 * irrelevant, and an instance in which it is not (src/db/agent-integration-schema.ts:1120-1270).
 */
module EvidenceVisitOrder {
  import opened Wrappers
  import opened EvidenceTables
  import opened EvidenceRepair
  import opened EvidenceRevocation

  // ---------- the marks of a pass ----------

  function Marking(x: Installation, marked: bool, now: int): Installation {
    if marked then NeedsRecovery(x, now) else x
  }

  /** The installations that the last loop sends to recovery. */
  function MarkedLast(t: Tables, g: Ledger): set<string> {
    InstallationsOf(t, Unsafe(t, g, EvidenceLess(t)))
  }

  /** All installations that the pass sends to recovery. */
  function Marks(t: Tables, g: Ledger, u: Upgrade, v: Visits): set<string> {
    MarkedBy(t.runs, v.hostActivity) + MarkedBy(AfterHostActivity(t, u, v).runs, v.quarantine)
    + MarkedLast(AfterQuarantine(t, u, v), g)
  }

  /** Each installation of `a` is that of `base`, marked if it is in `marks`, but for the link to evidence. */
  ghost predicate MarkedFrom(base: Tables, a: Tables, marks: set<string>, now: int) {
    && a.installations.Keys == base.installations.Keys
    && forall i | i in base.installations ::
         a.installations[i] == Marking(base.installations[i], i in marks, now).(resultId := a.installations[i].resultId)
  }

  /** Tables that differ at most in which installations were marked. */
  ghost predicate SameButMarks(a: Tables, b: Tables) {
    && a.runs == b.runs && a.evidence == b.evidence && a.components == b.components
    && a.installations.Keys == b.installations.Keys
    && forall i | i in a.installations :: a.installations[i].resultId == b.installations[i].resultId
  }

  lemma MarkedTwice(x: Installation, y: Installation, m: bool, n: bool, d: bool, now: int)
    requires y == Marking(x, m, now).(resultId := y.resultId)
    ensures var z := InstallationAfter(y, n, d, now); z == Marking(x, m || n, now).(resultId := z.resultId)
    ensures InstallationAfter(y, n, d, now).resultId == if d then None else y.resultId
  {
  }

  lemma RevokingMarks(base: Tables, a: Tables, marks: set<string>, rows: seq<Revoked>, unbind: bool, now: int)
    requires MarkedFrom(base, a, marks, now)
    ensures MarkedFrom(base, Revoke(a, rows, unbind, now), marks + MarkedBy(a.runs, rows), now)
  {
    hide MarkedBy, Ids, ReasonOf, NamesRun, PointsInto, InstallationAfter, Marking;
    forall i | i in base.installations {
      MarkedTwice(base.installations[i], a.installations[i], i in marks, i in MarkedBy(a.runs, rows),
                  PointsInto(a.installations[i].resultId, Ids(rows)), now);
    }
  }

  lemma IsolatingMarks(base: Tables, a: Tables, marks: set<string>, g: Ledger, now: int)
    requires MarkedFrom(base, a, marks, now)
    ensures MarkedFrom(base, Isolate(a, g, EvidenceLess(a), now), marks + MarkedLast(a, g), now)
  {
    hide EvidenceLess, Unsafe, InstallationsOf, Isolated, PointsAside, InstallationAfter, Marking;
    var touched := InstallationsOf(a, EvidenceLess(a));
    var evidence := Isolated(a, touched, now);
    forall i | i in base.installations {
      MarkedTwice(base.installations[i], a.installations[i], i in marks, i in MarkedLast(a, g),
                  i in touched && PointsAside(evidence, a.installations[i].resultId, i), now);
    }
  }

  lemma PassMarks(t: Tables, g: Ledger, u: Upgrade, v: Visits)
    ensures MarkedFrom(t, AfterQuarantine(t, u, v),
                       MarkedBy(t.runs, v.hostActivity)
                         + MarkedBy(AfterHostActivity(t, u, v).runs, v.quarantine), u.now)
    ensures MarkedFrom(t, AfterIsolation(t, g, u, v), Marks(t, g, u, v), u.now)
  {
    hide Revoke, Isolate, MarkedBy, EvidenceLess, MarkedLast;
    NothingMarked(t, u.now);
    RevokingMarks(t, t, {}, v.hostActivity, false, u.now);
    var m := {} + MarkedBy(t.runs, v.hostActivity);
    assert m == MarkedBy(t.runs, v.hostActivity);
    RevokingMarks(t, AfterHostActivity(t, u, v), m, v.quarantine, true, u.now);
    IsolatingMarks(t, AfterQuarantine(t, u, v), m + MarkedBy(AfterHostActivity(t, u, v).runs, v.quarantine), g, u.now);
  }

  lemma NothingMarked(t: Tables, now: int)
    ensures MarkedFrom(t, t, {}, now)
  {
  }

  // ---------- what the order cannot change ----------

  /** What a revoking loop takes from its rows whatever their order. */
  ghost predicate SameRows(rows: seq<Revoked>, other: seq<Revoked>) {
    && Ids(rows) == Ids(other) && Owners(rows) == Owners(other)
    && (forall id | id in Ids(rows) :: ReasonOf(rows, id) == ReasonOf(other, id))
    && (forall r :: NamesRun(rows, r) <==> NamesRun(other, r))
  }

  lemma RearrangedSameRows(rows: seq<Revoked>, other: seq<Revoked>)
    requires Rearranged(rows, other) && DistinctIds(rows)
    ensures SameRows(rows, other)
  {
    hide ReasonOf, NamesRun;
    RearrangedStaysDistinct(rows, other);
    SameReasons(rows, other);
    SameMembers(rows, other);
    SameOwners(rows, other);
    forall r ensures NamesRun(rows, r) <==> NamesRun(other, r) { SameNames(rows, other, r); }
  }

  lemma RevokedRunsAlike(a: Tables, b: Tables, rows: seq<Revoked>, other: seq<Revoked>, unbind: bool, now: int)
    requires SameButMarks(a, b) && SameRows(rows, other)
    ensures Revoke(a, rows, unbind, now).runs == Revoke(b, other, unbind, now).runs
  {
    hide MarkedBy, Ids, ReasonOf, NamesRun, PointsInto, Owners, InstallationAfter, RevokedEvidence;
  }

  lemma RevokedEvidenceAlike(a: Tables, b: Tables, rows: seq<Revoked>, other: seq<Revoked>, unbind: bool, now: int)
    requires SameButMarks(a, b) && SameRows(rows, other)
    ensures Revoke(a, rows, unbind, now).evidence == Revoke(b, other, unbind, now).evidence
  {
    hide MarkedBy, Ids, ReasonOf, NamesRun, PointsInto, Owners, InstallationAfter, RevokedEvidence;
  }

  lemma RevokedLinksAlike(a: Tables, b: Tables, rows: seq<Revoked>, other: seq<Revoked>, unbind: bool, now: int)
    requires SameButMarks(a, b) && SameRows(rows, other)
    ensures Revoke(a, rows, unbind, now).components == Revoke(b, other, unbind, now).components
    ensures AffectedBy(a, rows) == AffectedBy(b, other)
  {
    hide MarkedBy, Ids, ReasonOf, NamesRun, PointsInto, Owners, InstallationAfter, RevokedEvidence;
  }

  lemma RevokedInstallationsAlike(a: Tables, b: Tables, rows: seq<Revoked>, other: seq<Revoked>, unbind: bool, now: int)
    requires SameButMarks(a, b) && SameRows(rows, other)
    ensures var s, z := Revoke(a, rows, unbind, now), Revoke(b, other, unbind, now);
      && s.installations.Keys == z.installations.Keys
      && forall i | i in s.installations :: s.installations[i].resultId == z.installations[i].resultId
  {
    hide MarkedBy, Ids, ReasonOf, NamesRun, PointsInto, Owners, InstallationAfter, RevokedEvidence;
    forall i | i in a.installations
      ensures Revoke(a, rows, unbind, now).installations[i].resultId
        == Revoke(b, other, unbind, now).installations[i].resultId
    {
      AfterKeepsLink(a.installations[i], i in MarkedBy(a.runs, rows),
                     PointsInto(a.installations[i].resultId, Ids(rows)), now);
      AfterKeepsLink(b.installations[i], i in MarkedBy(b.runs, other),
                     PointsInto(b.installations[i].resultId, Ids(other)), now);
    }
  }

  lemma AfterKeepsLink(x: Installation, marked: bool, detached: bool, now: int)
    ensures InstallationAfter(x, marked, detached, now).resultId == if detached then None else x.resultId
  {
  }

  lemma RevokingAlike(a: Tables, b: Tables, rows: seq<Revoked>, other: seq<Revoked>, unbind: bool, now: int)
    requires SameButMarks(a, b) && Rearranged(rows, other) && DistinctIds(rows)
    ensures SameButMarks(Revoke(a, rows, unbind, now), Revoke(b, other, unbind, now))
    ensures AffectedBy(a, rows) == AffectedBy(b, other)
  {
    hide Revoke, SameRows, AffectedBy;
    RearrangedSameRows(rows, other);
    RevokedRunsAlike(a, b, rows, other, unbind, now);
    RevokedEvidenceAlike(a, b, rows, other, unbind, now);
    RevokedLinksAlike(a, b, rows, other, unbind, now);
    RevokedInstallationsAlike(a, b, rows, other, unbind, now);
  }

  lemma SameOwners(rows: seq<Revoked>, other: seq<Revoked>)
    requires forall x: Revoked :: x in rows <==> x in other
    ensures Owners(rows) == Owners(other)
  {
    forall i ensures i in Owners(rows) <==> i in Owners(other) {
      if i in Owners(rows) {
        var k :| 0 <= k < |rows| && rows[k].installation == i;
        assert rows[k] in other;
      }
      if i in Owners(other) {
        var k :| 0 <= k < |other| && other[k].installation == i;
        assert other[k] in rows;
      }
    }
  }

  lemma MarksKeepControl(x: Installation, a: Installation, b: Installation, m: bool, n: bool, now: int)
    requires a == Marking(x, m, now).(resultId := a.resultId) && b == Marking(x, n, now).(resultId := b.resultId)
    ensures SameControl(a, b) && a.hostVariant == b.hostVariant && a.capability == b.capability
      && a.summary == b.summary
  {
  }

  /** Who is marked does not decide which runs are finalizers. */
  lemma SameUnsafe(base: Tables, a: Tables, b: Tables, m: set<string>, n: set<string>, g: Ledger, now: int)
    requires SameButMarks(a, b) && MarkedFrom(base, a, m, now) && MarkedFrom(base, b, n, now)
    ensures EvidenceLess(a) == EvidenceLess(b) && Unsafe(a, g, EvidenceLess(a)) == Unsafe(b, g, EvidenceLess(b))
    ensures MarkedLast(a, g) == MarkedLast(b, g)
    ensures InstallationsOf(a, EvidenceLess(a)) == InstallationsOf(b, EvidenceLess(b))
  {
    hide EvidenceFreeDetachFinalizer, Marking;
    assert SameStructure(a, b) by {
      forall i | i in a.installations ensures SameControl(a.installations[i], b.installations[i]) {
        MarksKeepControl(base.installations[i], a.installations[i], b.installations[i], i in m, i in n, now);
      }
    }
    forall r | r in a.runs
      ensures EvidenceFreeDetachFinalizer(a, g, r, a.runs[r]) <==> EvidenceFreeDetachFinalizer(b, g, r, b.runs[r])
    {
      FinalizersAreStable(a, b, g, r, a.runs[r], a.runs[r].state);
    }
    assert EvidenceLess(a) == EvidenceLess(b) by { SameEvidenceLess(a, b); }
  }

  lemma SameEvidenceLess(a: Tables, b: Tables)
    requires a.runs == b.runs && a.evidence == b.evidence
    ensures EvidenceLess(a) == EvidenceLess(b)
  {
    forall r ensures Evidenced(a, r) <==> Evidenced(b, r) {}
  }

  lemma IsolatingAlike(base: Tables, a: Tables, b: Tables, m: set<string>, n: set<string>, g: Ledger, now: int)
    requires SameButMarks(a, b) && MarkedFrom(base, a, m, now) && MarkedFrom(base, b, n, now)
    ensures SameButMarks(Isolate(a, g, EvidenceLess(a), now), Isolate(b, g, EvidenceLess(b), now))
  {
    hide EvidenceLess, Unsafe, InstallationsOf, Isolated, PointsAside, InstallationAfter, MarkedFrom;
    SameUnsafe(base, a, b, m, n, g, now);
    var touched := InstallationsOf(a, EvidenceLess(a));
    SameIsolated(a, b, touched, now);
    var evidence := Isolated(a, touched, now);
    var s, z := Isolate(a, g, EvidenceLess(a), now), Isolate(b, g, EvidenceLess(b), now);
    assert s.components == z.components;
    forall i | i in a.installations ensures s.installations[i].resultId == z.installations[i].resultId {
      var detached := i in touched && PointsAside(evidence, a.installations[i].resultId, i);
      AfterKeepsLink(a.installations[i], i in MarkedLast(a, g), detached, now);
      AfterKeepsLink(b.installations[i], i in MarkedLast(b, g), detached, now);
    }
  }

  lemma SameIsolated(a: Tables, b: Tables, touched: set<string>, now: int)
    requires SameButMarks(a, b)
    ensures Isolated(a, touched, now) == Isolated(b, touched, now)
  {
    forall e, i ensures Linked(a, e, i) <==> Linked(b, e, i) {}
    hide Linked;
  }

  /** Everything of a pass but its marks is the same for any two orders of its rows. */
  lemma PassesAlike(t: Tables, g: Ledger, u: Upgrade, v: Visits, w: Visits)
    requires Rearranged(v.hostActivity, w.hostActivity) && Rearranged(v.quarantine, w.quarantine)
    requires DistinctIds(v.hostActivity) && DistinctIds(v.quarantine)
    ensures SameButMarks(AfterIsolation(t, g, u, v), AfterIsolation(t, g, u, w))
    ensures AfterHostActivity(t, u, v).runs == AfterHostActivity(t, u, w).runs
    ensures MarkedLast(AfterQuarantine(t, u, v), g) == MarkedLast(AfterQuarantine(t, u, w), g)
    ensures Affected(t, u, v) == Affected(t, u, w)
  {
    hide Revoke, Isolate, MarkedBy, EvidenceLess, MarkedLast, AffectedBy, InstallationsOf, Marks;
    RevokingAlike(t, t, v.hostActivity, w.hostActivity, false, u.now);
    RevokingAlike(AfterHostActivity(t, u, v), AfterHostActivity(t, u, w), v.quarantine, w.quarantine, true, u.now);
    PassMarks(t, g, u, v);
    PassMarks(t, g, u, w);
    var m, n := MarkedBy(t.runs, v.hostActivity) + MarkedBy(AfterHostActivity(t, u, v).runs, v.quarantine),
      MarkedBy(t.runs, w.hostActivity) + MarkedBy(AfterHostActivity(t, u, w).runs, w.quarantine);
    SameUnsafe(t, AfterQuarantine(t, u, v), AfterQuarantine(t, u, w), m, n, g, u.now);
    IsolatingAlike(t, AfterQuarantine(t, u, v), AfterQuarantine(t, u, w), m, n, g, u.now);
  }

  // ---------- the result and the marks ----------

  lemma SummariesAlike(base: Tables, a: Tables, b: Tables, m: set<string>, n: set<string>, affected: set<string>,
                       now: int)
    requires SameButMarks(a, b) && MarkedFrom(base, a, m, now) && MarkedFrom(base, b, n, now)
    ensures Summarize(a, affected) == Summarize(b, affected)
      <==> forall i | Recoverable(base, i, now) :: i in m <==> i in n
  {
    hide Marking, Recoverable, Summarize, SameButMarks, MarkedFrom;
    var s, z := Summarize(a, affected), Summarize(b, affected);
    SummarizeShape(base, a, b, m, n, affected, now);
    forall i | i in base.installations
      ensures i in s.installations && i in z.installations
      ensures s.installations[i] == z.installations[i] <==> (Recoverable(base, i, now) ==> (i in m <==> i in n))
    {
      SummaryAlike(base, a, b, m, n, affected, now, i);
    }
  }

  lemma SummarizeShape(base: Tables, a: Tables, b: Tables, m: set<string>, n: set<string>, affected: set<string>,
                       now: int)
    requires SameButMarks(a, b) && MarkedFrom(base, a, m, now) && MarkedFrom(base, b, n, now)
    ensures var s, z := Summarize(a, affected), Summarize(b, affected);
      && s.installations.Keys == z.installations.Keys == base.installations.Keys
      && (s == z <==> forall i | i in base.installations :: s.installations[i] == z.installations[i])
    ensures forall i | Recoverable(base, i, now) :: i in base.installations
  {
    hide Marking, Summarize, NeedsRecovery;
    var s, z := Summarize(a, affected), Summarize(b, affected);
    SummarizeKeeps(a, affected);
    SummarizeKeeps(b, affected);
    if forall i | i in base.installations :: s.installations[i] == z.installations[i] { SameTables(s, z); }
  }

  lemma SummarizeKeeps(a: Tables, affected: set<string>)
    ensures var s := Summarize(a, affected);
      && s.runs == a.runs && s.evidence == a.evidence && s.components == a.components
      && s.installations.Keys == a.installations.Keys
  {
    hide Capability, Summary;
  }

  lemma SameTables(s: Tables, z: Tables)
    requires s.runs == z.runs && s.evidence == z.evidence && s.components == z.components
    requires s.installations.Keys == z.installations.Keys
    requires forall i | i in s.installations :: s.installations[i] == z.installations[i]
    ensures s == z
  {
    assert s.installations == z.installations;
  }

  lemma SummaryAlike(base: Tables, a: Tables, b: Tables, m: set<string>, n: set<string>, affected: set<string>,
                     now: int, i: string)
    requires SameButMarks(a, b) && MarkedFrom(base, a, m, now) && MarkedFrom(base, b, n, now) && i in base.installations
    ensures i in a.installations && i in b.installations
    ensures Summarize(a, affected).installations[i] == Summarize(b, affected).installations[i]
      <==> (Recoverable(base, i, now) ==> (i in m <==> i in n))
  {
    hide Marking, Summarize, NeedsRecovery;
    SameSummary(a, b, i, base.installations[i], i in m, i in n, now);
    RowsAlike(base.installations[i], a.installations[i], b.installations[i], i in m, i in n, now);
    SummarizedRow(a, affected, i);
    SummarizedRow(b, affected, i);
  }

  lemma SummarizedRow(a: Tables, affected: set<string>, i: string)
    requires i in a.installations
    ensures i in Summarize(a, affected).installations
    ensures Summarize(a, affected).installations[i]
      == if i in affected then a.installations[i].(capability := Capability(a, i), summary := Summary(a, i))
        else a.installations[i]
  {
    hide Capability, Summary;
  }

  lemma SameSummary(a: Tables, b: Tables, i: string, x: Installation, m: bool, n: bool, now: int)
    requires a.components == b.components && i in a.installations && i in b.installations
    requires a.installations[i] == Marking(x, m, now).(resultId := a.installations[i].resultId)
    requires b.installations[i] == Marking(x, n, now).(resultId := b.installations[i].resultId)
    ensures Capability(a, i) == Capability(b, i) && Summary(a, i) == Summary(b, i)
  {
    MarksKeepControl(x, a.installations[i], b.installations[i], m, n, now);
    assert ManagedKeys(a, i) == ManagedKeys(b, i);
    assert Statuses(a, i) == Statuses(b, i);
  }

  lemma RowsAlike(x: Installation, a: Installation, b: Installation, m: bool, n: bool, now: int)
    requires a == Marking(x, m, now).(resultId := a.resultId) && b == Marking(x, n, now).(resultId := b.resultId)
    requires a.resultId == b.resultId
    ensures a == b <==> (NeedsRecovery(x, now) != x ==> (m <==> n))
    ensures forall c, s :: a.(capability := c, summary := s) == b.(capability := c, summary := s) <==> a == b
  {
  }

  /** Two orders have the same result exactly when they mark the same installations that marking changes. */
  lemma SameResultIff(t: Tables, g: Ledger, u: Upgrade, v: Visits, w: Visits)
    requires Rearranged(v.hostActivity, w.hostActivity) && Rearranged(v.quarantine, w.quarantine)
    requires DistinctIds(v.hostActivity) && DistinctIds(v.quarantine)
    ensures Repaired(t, g, u, v) == Repaired(t, g, u, w)
      <==> forall i | Recoverable(t, i, u.now) :: i in Marks(t, g, u, v) <==> i in Marks(t, g, u, w)
  {
    hide AfterIsolation, Marks, Affected, Summarize, Recoverable, MarkedFrom, SameButMarks;
    PassesAlike(t, g, u, v, w);
    PassMarks(t, g, u, v);
    PassMarks(t, g, u, w);
    SummariesAlike(t, AfterIsolation(t, g, u, v), AfterIsolation(t, g, u, w), Marks(t, g, u, v), Marks(t, g, u, w),
                   Affected(t, u, v), u.now);
  }

  // ---------- all the orders ----------

  lemma ListingsAreRearranged(rows: seq<Revoked>, other: seq<Revoked>, t: Tables, ids: set<string>, skipEmpty: bool)
    requires Lists(rows, t, ids, skipEmpty) && Lists(other, t, ids, skipEmpty)
    requires forall j, k | 0 <= j < |rows| && 0 <= k < |other| && rows[j].id == other[k].id ::
      rows[j].reason == other[k].reason
    ensures Rearranged(rows, other)
  {
    forall x: Revoked ensures multiset(rows)[x] == multiset(other)[x] {
      ListedInBoth(rows, other, t, ids, skipEmpty, x);
      ListedInBoth(other, rows, t, ids, skipEmpty, x);
      ListedOnce(rows, x);
      ListedOnce(other, x);
    }
  }

  lemma ListedInBoth(rows: seq<Revoked>, other: seq<Revoked>, t: Tables, ids: set<string>, skipEmpty: bool, x: Revoked)
    requires Lists(rows, t, ids, skipEmpty) && Lists(other, t, ids, skipEmpty)
    requires forall j, k | 0 <= j < |rows| && 0 <= k < |other| && rows[j].id == other[k].id ::
      rows[j].reason == other[k].reason
    ensures x in rows ==> x in other
  {
    if x in rows {
      var j :| 0 <= j < |rows| && rows[j] == x;
      var k :| 0 <= k < |other| && other[k].id == x.id;
      assert other[k] == x;
    }
  }

  lemma ListedOnce(rows: seq<Revoked>, x: Revoked)
    requires forall j, k | 0 <= j < k < |rows| :: rows[j].id != rows[k].id
    ensures multiset(rows)[x] == if x in rows then 1 else 0
  {
    if multiset(rows)[x] >= 2 { TwiceMeansRepeated(rows, x); }
    assert x in rows <==> x in multiset(rows);
  }

  lemma RearrangedLists(rows: seq<Revoked>, other: seq<Revoked>, t: Tables, ids: set<string>, skipEmpty: bool)
    requires Lists(rows, t, ids, skipEmpty) && Rearranged(rows, other)
    ensures Lists(other, t, ids, skipEmpty)
  {
    SameMembers(rows, other);
    RearrangedStaysDistinct(rows, other);
    forall k | 0 <= k < |other|
      ensures other[k].id in ids && other[k].id in t.evidence
        && other[k].installation == t.evidence[other[k].id].installation
      ensures other[k].run
        == if skipEmpty && !Present(t.evidence[other[k].id].runId) then None else t.evidence[other[k].id].runId
    {
      assert other[k] in rows;
    }
    forall id | id in ids ensures exists k | 0 <= k < |other| :: other[k].id == id {
      var j :| 0 <= j < |rows| && rows[j].id == id;
      assert rows[j] in other;
    }
  }

  lemma AnswersAreRearranged(t: Tables, u: Upgrade, v: Visits, w: Visits)
    requires Answers(t, u, v) && Answers(t, u, w)
    ensures Rearranged(v.hostActivity, w.hostActivity) && Rearranged(v.quarantine, w.quarantine)
    ensures DistinctIds(v.hostActivity) && DistinctIds(v.quarantine)
  {
    hide UnfitIds, HostActivityIds, QuarantineReason;
    ListingsAreRearranged(v.hostActivity, w.hostActivity, t,
                          if u.rebuiltHostActivity then HostActivityIds(t) else {}, true);
    ListingsAreRearranged(v.quarantine, w.quarantine, t, UnfitIds(t, u.repairedShape), false);
  }

  lemma RearrangedAnswers(t: Tables, u: Upgrade, v: Visits, w: Visits)
    requires Answers(t, u, v)
    requires Rearranged(v.hostActivity, w.hostActivity) && Rearranged(v.quarantine, w.quarantine)
    ensures Answers(t, u, w)
  {
    hide UnfitIds, HostActivityIds, QuarantineReason, Lists;
    RearrangedLists(v.hostActivity, w.hostActivity, t, if u.rebuiltHostActivity then HostActivityIds(t) else {}, true);
    RearrangedLists(v.quarantine, w.quarantine, t, UnfitIds(t, u.repairedShape), false);
    SameMembers(v.hostActivity, w.hostActivity);
    SameMembers(v.quarantine, w.quarantine);
    forall k | 0 <= k < |w.quarantine| ensures w.quarantine[k].reason == QuarantineReason(t, w.quarantine[k].id) {
      assert w.quarantine[k] in v.quarantine;
    }
    forall k | 0 <= k < |w.hostActivity| ensures w.hostActivity[k].reason == "pre_causal_host_activity_invalidated" {
      assert w.hostActivity[k] in v.hostActivity;
    }
  }

  /** Some order of the rows would mark the installation. */
  ghost predicate MayMark(t: Tables, rows: seq<Revoked>, i: string) {
    exists k | 0 <= k < |rows| :: VerifiedIn(t.runs, rows[k].run) && rows[k].installation == i
  }

  /** Every order of the rows marks the installation, by a run that is its alone. */
  ghost predicate MustMark(t: Tables, rows: seq<Revoked>, i: string) {
    exists run :: OnlyFor(t, rows, run, i)
  }

  /**
   * Every installation that some order of either loop would send to recovery is sent there by every order,
   * by a run that is its alone in one of the loops, or by the last loop.
   */
  ghost predicate UnambiguousPass(t: Tables, g: Ledger, u: Upgrade, v: Visits) {
    var h := AfterHostActivity(t, u, v);
    forall i | Recoverable(t, i, u.now) && (MayMark(t, v.hostActivity, i) || MayMark(h, v.quarantine, i)) ::
      MustMark(t, v.hostActivity, i) || MustMark(h, v.quarantine, i) || i in MarkedLast(AfterQuarantine(t, u, v), g)
  }

  lemma MarkBounds(t: Tables, rows: seq<Revoked>, other: seq<Revoked>, i: string)
    requires Rearranged(rows, other)
    ensures MustMark(t, rows, i) ==> i in MarkedBy(t.runs, other)
    ensures i in MarkedBy(t.runs, other) ==> MayMark(t, rows, i)
  {
    hide MarkedBy, OnlyFor, VerifiedIn;
    SameMembers(rows, other);
    if MustMark(t, rows, i) {
      var run :| OnlyFor(t, rows, run, i);
      SameOwner(t, rows, other, run, i);
      MarkedByOwnRun(t, other, run, i);
    }
    if i in MarkedBy(t.runs, other) {
      var x := MarkedHasRow(t, other, i);
      assert x in rows;
    }
  }

  /** An order that marks the installation, and one that does not unless every order does. */
  lemma TwoOrders(t: Tables, rows: seq<Revoked>, i: string) returns (first: seq<Revoked>, last: seq<Revoked>)
    ensures Rearranged(rows, first) && Rearranged(rows, last)
    ensures MayMark(t, rows, i) ==> i in MarkedBy(t.runs, first)
    ensures !MustMark(t, rows, i) ==> i !in MarkedBy(t.runs, last)
  {
    hide MarkedBy, OnlyFor, VerifiedIn, Having, Without;
    SplitBy(rows, i);
    first, last := rows, Without(rows, i) + Having(rows, i);
    if MayMark(t, rows, i) {
      var k :| 0 <= k < |rows| && VerifiedIn(t.runs, rows[k].run) && rows[k].installation == i;
      FrontRowIsMarked(t, rows, k);
      first := [rows[k]] + (rows[..k] + rows[k + 1..]);
    }
    if !MustMark(t, rows, i) { VisitedLastIsNotMarked(t, rows, i); }
  }

  lemma MarksByLoop(t: Tables, g: Ledger, u: Upgrade, v: Visits, w: Visits, i: string)
    requires Rearranged(v.hostActivity, w.hostActivity) && Rearranged(v.quarantine, w.quarantine)
    requires DistinctIds(v.hostActivity) && DistinctIds(v.quarantine)
    ensures i in Marks(t, g, u, w) <==>
      || i in MarkedBy(t.runs, w.hostActivity) || i in MarkedBy(AfterHostActivity(t, u, v).runs, w.quarantine)
      || i in MarkedLast(AfterQuarantine(t, u, v), g)
  {
    hide MarkedBy, MarkedLast, AfterHostActivity, AfterQuarantine, AfterIsolation, Affected, SameButMarks;
    PassesAlike(t, g, u, v, w);
  }

  lemma UnambiguousIsEnough(t: Tables, g: Ledger, u: Upgrade, v: Visits, w: Visits)
    requires UnambiguousPass(t, g, u, v) && Answers(t, u, v) && Answers(t, u, w)
    ensures Repaired(t, g, u, w) == Repaired(t, g, u, v)
  {
    hide Answers, Marks, MarkedBy, MarkedLast, AfterQuarantine, AfterHostActivity, Repaired, MayMark, MustMark,
      Recoverable;
    AnswersAreRearranged(t, u, v, w);
    var h := AfterHostActivity(t, u, v);
    forall i | Recoverable(t, i, u.now) ensures i in Marks(t, g, u, v) <==> i in Marks(t, g, u, w) {
      MarksByLoop(t, g, u, v, v, i);
      MarksByLoop(t, g, u, v, w, i);
      MarkBounds(t, v.hostActivity, v.hostActivity, i);
      MarkBounds(t, v.hostActivity, w.hostActivity, i);
      MarkBounds(h, v.quarantine, v.quarantine, i);
      MarkBounds(h, v.quarantine, w.quarantine, i);
    }
    SameResultIff(t, g, u, v, w);
  }

  /** Two answers of the same queries with different results, whenever the pass is ambiguous. */
  lemma AmbiguityShows(t: Tables, g: Ledger, u: Upgrade, v: Visits) returns (a: Visits, b: Visits)
    requires Answers(t, u, v) && !UnambiguousPass(t, g, u, v)
    ensures Answers(t, u, a) && Answers(t, u, b) && Repaired(t, g, u, a) != Repaired(t, g, u, b)
  {
    hide Answers, Marks, MarkedBy, MarkedLast, AfterQuarantine, AfterHostActivity, Repaired, MayMark, MustMark,
      Recoverable;
    AnswersAreRearranged(t, u, v, v);
    var h := AfterHostActivity(t, u, v);
    var i :| Recoverable(t, i, u.now) && (MayMark(t, v.hostActivity, i) || MayMark(h, v.quarantine, i))
      && !MustMark(t, v.hostActivity, i) && !MustMark(h, v.quarantine, i)
      && i !in MarkedLast(AfterQuarantine(t, u, v), g);
    var hostFirst, hostLast := TwoOrders(t, v.hostActivity, i);
    var rowsFirst, rowsLast := TwoOrders(h, v.quarantine, i);
    a, b := Visits(hostFirst, rowsFirst), Visits(hostLast, rowsLast);
    RearrangedAnswers(t, u, v, a);
    RearrangedAnswers(t, u, v, b);
    MarksByLoop(t, g, u, v, a, i);
    MarksByLoop(t, g, u, v, b, i);
    AnswersAreRearranged(t, u, a, b);
    SameResultIff(t, g, u, a, b);
  }

  /** Over the whole pass, the order in which the queries answer is irrelevant exactly when the pass is unambiguous. */
  lemma VisitOrderIsIrrelevantIff(t: Tables, g: Ledger, u: Upgrade, v: Visits)
    requires Answers(t, u, v)
    ensures UnambiguousPass(t, g, u, v) <==>
      forall w | Answers(t, u, w) :: Repaired(t, g, u, w) == Repaired(t, g, u, v)
  {
    hide Answers, UnambiguousPass, Repaired;
    if UnambiguousPass(t, g, u, v) {
      forall w | Answers(t, u, w) ensures Repaired(t, g, u, w) == Repaired(t, g, u, v) {
        UnambiguousIsEnough(t, g, u, v, w);
      }
    } else {
      var a, b := AmbiguityShows(t, g, u, v);
    }
  }

  /**
   * The instance, over the whole pass: two evidence rows of one verified run for one component, under two
   * managed installations. Both orders answer the queries, and the results differ.
   */
  lemma VisitOrderCanMatter(g: Ledger, run: Run, e: Evidence, i: Installation, now: int)
    requires run.state == VerifiedRun && e.runId == Some("run") && i.desired == "managed"
      && i.reconcile != "needs_recovery"
    ensures var rowA, rowB := Revoked("a", "left", Some("run"), "duplicate_run_component_quarantined"),
                              Revoked("b", "right", Some("run"), "duplicate_run_component_quarantined");
      var t := Tables(map["run" := run], map["a" := e.(installation := "left"), "b" := e.(installation := "right")],
                      map[], map["left" := i, "right" := i]);
      var u := Upgrade(false, false, now);
      && Answers(t, u, Visits([], [rowA, rowB])) && Answers(t, u, Visits([], [rowB, rowA]))
      && Repaired(t, g, u, Visits([], [rowA, rowB])) != Repaired(t, g, u, Visits([], [rowB, rowA]))
  {
    hide Answers, Lists, Marks, MarkedBy, MarkedLast, Repaired, Revoke, Isolate;
    var rowA, rowB := Revoked("a", "left", Some("run"), "duplicate_run_component_quarantined"),
                      Revoked("b", "right", Some("run"), "duplicate_run_component_quarantined");
    var t := Tables(map["run" := run], map["a" := e.(installation := "left"), "b" := e.(installation := "right")],
                    map[], map["left" := i, "right" := i]);
    var u, v, w := Upgrade(false, false, now), Visits([], [rowA, rowB]), Visits([], [rowB, rowA]);
    RowOrderCanMatter(run, e, i, now);
    assert "a"[0] != "b"[0] && "left"[0] != "right"[0];
    assert "b" in t.evidence && t.evidence["b"].runId == t.evidence["a"].runId
      && t.evidence["b"].component == t.evidence["a"].component;
    assert Duplicated(t, "a") && Duplicated(t, "b");
    DuplicatesAnswer(t, u, rowA, rowB);
    DuplicatesAnswer(t, u, rowB, rowA);
    OnlyFirstIsMarked(t, g, u, rowA, rowB);
    OnlyFirstIsMarked(t, g, u, rowB, rowA);
    AnswersAreRearranged(t, u, v, w);
    assert Recoverable(t, "left", now);
    SameResultIff(t, g, u, v, w);
  }

  lemma DuplicatesAnswer(t: Tables, u: Upgrade, x: Revoked, y: Revoked)
    requires x.id in t.evidence && y.id in t.evidence && Duplicated(t, x.id) && Duplicated(t, y.id)
    requires x.reason == y.reason == "duplicate_run_component_quarantined"
    requires !u.repairedShape && !u.rebuiltHostActivity && Lists([x, y], t, UnfitIds(t, false), false)
    ensures Answers(t, u, Visits([], [x, y]))
  {
    hide UnfitIds, Duplicated;
    var rows := [x, y];
    assert forall k | 0 <= k < |rows| :: rows[k] == x || rows[k] == y;
    assert Lists([], t, {}, true);
  }

  /** Of two rows of one verified run, the only run, the pass marks exactly the first one's installation. */
  lemma OnlyFirstIsMarked(t: Tables, g: Ledger, u: Upgrade, x: Revoked, y: Revoked)
    requires t.runs.Keys == {"run"} && x.run == y.run == Some("run") && VerifiedIn(t.runs, Some("run"))
    ensures Marks(t, g, u, Visits([], [x, y])) == {x.installation}
  {
    hide Isolate, Evidenced, EvidenceFreeDetachFinalizer;
    var v := Visits([], [x, y]);
    RevokeNothing(t, false, u.now);
    assert AfterHostActivity(t, u, v) == t;
    TwoRows(t, x, y, "run");
    assert MarkedBy(t.runs, []) == {};
    var q := AfterQuarantine(t, u, v);
    NothingVerifiedIsLeft(t, u.now, x, y);
    assert EvidenceLess(q) == {};
  }

  lemma NothingVerifiedIsLeft(t: Tables, now: int, x: Revoked, y: Revoked)
    requires t.runs.Keys == {"run"} && x.run == Some("run")
    ensures forall r | r in Revoke(t, [x, y], true, now).runs ::
      Revoke(t, [x, y], true, now).runs[r].state != VerifiedRun
  {
    hide MarkedBy, Ids, ReasonOf, PointsInto, InstallationAfter;
    assert [x, y][0] == x;
    assert NamesRun([x, y], "run");
  }
}
