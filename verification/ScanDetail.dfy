/** internal/db/scans_api_store.go: severity counts answered from the row's counters, or grouped from the findings. */
module ScanDetail {
  import opened Wrappers
  import opened Tables
  import opened Persist
  import opened Protocol
  import opened Guarantees
  import opened Runner
  import opened Producers

  const SEVERITIES := [Critical, High, Medium, Low, Unknown]

  // ---------------------------------------------------------------- suppressions

  /** A NULL column matches everything. */
  datatype Suppression = Suppression(
    cveId: Option<string>, packageName: Option<string>, imageId: Option<ImageId>, expiresAt: Option<Time>)

  predicate Matches(sp: Suppression, f: FindingRow, imageId: ImageId, now: Time) {
    && (sp.cveId.Some? ==> sp.cveId.value == f.vulnerabilityId)
    && (sp.packageName.Some? ==> sp.packageName.value == f.packageName)
    && (sp.imageId.Some? ==> sp.imageId.value == imageId)
    && (sp.expiresAt.Some? ==> sp.expiresAt.value > now)
  }

  predicate Suppressed(sps: seq<Suppression>, f: FindingRow, imageId: ImageId, now: Time) {
    exists sp <- sps :: Matches(sp, f, imageId, now)
  }

  /** suppressionFilter: the findings no suppression matches. */
  function Visible(rows: seq<FindingRow>, sps: seq<Suppression>, imageId: ImageId, now: Time): seq<FindingRow> {
    if rows == [] then []
    else
      var rest, last := Visible(rows[..|rows| - 1], sps, imageId, now), rows[|rows| - 1];
      if Suppressed(sps, last, imageId, now) then rest else rest + [last]
  }

  /** A finding is listed unless an unexpired suppression names its CVE, package and image, or leaves them open. */
  lemma {:induction false} VisibleIff(rows: seq<FindingRow>, sps: seq<Suppression>, imageId: ImageId, now: Time,
                                      f: FindingRow)
    ensures f in Visible(rows, sps, imageId, now) <==>
      && f in rows
      && forall sp <- sps ::
           || (sp.expiresAt.Some? && sp.expiresAt.value <= now)
           || (sp.cveId.Some? && sp.cveId.value != f.vulnerabilityId)
           || (sp.packageName.Some? && sp.packageName.value != f.packageName)
           || (sp.imageId.Some? && sp.imageId.value != imageId)
  {
    if rows != [] {
      VisibleIff(rows[..|rows| - 1], sps, imageId, now, f);
      assert f in rows <==> f in rows[..|rows| - 1] || f == rows[|rows| - 1];
    }
  }

  // ---------------------------------------------------------------- the query

  /** SELECT severity, COUNT(*) ... GROUP BY severity. */
  function GroupBy(rows: seq<FindingRow>): map<Severity, nat> {
    map sev: Severity | CountOf(rows, sev) > 0 :: CountOf(rows, sev)
  }

  function FromCounters(c: Counts): map<Severity, nat> {
    map sev: Severity | CountFor(c, sev) > 0 :: CountFor(c, sev)
  }

  /** The counts of GetScanDetail, which reads the row in one state and the findings, if it must, in a later one. */
  function DetailCounts(atRow: Db, atFindings: Db, id: ScanId, sps: seq<Suppression>, now: Time): map<Severity, nat>
    requires id in atRow.scans
  {
    var r := atRow.scans[id];
    if r.counts != ZERO_COUNTS then FromCounters(r.counts)
    else GroupBy(Visible(RowsOf(atFindings.findings, id), sps, r.imageId, now))
  }

  datatype Detail = Detail(row: ScanRow, severityCount: map<Severity, nat>)

  datatype ReadError = NotFound | ReadFailed

  /**
   `listed` says whether the joins find the image and its registry undeleted. The other actors may run between the two
   reads. When `calm`, neither of them fails.
   */
  method GetScanDetail(d: Deployment, id: ScanId, listed: bool, sps: seq<Suppression>, now: Time, calm: bool)
    returns (r: Result<Detail, ReadError>)
    requires Inv(d.View())
    modifies d, d.pool
    ensures Inv(d.View()) && Reaches(old(d.View()), d.View())
    ensures calm ==> r.Ok? || r == Err(NotFound)
    ensures !listed || id !in old(d.pool.scans) ==> r.Err?
    ensures r == Err(NotFound) ==> !listed || id !in old(d.pool.scans)
    ensures r.Ok? ==>
      r.value == Detail(old(d.pool.scans)[id], DetailCounts(old(d.View().db), d.View().db, id, sps, now))
  {
    hide Inv, Reaches;
    ReachesItself(d.View());
    var fault: bool :| calm ==> !fault;
    if fault {
      return Err(ReadFailed);
    }
    if !listed || id !in d.pool.scans {
      return Err(NotFound);
    }
    var row := d.pool.scans[id];
    var counts := CountsOfRow(row.counts);
    AllZero(row.counts);
    if counts == map[] {
      OthersRun(d, false);
      fault :| calm ==> !fault;
      if fault {
        return Err(ReadFailed);
      }
      counts := GroupFindings(Visible(RowsOf(d.pool.findings, id), sps, row.imageId, now));
    }
    return Ok(Detail(row, counts));
  }

  function SetCount(c: Counts, sev: Severity, n: nat): Counts {
    match sev
    case Critical => c.(critical := n)
    case High => c.(high := n)
    case Medium => c.(medium := n)
    case Low => c.(low := n)
    case Unknown => c.(unknown := n)
  }

  lemma SetCountFor(c: Counts, sev: Severity, n: nat)
    ensures forall k :: CountFor(SetCount(c, sev, n), k) == if k == sev then n else CountFor(c, k)
  {
  }

  /** if n > 0 { d.SeverityCount[sev] = n }, on a map that shows the counters c. */
  method PutPositive(counts: map<Severity, nat>, ghost c: Counts, sev: Severity, n: nat)
    returns (r: map<Severity, nat>)
    requires counts == FromCounters(c) && CountFor(c, sev) == 0
    ensures r == FromCounters(SetCount(c, sev, n))
  {
    SetCountFor(c, sev, n);
    hide SetCount, CountFor;
    r := counts;
    if n > 0 {
      r := counts[sev := n];
    }
  }

  method CountsOfRow(c: Counts) returns (counts: map<Severity, nat>)
    ensures counts == FromCounters(c)
  {
    AllZero(ZERO_COUNTS);
    hide FromCounters;
    counts := PutPositive(map[], ZERO_COUNTS, Critical, c.critical);
    counts := PutPositive(counts, Counts(c.critical, 0, 0, 0, 0), High, c.high);
    counts := PutPositive(counts, Counts(c.critical, c.high, 0, 0, 0), Medium, c.medium);
    counts := PutPositive(counts, Counts(c.critical, c.high, c.medium, 0, 0), Low, c.low);
    counts := PutPositive(counts, Counts(c.critical, c.high, c.medium, c.low, 0), Unknown, c.unknown);
  }

  lemma AllZero(c: Counts)
    ensures FromCounters(c) == map[] <==> c == ZERO_COUNTS
  {
    if c != ZERO_COUNTS {
      var sev := if c.critical > 0 then Critical else if c.high > 0 then High else if c.medium > 0 then Medium
        else if c.low > 0 then Low else Unknown;
      assert sev in FromCounters(c);
    }
  }

  lemma EverySeverity()
    ensures forall sev: Severity :: sev in SEVERITIES
  {
    forall sev: Severity ensures sev in SEVERITIES {
      var i := if sev == Critical then 0 else if sev == High then 1 else if sev == Medium then 2
        else if sev == Low then 3 else 4;
      assert SEVERITIES[i] == sev;
    }
  }

  /** The rows.Next loop over the groups. */
  method GroupFindings(rows: seq<FindingRow>) returns (counts: map<Severity, nat>)
    ensures counts == GroupBy(rows)
  {
    hide CountOf;
    counts := map[];
    for i := 0 to |SEVERITIES|
      invariant counts == Groups(rows, SEVERITIES[..i])
    {
      GroupStep(rows, SEVERITIES, i);
      var sev := SEVERITIES[i];
      if CountOf(rows, sev) > 0 {
        counts := counts[sev := CountOf(rows, sev)];
      }
    }
    assert SEVERITIES[..|SEVERITIES|] == SEVERITIES;
    EverySeverity();
  }

  /** The groups of the listed severities. */
  function Groups(rows: seq<FindingRow>, sevs: seq<Severity>): map<Severity, nat> {
    map sev: Severity | sev in sevs && CountOf(rows, sev) > 0 :: CountOf(rows, sev)
  }

  lemma GroupStep(rows: seq<FindingRow>, sevs: seq<Severity>, i: nat)
    requires i < |sevs|
    ensures var before, n := Groups(rows, sevs[..i]), CountOf(rows, sevs[i]);
      Groups(rows, sevs[..i + 1]) == if n > 0 then before[sevs[i] := n] else before
  {
    hide CountOf;
    assert sevs[..i + 1] == sevs[..i] + [sevs[i]];
  }

  // ---------------------------------------------------------------- the counters agree with the findings

  /** Read in one state, the answer is the GROUP BY of all stored findings: the fallback never changes it. */
  lemma DetailIsRawGroupBy(s: State, id: ScanId, sps: seq<Suppression>, now: Time)
    requires Reachable(s) && id in s.db.scans
    ensures DetailCounts(s.db, s.db, id, sps, now) == GroupBy(RowsOf(s.db.findings, id))
  {
    ResultsOnlyWhenCompleted(s, id);
    var rows := RowsOf(s.db.findings, id);
    CountersAreGroups(rows);
    if rows != [] {
      SomeGroup(rows);
    }
  }

  lemma CountersAreGroups(rows: seq<FindingRow>)
    ensures FromCounters(Histogram(rows)) == GroupBy(rows)
  {
    assert forall sev :: CountFor(Histogram(rows), sev) == CountOf(rows, sev);
  }

  lemma SomeGroup(rows: seq<FindingRow>)
    requires rows != []
    ensures Histogram(rows) != ZERO_COUNTS
  {
    assert CountOf(rows, rows[|rows| - 1].severity) > 0;
  }

  ghost predicate AnySuppressed(rows: seq<FindingRow>, sps: seq<Suppression>, imageId: ImageId, now: Time) {
    exists f <- rows :: Suppressed(sps, f, imageId, now)
  }

  lemma {:induction false} VisibleCounts(rows: seq<FindingRow>, sps: seq<Suppression>, imageId: ImageId, now: Time)
    ensures forall sev :: CountOf(Visible(rows, sps, imageId, now), sev) <= CountOf(rows, sev)
    ensures AnySuppressed(rows, sps, imageId, now) ==>
      exists sev :: CountOf(Visible(rows, sps, imageId, now), sev) < CountOf(rows, sev)
    ensures !AnySuppressed(rows, sps, imageId, now) ==> Visible(rows, sps, imageId, now) == rows
  {
    if rows != [] {
      var front, last := rows[..|rows| - 1], rows[|rows| - 1];
      VisibleCounts(front, sps, imageId, now);
      var vis := Visible(front, sps, imageId, now);
      assert (vis + [last])[..|vis|] == vis;
      if Suppressed(sps, last, imageId, now) {
        assert CountOf(Visible(rows, sps, imageId, now), last.severity) < CountOf(rows, last.severity);
      } else if AnySuppressed(rows, sps, imageId, now) {
        var sev :| CountOf(vis, sev) < CountOf(front, sev);
        assert CountOf(Visible(rows, sps, imageId, now), sev) < CountOf(rows, sev);
      }
    }
  }

  lemma GroupsDiffer(a: seq<FindingRow>, b: seq<FindingRow>, sev: Severity)
    requires CountOf(a, sev) != CountOf(b, sev)
    ensures GroupBy(a) != GroupBy(b)
  {
    if CountOf(a, sev) > 0 {
      assert sev in GroupBy(a);
    } else {
      assert sev in GroupBy(b);
    }
  }

  /** The answer ignores suppressions, so it matches the filtered lists exactly when nothing is suppressed. */
  lemma DetailMatchesListIff(s: State, id: ScanId, sps: seq<Suppression>, now: Time)
    requires Reachable(s) && id in s.db.scans
    ensures var rows, image := RowsOf(s.db.findings, id), s.db.scans[id].imageId;
      DetailCounts(s.db, s.db, id, sps, now) == GroupBy(Visible(rows, sps, image, now)) <==>
      !AnySuppressed(rows, sps, image, now)
  {
    var rows, image := RowsOf(s.db.findings, id), s.db.scans[id].imageId;
    DetailIsRawGroupBy(s, id, sps, now);
    VisibleCounts(rows, sps, image, now);
    if AnySuppressed(rows, sps, image, now) {
      var sev :| CountOf(Visible(rows, sps, image, now), sev) < CountOf(rows, sev);
      GroupsDiffer(rows, Visible(rows, sps, image, now), sev);
    }
  }

  /**
   When a commit falls between the two reads, the answer is still the GROUP BY of the later state, exactly when the
   row was already counted or nothing stored later is suppressed.
   */
  lemma DetailAcrossCommit(s: State, t: State, id: ScanId, sps: seq<Suppression>, now: Time)
    requires Reachable(s) && Reaches(s, t) && id in s.db.scans
    ensures DetailCounts(s.db, t.db, id, sps, now) == GroupBy(RowsOf(t.db.findings, id)) <==>
      s.db.scans[id].counts != ZERO_COUNTS ||
      !AnySuppressed(RowsOf(t.db.findings, id), sps, s.db.scans[id].imageId, now)
  {
    ResultsOnlyWhenCompleted(s, id);
    var rows, image := RowsOf(t.db.findings, id), s.db.scans[id].imageId;
    if s.db.scans[id].counts != ZERO_COUNTS {
      assert RowsOf(s.db.findings, id) != [];
      assert StoredFor(s.db, id) != NOTHING_STORED;
      CompletedIsFinal(s, t, id);
      assert rows == StoredFor(t.db, id).findings == RowsOf(s.db.findings, id);
      CountersAreGroups(rows);
    } else {
      VisibleCounts(rows, sps, image, now);
      if AnySuppressed(rows, sps, image, now) {
        var sev :| CountOf(Visible(rows, sps, image, now), sev) < CountOf(rows, sev);
        GroupsDiffer(rows, Visible(rows, sps, image, now), sev);
      }
    }
  }

  // ---------------------------------------------------------------- the failing side occurs

  const ONE_FINDING := ScanResult(
    [VulnResult("CVE-2024-1", "a", "1", "", "high", "", "", "", 0.0, "", "", "", 0)], [], [], [], "", "", None)

  /** A suppression of everything. */
  const EVERYTHING := Suppression(None, None, None, None)

  /**
   A scan before and after a commit with one finding, which is suppressed: the counters differ from the filtered list,
   and a detail read across the commit differs from the later GROUP BY.
   */
  lemma SuppressedFindingOccurs(image: ImageId) returns (s: State, t: State)
    ensures Reachable(s) && Reaches(s, t) && 0 in s.db.scans && 0 in t.db.scans && Reachable(t)
    ensures var rows := RowsOf(t.db.findings, 0);
      && DetailCounts(t.db, t.db, 0, [EVERYTHING], 0) != GroupBy(Visible(rows, [EVERYTHING], t.db.scans[0].imageId, 0))
      && DetailCounts(s.db, t.db, 0, [EVERYTHING], 0) != GroupBy(rows)
  {
    s := PendingAndQueued(image);
    OneFindingFits();
    QueuedCanComplete(s, 0, ONE_FINDING);
    hide Reachable, RowsFit, Reaches, Wanted, Queued;
    t :| Reaches(s, t) && Done(t.db, 0) && StoredFor(t.db, 0) == Wanted(ONE_FINDING);
    StillReachable(s, t);
    OneStored(t.db, 0);
    hide StoredFor, AnySuppressed, DetailCounts, GroupBy, Visible;
    AllSuppressed(RowsOf(t.db.findings, 0), t.db.scans[0].imageId);
    AllSuppressed(RowsOf(t.db.findings, 0), s.db.scans[0].imageId);
    DetailMatchesListIff(t, 0, [EVERYTHING], 0);
    DetailAcrossCommit(s, t, 0, [EVERYTHING], 0);
  }

  lemma OneStored(db: Db, id: ScanId)
    requires StoredFor(db, id) == Wanted(ONE_FINDING)
    ensures |RowsOf(db.findings, id)| == 1
  {
  }

  lemma AllSuppressed(rows: seq<FindingRow>, image: ImageId)
    requires |rows| == 1
    ensures AnySuppressed(rows, [EVERYTHING], image, 0)
  {
    assert rows[0] in rows && EVERYTHING in [EVERYTHING] && Matches(EVERYTHING, rows[0], image, 0);
  }

  lemma OneFindingFits()
    ensures RowsFit(ONE_FINDING)
  {
  }

  lemma StillReachable(s: State, t: State)
    requires Reachable(s) && Reaches(s, t)
    ensures Reachable(t)
  {
    hide Reaches;
    var s0 :| Init(s0) && Reaches(s0, s);
    ReachesTransitive(s0, s, t);
  }

  lemma PendingAndQueued(image: ImageId) returns (s: State)
    ensures Reachable(s) && Queued(s, 0) && 0 in s.db.scans && s.db.scans[0].counts == ZERO_COUNTS
  {
    hide Reaches;
    var s0 := Empty(1);
    var insert, push := InsertScan(0, image, Manual), Enqueue(0, "");
    var s1 := Apply(s0, insert);
    OneStep(s0, insert);
    s := Apply(s1, push);
    OneStep(s1, push);
    ReachesTransitive(s0, s1, s);
    assert Init(s0);
    assert s.queue[0].scanId == 0;
  }
}
