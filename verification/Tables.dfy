/** The Postgres tables a scan writes, as values, and the SQL statements on them. */
module Tables {
  import opened Wrappers
  import opened Text

  type ScanId = nat
  type ImageId = nat
  type Time = nat

  // ---------------------------------------------------------------- rows

  datatype Status = Pending | Running | Completed | Failed | Cancelled

  datatype Trigger = Manual | Schedule | Webhook

  datatype Severity = Critical | High | Medium | Low | Unknown

  datatype Counts = Counts(critical: nat, high: nat, medium: nat, low: nat, unknown: nat)

  const ZERO_COUNTS := Counts(0, 0, 0, 0, 0)

  datatype ScanRow = ScanRow(
    imageId: ImageId, status: Status, triggeredBy: Trigger,
    startedAt: Option<Time>, completedAt: Option<Time>, errorMessage: Option<string>,
    trivyVersion: Option<string>, counts: Counts,
    imageOs: Option<string>, imageArch: Option<string>, imageSize: Option<int>, layerCount: Option<int>)

  datatype FindingRow = FindingRow(
    vulnerabilityId: string, packageName: string,
    installedVersion: Option<string>, fixedVersion: Option<string>, severity: Severity,
    title: Option<string>, description: Option<string>, dataSource: Option<string>,
    cvssScore: Option<real>, cvssVector: Option<string>, primaryUrl: Option<string>,
    layerDigest: Option<string>, layerIndex: Option<int>)

  datatype PackageRow = PackageRow(
    name: string, version: string, kind: string, layerDigest: string, licenses: seq<string>, filePath: string)

  datatype MisconfigRow = MisconfigRow(
    kind: string, checkId: string, title: string, description: string, severity: Severity,
    resolution: string, filePath: string, startLine: int, endLine: int)

  datatype SecretRow = SecretRow(
    ruleId: string, category: string, severity: Severity, title: string, matchText: string,
    filePath: string, startLine: int, endLine: int, layerDigest: string)

  datatype SbomFormat = CycloneDX | SPDX

  datatype SbomRow = SbomRow(format: SbomFormat, content: string)

  // ---------------------------------------------------------------- tables keyed by scan

  datatype Keyed<+T> = Keyed(scanId: ScanId, row: T)

  /** SELECT ... WHERE scan_id = id, in insertion order. */
  function RowsOf<T>(table: seq<Keyed<T>>, id: ScanId): seq<T> {
    if table == [] then []
    else
      var rest := RowsOf(table[..|table| - 1], id);
      var last := table[|table| - 1];
      if last.scanId == id then rest + [last.row] else rest
  }

  /** DELETE ... WHERE scan_id = id. */
  function Without<T>(table: seq<Keyed<T>>, id: ScanId): seq<Keyed<T>> {
    if table == [] then []
    else
      var rest := Without(table[..|table| - 1], id);
      var last := table[|table| - 1];
      if last.scanId == id then rest else rest + [last]
  }

  /** The rows INSERTed for one scan. */
  function Stamp<T>(id: ScanId, rows: seq<T>): seq<Keyed<T>> {
    seq(|rows|, i requires 0 <= i < |rows| => Keyed(id, rows[i]))
  }

  /** DELETE followed by the INSERTs replaces the scan's rows and no others. */
  lemma ReplaceRows<T>(table: seq<Keyed<T>>, id: ScanId, rows: seq<T>)
    ensures RowsOf(Without(table, id) + Stamp(id, rows), id) == rows
    ensures forall other :: other != id ==>
      RowsOf(Without(table, id) + Stamp(id, rows), other) == RowsOf(table, other)
  {
    WithoutRows(table, id);
    StampRows(Without(table, id), id, rows);
  }

  lemma {:induction false} WithoutRows<T>(table: seq<Keyed<T>>, id: ScanId)
    ensures RowsOf(Without(table, id), id) == []
    ensures forall other :: other != id ==> RowsOf(Without(table, id), other) == RowsOf(table, other)
  {
    if table != [] {
      var front, last := table[..|table| - 1], table[|table| - 1];
      WithoutRows(front, id);
      if last.scanId != id {
        var w := Without(front, id);
        assert (w + [last])[..|w|] == w;
      }
    }
  }

  lemma {:induction false} StampRows<T>(base: seq<Keyed<T>>, id: ScanId, rows: seq<T>)
    ensures RowsOf(base + Stamp(id, rows), id) == RowsOf(base, id) + rows
    ensures forall other :: other != id ==> RowsOf(base + Stamp(id, rows), other) == RowsOf(base, other)
  {
    if rows == [] {
      assert base + Stamp(id, rows) == base;
    } else {
      var n := |rows| - 1;
      var all := base + Stamp(id, rows);
      assert all[..|all| - 1] == base + Stamp(id, rows[..n]);
      assert all[|all| - 1] == Keyed(id, rows[n]);
      StampRows(base, id, rows[..n]);
      assert rows == rows[..n] + [rows[n]];
    }
  }

  // ---------------------------------------------------------------- open scans

  type Scans = map<ScanId, ScanRow>

  predicate Open(status: Status) {
    status == Pending || status == Running
  }

  /** ImageHasPendingOrRunningScan. */
  predicate Busy(scans: Scans, image: ImageId) {
    exists id :: id in scans && scans[id].imageId == image && Open(scans[id].status)
  }

  // ---------------------------------------------------------------- the whole database

  datatype Db = Db(
    scans: map<ScanId, ScanRow>,
    findings: seq<Keyed<FindingRow>>,
    packages: seq<Keyed<PackageRow>>,
    misconfigs: seq<Keyed<MisconfigRow>>,
    secrets: seq<Keyed<SecretRow>>,
    sboms: seq<Keyed<SbomRow>>)

  /** Everything the tables hold about one scan. */
  datatype Stored = Stored(
    findings: seq<FindingRow>, packages: seq<PackageRow>, misconfigs: seq<MisconfigRow>,
    secrets: seq<SecretRow>, sboms: seq<SbomRow>)

  const NOTHING_STORED := Stored([], [], [], [], [])

  function StoredFor(db: Db, id: ScanId): Stored {
    Stored(RowsOf(db.findings, id), RowsOf(db.packages, id), RowsOf(db.misconfigs, id),
           RowsOf(db.secrets, id), RowsOf(db.sboms, id))
  }

  // ---------------------------------------------------------------- severities

  /** normalizeSeverity. */
  function NormalizeSeverity(s: string): Severity {
    var t := ToLower(TrimSpace(s));
    if t == "critical" then Critical
    else if t == "high" then High
    else if t == "medium" then Medium
    else if t == "low" then Low
    else Unknown
  }

  /** The text is the severity's name, in any letter case and with any white space around it, or no other's name. */
  ghost predicate HasSeverity(text: string, sev: Severity) {
    match sev
    case Critical => Reads(text, "critical")
    case High => Reads(text, "high")
    case Medium => Reads(text, "medium")
    case Low => Reads(text, "low")
    case Unknown =>
      !Reads(text, "critical") && !Reads(text, "high") && !Reads(text, "medium") && !Reads(text, "low")
  }

  lemma SeverityNames()
    ensures forall name <- ["critical", "high", "medium", "low"] ::
      Trimmed(name, IsSpace) && forall c <- name :: !('A' <= c <= 'Z')
  {
  }

  /** What a severity text is stored as. */
  lemma SeverityIff(s: string)
    ensures NormalizeSeverity(s) == Critical <==> Reads(s, "critical")
    ensures NormalizeSeverity(s) == High <==> Reads(s, "high")
    ensures NormalizeSeverity(s) == Medium <==> Reads(s, "medium")
    ensures NormalizeSeverity(s) == Low <==> Reads(s, "low")
    ensures HasSeverity(s, NormalizeSeverity(s))
  {
    var t := ToLower(TrimSpace(s));
    hide ToLower, TrimSpace, Reads, Trimmed;
    SeverityNames();
    forall name <- ["critical", "high", "medium", "low"] ensures t == name <==> Reads(s, name) {
      LowerReads(s, name);
      NoCapitals(name);
    }
    assert "critical" in ["critical", "high", "medium", "low"] && "high" in ["critical", "high", "medium", "low"];
    assert "medium" in ["critical", "high", "medium", "low"] && "low" in ["critical", "high", "medium", "low"];
  }

  /** SELECT COUNT(*) ... WHERE severity = sev. */
  function CountOf(rows: seq<FindingRow>, sev: Severity): nat {
    if rows == [] then 0
    else CountOf(rows[..|rows| - 1], sev) + (if rows[|rows| - 1].severity == sev then 1 else 0)
  }

  /** The positions of the rows with a severity, among the first n. */
  ghost function Where(rows: seq<FindingRow>, n: nat, sev: Severity): set<nat>
    requires n <= |rows|
  {
    set i | 0 <= i < n && rows[i].severity == sev
  }

  lemma CountSnoc(rows: seq<FindingRow>, n: nat, sev: Severity)
    requires n < |rows|
    ensures CountOf(rows[..n + 1], sev) == CountOf(rows[..n], sev) + if rows[n].severity == sev then 1 else 0
  {
    assert rows[..n + 1][..n] == rows[..n];
  }

  lemma WhereSnoc(rows: seq<FindingRow>, n: nat, sev: Severity)
    requires n < |rows|
    ensures n !in Where(rows, n, sev)
    ensures Where(rows, n + 1, sev) == Where(rows, n, sev) + if rows[n].severity == sev then {n} else {}
  {
  }

  lemma {:induction false} CountIsSize(rows: seq<FindingRow>, n: nat, sev: Severity)
    requires n <= |rows|
    ensures CountOf(rows[..n], sev) == |Where(rows, n, sev)|
  {
    if n > 0 {
      hide CountOf, Where;
      CountIsSize(rows, n - 1, sev);
      CountSnoc(rows, n - 1, sev);
      WhereSnoc(rows, n - 1, sev);
    }
  }

  function Histogram(rows: seq<FindingRow>): Counts {
    Counts(CountOf(rows, Critical), CountOf(rows, High), CountOf(rows, Medium), CountOf(rows, Low),
           CountOf(rows, Unknown))
  }

  function CountFor(c: Counts, sev: Severity): nat {
    match sev
    case Critical => c.critical
    case High => c.high
    case Medium => c.medium
    case Low => c.low
    case Unknown => c.unknown
  }
}
