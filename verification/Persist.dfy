/** internal/db/persist_scan.go: one transaction that replaces a scan's results and completes it. */
module Persist {
  import opened Wrappers
  import opened Text
  import opened Tables
  import opened Backend

  // ---------------------------------------------------------------- what the scanner returns

  datatype VulnResult = VulnResult(
    vulnerabilityId: string, packageName: string, installedVersion: string, fixedVersion: string,
    severity: string, title: string, description: string, dataSource: string,
    cvssScore: real, cvssVector: string, primaryUrl: string, layerDigest: string, layerIndex: int)

  datatype MisconfigResult = MisconfigResult(
    kind: string, checkId: string, title: string, description: string, severity: string,
    resolution: string, filePath: string, startLine: int, endLine: int)

  datatype SecretResult = SecretResult(
    ruleId: string, category: string, severity: string, title: string, matchText: string,
    filePath: string, startLine: int, endLine: int, layerDigest: string)

  datatype Metadata = Metadata(os: string, architecture: string, imageSize: int, layerCount: int)

  /** A package result has the columns of a package row. */
  datatype ScanResult = ScanResult(
    vulnerabilities: seq<VulnResult>, packages: seq<PackageRow>, misconfigs: seq<MisconfigResult>,
    secrets: seq<SecretResult>, cycloneDX: string, spdx: string, metadata: Option<Metadata>)

  // ---------------------------------------------------------------- column values

  predicate Blank(s: string) {
    TrimSpace(s) == ""
  }

  function NullIfEmpty(s: string): Option<string> {
    if Blank(s) then None else Some(s)
  }

  function NullIfZero<T(==)>(v: T, zero: T): Option<T> {
    if v == zero then None else Some(v)
  }

  /** SQL NULLIF(s, ''). */
  function NullIf(s: string): Option<string> {
    if s == "" then None else Some(s)
  }

  function OrElse(s: string, default: string): string {
    if s == "" then default else s
  }

  // ---------------------------------------------------------------- rows from results

  /** The placeholder names vulnResultsToFindingRows fills in. */
  function Named(v: VulnResult): VulnResult {
    v.(vulnerabilityId := OrElse(v.vulnerabilityId, "UNKNOWN"), packageName := OrElse(v.packageName, "unknown"))
  }

  /** The column values of one INSERT INTO findings. */
  function Columns(v: VulnResult): FindingRow {
    FindingRow(
      v.vulnerabilityId, v.packageName,
      NullIfEmpty(v.installedVersion), NullIfEmpty(v.fixedVersion), NormalizeSeverity(v.severity),
      NullIfEmpty(v.title), NullIfEmpty(v.description), NullIfEmpty(v.dataSource),
      NullIfZero(v.cvssScore, 0.0), NullIfEmpty(v.cvssVector), NullIfEmpty(v.primaryUrl),
      NullIfEmpty(v.layerDigest), NullIfZero(v.layerIndex, 0))
  }

  function ToFinding(v: VulnResult): FindingRow {
    Columns(Named(v))
  }

  function ToMisconfig(m: MisconfigResult): MisconfigRow {
    MisconfigRow(m.kind, m.checkId, m.title, m.description, NormalizeSeverity(m.severity),
                 m.resolution, m.filePath, m.startLine, m.endLine)
  }

  function ToSecret(s: SecretResult): SecretRow {
    SecretRow(s.ruleId, s.category, NormalizeSeverity(s.severity), s.title, s.matchText,
              s.filePath, s.startLine, s.endLine, s.layerDigest)
  }

  function Map<A, B>(f: A -> B, xs: seq<A>): (ys: seq<B>)
    ensures |ys| == |xs|
    ensures forall i :: 0 <= i < |xs| ==> ys[i] == f(xs[i])
  {
    seq(|xs|, i requires 0 <= i < |xs| => f(xs[i]))
  }

  function SbomRows(res: ScanResult): seq<SbomRow> {
    (if res.cycloneDX != "" then [SbomRow(CycloneDX, res.cycloneDX)] else []) +
    (if res.spdx != "" then [SbomRow(SPDX, res.spdx)] else [])
  }

  /** Everything a result asks the tables to hold. */
  function Wanted(res: ScanResult): Stored {
    Stored(Map(ToFinding, res.vulnerabilities), res.packages, Map(ToMisconfig, res.misconfigs),
           Map(ToSecret, res.secrets), SbomRows(res))
  }

  // ---------------------------------------------------------------- constraints of the schema

  /** vulnerability_id is VARCHAR(255). */
  predicate FindingFits(v: VulnResult) {
    |v.vulnerabilityId| <= 255
  }

  /** layer_digest is NOT NULL, and a blank digest is sent as NULL. */
  predicate PackageFits(p: PackageRow) {
    !Blank(p.layerDigest)
  }

  /** resolution is NOT NULL, and a blank one is sent as NULL. */
  predicate MisconfigFits(m: MisconfigResult) {
    !Blank(m.resolution)
  }

  /** title and layer_digest are NOT NULL, and blank ones are sent as NULL. */
  predicate SecretFits(s: SecretResult) {
    !Blank(s.title) && !Blank(s.layerDigest)
  }

  predicate RowsFit(res: ScanResult) {
    && (forall v <- res.vulnerabilities :: FindingFits(v))
    && (forall p <- res.packages :: PackageFits(p))
    && (forall m <- res.misconfigs :: MisconfigFits(m))
    && (forall s <- res.secrets :: SecretFits(s))
  }

  /** The schema takes every row of the result; `known` says whether the foreign key to scans resolves. */
  predicate Fits(res: ScanResult, known: bool) {
    RowsFit(res) && (known || Wanted(res) == NOTHING_STORED)
  }

  /** Which results the schema takes: ids of at most 255 characters, and no blank text where NULL is refused. */
  lemma FitsIff(res: ScanResult, known: bool)
    ensures Fits(res, known) <==>
      && (forall v <- res.vulnerabilities :: |v.vulnerabilityId| <= 255)
      && (forall p <- res.packages :: !AllSpace(p.layerDigest))
      && (forall m <- res.misconfigs :: !AllSpace(m.resolution))
      && (forall s <- res.secrets :: !AllSpace(s.title) && !AllSpace(s.layerDigest))
      && (known || (res.vulnerabilities == [] && res.packages == [] && res.misconfigs == [] && res.secrets == [] &&
                    res.cycloneDX == "" && res.spdx == ""))
  {
    forall s ensures Blank(s) <==> AllSpace(s) {
      BlankIff(s);
    }
    hide Blank, AllSpace;
    NothingWanted(res);
  }

  lemma NothingWanted(res: ScanResult)
    ensures Wanted(res) == NOTHING_STORED <==>
      res.vulnerabilities == [] && res.packages == [] && res.misconfigs == [] && res.secrets == [] &&
      res.cycloneDX == "" && res.spdx == ""
  {
    hide ToFinding, ToMisconfig, ToSecret;
    var w := Wanted(res);
    assert |w.findings| == |res.vulnerabilities| && |w.misconfigs| == |res.misconfigs| && |w.secrets| == |res.secrets|;
  }

  /** One package without a layer digest is enough. */
  lemma BlankDigestDoesNotFit(known: bool)
    ensures !Fits(ScanResult([], [PackageRow("a", "1", "deb", "", [], "")], [], [], "", "", None), known)
  {
    hide TrimSpace;
    var p := PackageRow("a", "1", "deb", "", [], "");
    TrimSpaceKeeps("");
    assert p in [p] && !PackageFits(p);
  }

  // ---------------------------------------------------------------- the committed database

  function CompletedRow(r: ScanRow, res: ScanResult, counts: Counts, version: string, now: Time): ScanRow {
    var m := res.metadata.GetOr(Metadata("", "", 0, 0));
    r.(status := Completed, completedAt := Some(now), errorMessage := None,
       trivyVersion := NullIf(version), counts := counts,
       imageOs := NullIf(m.os), imageArch := NullIf(m.architecture),
       imageSize := if m.imageSize > 0 then Some(m.imageSize) else None,
       layerCount := if m.layerCount > 0 then Some(m.layerCount) else None)
  }

  /** The database after a commit whose transaction began at `now`. */
  function Committed(db: Db, id: ScanId, res: ScanResult, version: string, now: Time): Db {
    var want := Wanted(res);
    Db(if id in db.scans then
         db.scans[id := CompletedRow(db.scans[id], res, Histogram(want.findings), version, now)]
       else db.scans,
       Without(db.findings, id) + Stamp(id, want.findings),
       Without(db.packages, id) + Stamp(id, want.packages),
       Without(db.misconfigs, id) + Stamp(id, want.misconfigs),
       Without(db.secrets, id) + Stamp(id, want.secrets),
       Without(db.sboms, id) + Stamp(id, want.sboms))
  }

  /** A commit leaves exactly the result's rows for the scan and touches no other scan. */
  lemma CommitReplaces(db: Db, id: ScanId, res: ScanResult, version: string, now: Time)
    ensures var db' := Committed(db, id, res, version, now);
      && StoredFor(db', id) == Wanted(res)
      && (forall other :: other != id ==> StoredFor(db', other) == StoredFor(db, other))
      && db'.scans - {id} == db.scans - {id}
  {
    var want := Wanted(res);
    ReplaceRows(db.findings, id, want.findings);
    ReplaceRows(db.packages, id, want.packages);
    ReplaceRows(db.misconfigs, id, want.misconfigs);
    ReplaceRows(db.secrets, id, want.secrets);
    ReplaceRows(db.sboms, id, want.sboms);
  }

  /** The row says which scanner ran and what it found out about the image; NULL where it found nothing. */
  predicate Described(r: ScanRow, metadata: Option<Metadata>, version: string) {
    && r.trivyVersion == (if version == "" then None else Some(version))
    && (metadata.None? ==> r.imageOs.None? && r.imageArch.None? && r.imageSize.None? && r.layerCount.None?)
    && (metadata.Some? ==>
          var m := metadata.value;
          && r.imageOs == (if m.os == "" then None else Some(m.os))
          && r.imageArch == (if m.architecture == "" then None else Some(m.architecture))
          && r.imageSize == (if m.imageSize > 0 then Some(m.imageSize) else None)
          && r.layerCount == (if m.layerCount > 0 then Some(m.layerCount) else None))
  }

  /** What a commit leaves in the scan's own row: the counters are the histogram of the stored findings. */
  lemma CommitRow(db: Db, id: ScanId, res: ScanResult, version: string, now: Time)
    requires id in db.scans
    ensures var db' := Committed(db, id, res, version, now);
      && db'.scans.Keys == db.scans.Keys
      && var r := db'.scans[id];
        && r.status == Completed && r.completedAt == Some(now) && r.errorMessage == None
        && r.startedAt == db.scans[id].startedAt && r.imageId == db.scans[id].imageId
        && r.triggeredBy == db.scans[id].triggeredBy
        && r.counts == Histogram(RowsOf(db'.findings, id))
        && Described(r, res.metadata, version)
  {
    hide CountOf, ToFinding, ToMisconfig, ToSecret, Without, Stamp;
    ReplaceRows(db.findings, id, Wanted(res).findings);
  }

  // ---------------------------------------------------------------- what is stored of a result

  /** A nullable text column: NULL for blank text, and otherwise the text as it is. */
  ghost predicate Column(column: Option<string>, text: string) {
    if AllSpace(text) then column.None? else column == Some(text)
  }

  /** The row of one vulnerability, column by column. */
  ghost predicate ShowsVuln(f: FindingRow, v: VulnResult) {
    && f.vulnerabilityId == (if v.vulnerabilityId == "" then "UNKNOWN" else v.vulnerabilityId)
    && f.packageName == (if v.packageName == "" then "unknown" else v.packageName)
    && Column(f.installedVersion, v.installedVersion) && Column(f.fixedVersion, v.fixedVersion)
    && HasSeverity(v.severity, f.severity)
    && Column(f.title, v.title) && Column(f.description, v.description) && Column(f.dataSource, v.dataSource)
    && f.cvssScore.GetOr(0.0) == v.cvssScore && f.cvssScore != Some(0.0)
    && Column(f.cvssVector, v.cvssVector) && Column(f.primaryUrl, v.primaryUrl)
    && Column(f.layerDigest, v.layerDigest)
    && f.layerIndex.GetOr(0) == v.layerIndex && f.layerIndex != Some(0)
  }

  /** All columns but the severity are the result's. */
  ghost predicate ShowsMisconfig(r: MisconfigRow, m: MisconfigResult) {
    && HasSeverity(m.severity, r.severity)
    && m == MisconfigResult(r.kind, r.checkId, r.title, r.description, m.severity, r.resolution, r.filePath,
                            r.startLine, r.endLine)
  }

  ghost predicate ShowsSecret(r: SecretRow, s: SecretResult) {
    && HasSeverity(s.severity, r.severity)
    && s == SecretResult(r.ruleId, r.category, s.severity, r.title, r.matchText, r.filePath, r.startLine, r.endLine,
                         r.layerDigest)
  }

  lemma FindingShows(v: VulnResult)
    ensures ShowsVuln(ToFinding(v), v)
  {
    hide NormalizeSeverity, HasSeverity, Column, NullIfEmpty;
    OneSeverity(v.severity, NormalizeSeverity(v.severity));
    forall text ensures Column(NullIfEmpty(text), text) {
      NullColumn(text);
    }
  }

  lemma NullColumn(text: string)
    ensures Column(NullIfEmpty(text), text)
  {
    hide TrimSpace, AllSpace;
    BlankIff(text);
  }

  lemma MisconfigShows(m: MisconfigResult)
    ensures ShowsMisconfig(ToMisconfig(m), m)
  {
    hide NormalizeSeverity, HasSeverity;
    OneSeverity(m.severity, NormalizeSeverity(m.severity));
  }

  lemma SecretShows(s: SecretResult)
    ensures ShowsSecret(ToSecret(s), s)
  {
    hide NormalizeSeverity, HasSeverity;
    OneSeverity(s.severity, NormalizeSeverity(s.severity));
  }

  /** What a commit stores: one row a result, in order, with the result's own columns, and the documents that came. */
  lemma StoredRows(db: Db, id: ScanId, res: ScanResult, version: string, now: Time)
    ensures
      var t := StoredFor(Committed(db, id, res, version, now), id);
      && |t.findings| == |res.vulnerabilities| && |t.misconfigs| == |res.misconfigs| && |t.secrets| == |res.secrets|
      && (forall i :: 0 <= i < |t.findings| ==> ShowsVuln(t.findings[i], res.vulnerabilities[i]))
      && (forall i :: 0 <= i < |t.misconfigs| ==> ShowsMisconfig(t.misconfigs[i], res.misconfigs[i]))
      && (forall i :: 0 <= i < |t.secrets| ==> ShowsSecret(t.secrets[i], res.secrets[i]))
      && t.packages == res.packages
      && (forall r :: r in t.sboms <==>
            r.content != "" && r.content == if r.format.CycloneDX? then res.cycloneDX else res.spdx)
      && (forall i, j :: 0 <= i < j < |t.sboms| ==> t.sboms[i].format != t.sboms[j].format)
  {
    CommitReplaces(db, id, res, version, now);
    hide Committed, StoredFor, ShowsVuln, ShowsMisconfig, ShowsSecret, ToFinding, ToMisconfig, ToSecret;
    forall v ensures ShowsVuln(ToFinding(v), v) {
      FindingShows(v);
    }
    forall m ensures ShowsMisconfig(ToMisconfig(m), m) {
      MisconfigShows(m);
    }
    forall s ensures ShowsSecret(ToSecret(s), s) {
      SecretShows(s);
    }
  }

  /** How many results have this name for their severity. */
  ghost function Naming(vs: seq<VulnResult>, name: string): nat {
    |set i | 0 <= i < |vs| && Reads(vs[i].severity, name)|
  }

  /** The results of a severity, by their positions. */
  ghost function Having(vs: seq<VulnResult>, sev: Severity): set<nat> {
    set i | 0 <= i < |vs| && HasSeverity(vs[i].severity, sev)
  }

  /** Each counter is the number of results with that severity, the last one of those with none of the names. */
  ghost predicate Counted(c: Counts, vs: seq<VulnResult>) {
    && c.critical == Naming(vs, "critical") && c.high == Naming(vs, "high")
    && c.medium == Naming(vs, "medium") && c.low == Naming(vs, "low")
    && c.unknown == |Having(vs, Unknown)|
  }

  lemma RowsHave(vs: seq<VulnResult>, sev: Severity)
    ensures CountOf(Map(ToFinding, vs), sev) == |Having(vs, sev)|
  {
    hide ToFinding, NormalizeSeverity, HasSeverity, CountOf;
    var rows := Map(ToFinding, vs);
    forall i | 0 <= i < |vs| ensures rows[i].severity == sev <==> HasSeverity(vs[i].severity, sev) {
      SeverityNormalised(vs[i]);
      OneSeverity(vs[i].severity, sev);
    }
    CountIsSize(rows, |rows|, sev);
    assert rows[..|rows|] == rows && Where(rows, |rows|, sev) == Having(vs, sev);
  }

  lemma OneSeverity(s: string, sev: Severity)
    ensures NormalizeSeverity(s) == sev <==> HasSeverity(s, sev)
  {
    hide NormalizeSeverity, Reads;
    SeverityIff(s);
  }

  lemma NamesHave(vs: seq<VulnResult>)
    ensures Naming(vs, "critical") == |Having(vs, Critical)| && Naming(vs, "high") == |Having(vs, High)|
    ensures Naming(vs, "medium") == |Having(vs, Medium)| && Naming(vs, "low") == |Having(vs, Low)|
  {
    hide Reads;
    assert (set i | 0 <= i < |vs| && Reads(vs[i].severity, "critical")) == Having(vs, Critical);
    assert (set i | 0 <= i < |vs| && Reads(vs[i].severity, "high")) == Having(vs, High);
    assert (set i | 0 <= i < |vs| && Reads(vs[i].severity, "medium")) == Having(vs, Medium);
    assert (set i | 0 <= i < |vs| && Reads(vs[i].severity, "low")) == Having(vs, Low);
  }

  /** After a commit each counter is the number of results with that severity. */
  lemma CommitCounts(db: Db, id: ScanId, res: ScanResult, version: string, now: Time)
    requires id in db.scans
    ensures Counted(Committed(db, id, res, version, now).scans[id].counts, res.vulnerabilities)
  {
    hide ToFinding, CountOf, Naming, Having, HasSeverity;
    var vs := res.vulnerabilities;
    RowsHave(vs, Critical);
    RowsHave(vs, High);
    RowsHave(vs, Medium);
    RowsHave(vs, Low);
    RowsHave(vs, Unknown);
    NamesHave(vs);
    assert Committed(db, id, res, version, now).scans[id].counts == Histogram(Map(ToFinding, vs));
  }

  /** Repeating a commit with the same result changes nothing but the completion time. */
  lemma CommitIsIdempotent(db: Db, id: ScanId, res: ScanResult, version: string, t1: Time, t2: Time)
    ensures var once := Committed(db, id, res, version, t1);
      var twice := Committed(once, id, res, version, t2);
      && (forall any :: StoredFor(twice, any) == StoredFor(once, any))
      && twice.scans ==
         if id in db.scans then once.scans[id := once.scans[id].(completedAt := Some(t2))] else once.scans
  {
    var once := Committed(db, id, res, version, t1);
    CommitReplaces(db, id, res, version, t1);
    CommitReplaces(once, id, res, version, t2);
    forall any ensures StoredFor(Committed(once, id, res, version, t2), any) == StoredFor(once, any) {
    }
  }

  // ---------------------------------------------------------------- the code

  datatype Table = Findings | Packages | Misconfigs | Secrets

  datatype PersistError = StatementFailed | RowRejected(table: Table, index: nat)

  /** Statements of a transaction that runs to its end: BEGIN, five DELETEs, the INSERTs, UPDATE, COMMIT. */
  function Statements(res: ScanResult): nat {
    6 + |res.vulnerabilities| + |res.packages| + |res.misconfigs| + |res.secrets| + |SbomRows(res)| + 2
  }

  ghost predicate NoFault(faults: nat -> bool, from: nat, to: nat) {
    forall k :: from <= k < to ==> !faults(k)
  }

  lemma MapSnoc<A, B>(f: A -> B, xs: seq<A>, i: nat)
    requires i < |xs|
    ensures Map(f, xs[..i + 1]) == Map(f, xs[..i]) + [f(xs[i])]
  {
  }

  lemma HistogramSnoc(rows: seq<FindingRow>, r: FindingRow)
    ensures forall sev :: CountOf(rows + [r], sev) == CountOf(rows, sev) + if r.severity == sev then 1 else 0
  {
    assert (rows + [r])[..|rows|] == rows;
  }

  lemma SeverityNormalised(v: VulnResult)
    ensures ToFinding(v).severity == NormalizeSeverity(v.severity)
  {
  }

  method ComputeSeverityCounts(vulns: seq<VulnResult>) returns (c: Counts)
    ensures c == Histogram(Map(ToFinding, vulns))
  {
    hide Columns, NormalizeSeverity, ToFinding;
    c := ZERO_COUNTS;
    for i := 0 to |vulns|
      invariant c == Histogram(Map(ToFinding, vulns[..i]))
    {
      MapSnoc(ToFinding, vulns, i);
      HistogramSnoc(Map(ToFinding, vulns[..i]), ToFinding(vulns[i]));
      var sev := NormalizeSeverity(vulns[i].severity);
      SeverityNormalised(vulns[i]);
      match sev {
        case Critical => c := c.(critical := c.critical + 1);
        case High => c := c.(high := c.high + 1);
        case Medium => c := c.(medium := c.medium + 1);
        case Low => c := c.(low := c.low + 1);
        case Unknown => c := c.(unknown := c.unknown + 1);
      }
    }
    assert vulns[..|vulns|] == vulns;
  }

  method VulnResultsToFindingRows(vs: seq<VulnResult>) returns (out: seq<VulnResult>)
    ensures out == Map(Named, vs)
  {
    out := [];
    for i := 0 to |vs|
      invariant out == Map(Named, vs[..i])
    {
      var vid, pkg := vs[i].vulnerabilityId, vs[i].packageName;
      if vid == "" {
        vid := "UNKNOWN";
      }
      if pkg == "" {
        pkg := "unknown";
      }
      out := out + [vs[i].(vulnerabilityId := vid, packageName := pkg)];
    }
  }

  /** One batch of INSERTs, run row by row until one is refused. */
  method SendBatch<A, T>(tx: seq<Keyed<T>>, id: ScanId, items: seq<A>, column: A -> T, fits: A -> bool,
                         known: bool, table: Table, faults: nat -> bool, k: nat)
    returns (tx': seq<Keyed<T>>, err: Option<PersistError>)
    ensures err.None? <==> NoFault(faults, k, k + |items|) && (known || items == []) && (forall a <- items :: fits(a))
    ensures err.None? ==> tx' == tx + Stamp(id, Map(column, items))
    ensures err.Some? ==> err.value.RowRejected? && err.value.table == table
    ensures err.Some? ==>
      var i := err.value.index;
      && i < |items| && (faults(k + i) || !known || !fits(items[i]))
      && NoFault(faults, k, k + i) && (i > 0 ==> known) && forall j :: 0 <= j < i ==> fits(items[j])
  {
    tx' := tx;
    for i := 0 to |items|
      invariant tx' == tx + Stamp(id, Map(column, items[..i]))
      invariant NoFault(faults, k, k + i)
      invariant i > 0 ==> known
      invariant forall j :: 0 <= j < i ==> fits(items[j])
    {
      if faults(k + i) || !known || !fits(items[i]) {
        assert items[i] in items;
        return tx', Some(RowRejected(table, i));
      }
      tx' := tx' + [Keyed(id, column(items[i]))];
    }
    assert items[..|items|] == items;
    return tx', None;
  }

  /** The placeholder names fit wherever the empty ones did. */
  lemma NamesFit(vs: seq<VulnResult>)
    ensures (forall r <- Map(Named, vs) :: FindingFits(r)) <==> (forall v <- vs :: FindingFits(v))
  {
    forall i | 0 <= i < |vs| ensures Map(Named, vs)[i] in Map(Named, vs) && vs[i] in vs {
    }
    assert forall v <- vs :: FindingFits(Named(v)) <==> FindingFits(v);
  }

  /** The batches of INSERTs, on the transaction's working copy. */
  method InsertRows(tx: Db, id: ScanId, res: ScanResult, known: bool, faults: nat -> bool, k: nat)
    returns (tx': Db, k': nat, err: Option<PersistError>)
    ensures err.None? <==>
      NoFault(faults, k, k + |res.vulnerabilities| + |res.packages| + |res.misconfigs| + |res.secrets|) &&
      (known || (res.vulnerabilities == [] && res.packages == [] && res.misconfigs == [] && res.secrets == [])) &&
      RowsFit(res)
    ensures err.None? ==>
      k' == k + |res.vulnerabilities| + |res.packages| + |res.misconfigs| + |res.secrets| &&
      tx' == tx.(findings := tx.findings + Stamp(id, Map(ToFinding, res.vulnerabilities)),
                 packages := tx.packages + Stamp(id, res.packages),
                 misconfigs := tx.misconfigs + Stamp(id, Map(ToMisconfig, res.misconfigs)),
                 secrets := tx.secrets + Stamp(id, Map(ToSecret, res.secrets)))
  {
    hide Columns, ToMisconfig, ToSecret, FindingFits, PackageFits, MisconfigFits, SecretFits, Named;
    tx', k' := tx, k;
    var rows := VulnResultsToFindingRows(res.vulnerabilities);
    var findings, packages, misconfigs, secrets;
    findings, err := SendBatch(tx.findings, id, rows, Columns, FindingFits, known, Findings, faults, k');
    NamesFit(res.vulnerabilities);
    if err.Some? {
      return;
    }
    assert Map(Columns, rows) == Map(ToFinding, res.vulnerabilities) by {
      assert forall i :: 0 <= i < |rows| ==> Columns(rows[i]) == ToFinding(res.vulnerabilities[i]);
    }
    k' := k' + |rows|;
    packages, err := SendBatch(tx.packages, id, res.packages, p => p, PackageFits, known, Packages, faults, k');
    if err.Some? {
      return;
    }
    assert Map((p: PackageRow) => p, res.packages) == res.packages;
    k' := k' + |res.packages|;
    misconfigs, err :=
      SendBatch(tx.misconfigs, id, res.misconfigs, ToMisconfig, MisconfigFits, known, Misconfigs, faults, k');
    if err.Some? {
      return;
    }
    k' := k' + |res.misconfigs|;
    secrets, err := SendBatch(tx.secrets, id, res.secrets, ToSecret, SecretFits, known, Secrets, faults, k');
    if err.Some? {
      return;
    }
    k' := k' + |res.secrets|;
    tx' := tx.(findings := findings, packages := packages, misconfigs := misconfigs, secrets := secrets);
  }

  /** The two optional SBOM INSERTs. */
  method InsertSboms(tx: Db, id: ScanId, res: ScanResult, known: bool, faults: nat -> bool, k: nat)
    returns (tx': Db, k': nat, err: Option<PersistError>)
    ensures err.None? <==> NoFault(faults, k, k + |SbomRows(res)|) && (known || SbomRows(res) == [])
    ensures err.None? ==> k' == k + |SbomRows(res)| && tx' == tx.(sboms := tx.sboms + Stamp(id, SbomRows(res)))
  {
    var sboms := tx.sboms;
    tx', k' := tx, k;
    if res.cycloneDX != "" {
      if faults(k') || !known {
        assert faults(k) || !known;
        return tx', k', Some(StatementFailed);
      }
      sboms, k' := sboms + [Keyed(id, SbomRow(CycloneDX, res.cycloneDX))], k' + 1;
    }
    if res.spdx != "" {
      if faults(k') || !known {
        return tx', k', Some(StatementFailed);
      }
      sboms, k' := sboms + [Keyed(id, SbomRow(SPDX, res.spdx))], k' + 1;
    }
    assert sboms == tx.sboms + Stamp(id, SbomRows(res));
    return tx.(sboms := sboms), k', None;
  }

  /** UPDATE scans ... WHERE id = $1. */
  method CompleteScan(tx: Db, id: ScanId, res: ScanResult, counts: Counts, version: string, now: Time)
    returns (tx': Db)
    ensures tx' ==
      if id in tx.scans then tx.(scans := tx.scans[id := CompletedRow(tx.scans[id], res, counts, version, now)])
      else tx
  {
    var imageOs, imageArch := "", "";
    var imageSize, layerCount := None, None;
    if res.metadata.Some? {
      imageOs, imageArch := res.metadata.value.os, res.metadata.value.architecture;
      if res.metadata.value.imageSize > 0 {
        imageSize := Some(res.metadata.value.imageSize);
      }
      if res.metadata.value.layerCount > 0 {
        layerCount := Some(res.metadata.value.layerCount);
      }
    }
    tx' := tx;
    if id in tx.scans {
      tx' := tx.(scans := tx.scans[id := tx.scans[id].(
        status := Completed, completedAt := Some(now), errorMessage := None, trivyVersion := NullIf(version),
        counts := counts, imageOs := NullIf(imageOs), imageArch := NullIf(imageArch),
        imageSize := imageSize, layerCount := layerCount)]);
    }
  }

  /** The whole transaction on a working copy, which becomes the database only when nothing failed. */
  method PersistScanResults(pool: Pool, id: ScanId, res: ScanResult, version: string, now: Time, faults: nat -> bool)
    returns (err: Option<PersistError>)
    modifies pool
    ensures err.None? <==> Fits(res, id in old(pool.scans)) && NoFault(faults, 0, Statements(res))
    ensures pool.Contents() ==
      if err.None? then Committed(old(pool.Contents()), id, res, version, now) else old(pool.Contents())
    ensures err.None? && id in old(pool.scans) ==>
      id in pool.scans && Counted(pool.scans[id].counts, res.vulnerabilities)
  {
    hide Columns, ToMisconfig, ToSecret, RowsFit, CompletedRow, CountOf, Without, Counted;
    var known, k := id in pool.scans, 0;
    while k < 6
      invariant k <= 6 && NoFault(faults, 0, k)
    {
      if faults(k) {
        return Some(StatementFailed);
      }
      k := k + 1;
    }
    var tx := Db(pool.scans, Without(pool.findings, id), Without(pool.packages, id), Without(pool.misconfigs, id),
                 Without(pool.secrets, id), Without(pool.sboms, id));
    var counts := ComputeSeverityCounts(res.vulnerabilities);
    tx, k, err := InsertRows(tx, id, res, known, faults, k);
    if err.Some? {
      return;
    }
    tx, k, err := InsertSboms(tx, id, res, known, faults, k);
    if err.Some? {
      return;
    }
    tx := CompleteScan(tx, id, res, counts, version, now);
    if faults(k) || faults(k + 1) {
      return Some(StatementFailed);
    }
    if known {
      CommitCounts(old(pool.Contents()), id, res, version, now);
    }
    pool.scans, pool.findings, pool.packages, pool.misconfigs, pool.secrets, pool.sboms :=
      tx.scans, tx.findings, tx.packages, tx.misconfigs, tx.secrets, tx.sboms;
    return None;
  }
}
