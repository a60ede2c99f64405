/** The Postgres pool: every table the scan code writes, updated in place. */
module Backend {
  import opened Tables

  class Pool {
    var scans: map<ScanId, ScanRow>
    var findings: seq<Keyed<FindingRow>>
    var packages: seq<Keyed<PackageRow>>
    var misconfigs: seq<Keyed<MisconfigRow>>
    var secrets: seq<Keyed<SecretRow>>
    var sboms: seq<Keyed<SbomRow>>

    ghost function Contents(): Db
      reads this
    {
      Db(scans, findings, packages, misconfigs, secrets, sboms)
    }
  }
}
