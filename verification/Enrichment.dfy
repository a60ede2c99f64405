/**
 internal/enrichment: the fold of a scan's findings into enrichment rows, and the risk score. Scores are real numbers,
 so floating-point and DECIMAL rounding are not part of this model.
 */
module Enrichment {
  import opened Wrappers
  import opened Tables
  import opened Text
  import opened Epss

  type FindingId = nat

  datatype FindingRef = FindingRef(
    id: FindingId, vulnerabilityId: string, cvss: Option<real>, fixedVersion: Option<string>)

  datatype KevEntry = KevEntry(dateAdded: string, product: string, vendorProject: string, vulnName: string)

  /** None is an unavailable catalog. */
  type Catalog = Option<map<string, KevEntry>>

  datatype KnownExploit = KnownExploit(cveId: string, product: string, vendorProject: string, vulnerability: string)

  datatype Values = Values(
    epssScore: Option<real>, epssPercentile: Option<real>, kevListed: bool, kevDateAdded: Option<string>,
    knownExploits: Option<KnownExploit>, exploitExists: bool, riskScore: real)

  datatype EnrichmentRow = EnrichmentRow(values: Values, enrichedAt: Time)

  type Enrichments = map<FindingId, EnrichmentRow>

  // ---------------------------------------------------------------- the risk score

  /** The score before it is capped. */
  function RawScore(cvss: real, epss: real, isKev: bool, hasExploit: bool, hasFix: bool): real {
    cvss * 3.0 + epss * 30.0 + (if isKev then 20.0 else 0.0) + (if hasExploit then 10.0 else 0.0) +
    (if hasFix then 10.0 else 0.0)
  }

  function RiskScore(cvss: real, epss: real, isKev: bool, hasExploit: bool, hasFix: bool): real {
    var raw := RawScore(cvss, epss, isKev, hasExploit, hasFix);
    if raw > 100.0 then 100.0 else raw
  }

  method CalculateRiskScore(cvss: real, epss: real, isKev: bool, hasExploit: bool, hasFix: bool) returns (score: real)
    ensures score <= 100.0
    ensures InRange(cvss, epss) ==> score >= 0.0
    ensures InRange(cvss, epss) ==>
      (score == 100.0 <==> cvss == 10.0 && epss == 1.0 && isKev && hasExploit && hasFix)
    ensures score == RiskScore(cvss, epss, isKev, hasExploit, hasFix)
  {
    score := 0.0;
    score := score + cvss * 3.0;
    score := score + epss * 30.0;
    if isKev {
      score := score + 20.0;
    }
    if hasExploit {
      score := score + 10.0;
    }
    if hasFix {
      score := score + 10.0;
    }
    if score > 100.0 {
      score := 100.0;
    }
  }

  predicate InRange(cvss: real, epss: real) {
    0.0 <= cvss <= 10.0 && 0.0 <= epss <= 1.0
  }

  /** Within the ranges of its inputs the score is a percentage, with both ends attained, that the cap never alters. */
  lemma ScoreIsUncapped(cvss: real, epss: real, isKev: bool, hasExploit: bool, hasFix: bool)
    requires InRange(cvss, epss)
    ensures 0.0 <= RiskScore(cvss, epss, isKev, hasExploit, hasFix) <= 100.0
    ensures RiskScore(cvss, epss, isKev, hasExploit, hasFix) == RawScore(cvss, epss, isKev, hasExploit, hasFix)
    ensures RiskScore(cvss, epss, isKev, hasExploit, hasFix) == 100.0 <==>
      cvss == 10.0 && epss == 1.0 && isKev && hasExploit && hasFix
    ensures RiskScore(cvss, epss, isKev, hasExploit, hasFix) == 0.0 <==>
      cvss == 0.0 && epss == 0.0 && !isKev && !hasExploit && !hasFix
  {
  }

  /** What each input is worth on its own, and that the parts add up. */
  lemma ScoreShares(cvss: real, epss: real, isKev: bool, hasExploit: bool, hasFix: bool)
    requires InRange(cvss, epss)
    ensures RiskScore(cvss, 0.0, false, false, false) == 3.0 * cvss
    ensures RiskScore(0.0, epss, false, false, false) == 30.0 * epss
    ensures RiskScore(0.0, 0.0, true, false, false) == 20.0
    ensures RiskScore(0.0, 0.0, false, true, false) == 10.0
    ensures RiskScore(0.0, 0.0, false, false, true) == 10.0
    ensures RiskScore(cvss, epss, isKev, hasExploit, hasFix) ==
      RiskScore(cvss, 0.0, false, false, false) + RiskScore(0.0, epss, false, false, false)
      + RiskScore(0.0, 0.0, isKev, false, false) + RiskScore(0.0, 0.0, false, hasExploit, false)
      + RiskScore(0.0, 0.0, false, false, hasFix)
  {
  }

  /** Raising any input never lowers the score, in range or not, and raising a number in range raises it. */
  lemma ScoreIsMonotone(cvss: real, epss: real, isKev: bool, hasExploit: bool, hasFix: bool,
                        cvss': real, epss': real, isKev': bool, hasExploit': bool, hasFix': bool)
    requires cvss <= cvss' && epss <= epss'
    requires (isKev ==> isKev') && (hasExploit ==> hasExploit') && (hasFix ==> hasFix')
    ensures RiskScore(cvss, epss, isKev, hasExploit, hasFix) <= RiskScore(cvss', epss', isKev', hasExploit', hasFix')
    ensures InRange(cvss', epss') && (cvss < cvss' || epss < epss') ==>
      RiskScore(cvss, epss, isKev, hasExploit, hasFix) < RiskScore(cvss', epss', isKev', hasExploit', hasFix')
  {
  }

  // ---------------------------------------------------------------- one finding

  function NormalizeCVE(v: string): string {
    var s := TrimSpace(ToUpper(v));
    if "CVE-" <= s then s else ""
  }

  lemma TrimMembers(s: string, cut: char -> bool)
    ensures forall c <- Trim(s, cut) :: c in s
  {
    hide TrimLeft, TrimRight;
    var t := TrimRight(s, cut);
    var r := TrimLeft(t, cut);
    assert forall i :: 0 <= i < |t| ==> t[i] == s[i];
    assert forall i :: 0 <= i < |r| ==> r[i] == t[|t| - |r| + i];
  }

  lemma UpperFixed(s: string)
    requires forall c <- s :: UpperChar(c) == c
    ensures ToUpper(s) == s
  {
    hide ToUpper;
    assert forall i :: 0 <= i < |s| ==> s[i] in s;
  }

  lemma UpperIsFixed(v: string)
    ensures forall c <- ToUpper(v) :: UpperChar(c) == c
  {
  }

  lemma NormalFormIsFixed(v: string)
    ensures var s := TrimSpace(ToUpper(v)); TrimSpace(ToUpper(s)) == s
  {
    UpperIsFixed(v);
    hide ToUpper, UpperChar, IsSpace, TrimLeft, TrimRight;
    var up := ToUpper(v);
    TrimMembers(up, IsSpace);
    TrimIsTrimmed(up, IsSpace);
    hide Trim;
    var s := TrimSpace(up);
    UpperFixed(s);
    TrimIsTrimmed(s, IsSpace);
  }

  /** Normalising twice is normalising once. */
  lemma NormalizeIdempotent(v: string)
    ensures NormalizeCVE(NormalizeCVE(v)) == NormalizeCVE(v)
  {
    hide ToUpper, TrimSpace;
    NormalFormIsFixed(v);
    UpperFixed("");
    TrimSpaceKeeps("");
  }

  /** A CVE id in its normal form. */
  predicate CveId(id: string) {
    "CVE-" <= id && Trimmed(id, IsSpace) && forall c <- id :: !('a' <= c <= 'z')
  }

  /** A text is taken for a CVE id exactly when it is that id in any letter case, with any white space around it. */
  lemma NormalizeCVEIff(v: string, id: string)
    requires CveId(id)
    ensures NormalizeCVE(v) == id <==> Reads(v, id)
  {
    hide TrimSpace, ToUpper, Reads, IsSpace;
    UpperReads(v, id);
    NoSmallLetters(id);
  }

  lemma NormalForm(v: string)
    ensures NormalizeCVE(v) != "" ==> CveId(NormalizeCVE(v))
  {
    hide ToUpper, IsSpace, Trim, Trimmed;
    var up := ToUpper(v);
    UpperIsFixed(v);
    TrimMembers(up, IsSpace);
    TrimIsTrimmed(up, IsSpace);
    forall c <- TrimSpace(up) ensures !('a' <= c <= 'z') {
      assert UpperChar(c) == c;
    }
  }

  /** Any other text counts as no CVE. */
  lemma NoCVEIff(v: string)
    ensures NormalizeCVE(v) == "" <==> forall id :: CveId(id) ==> !Reads(v, id)
  {
    NormalForm(v);
    hide NormalizeCVE, Reads;
    forall id | CveId(id) ensures NormalizeCVE(v) == id <==> Reads(v, id) {
      NormalizeCVEIff(v, id);
    }
    assert !CveId("");
  }

  /** What a finding's enrichment is, from the finding and the two lookups alone. */
  function ValuesOf(f: FindingRef, epss: Scores, kev: Catalog): Values {
    var cve := NormalizeCVE(f.vulnerabilityId);
    var e := if cve != "" && cve in epss then epss[cve] else EpssRow(None, None);
    var entry := if cve != "" && kev.Some? && cve in kev.value then Some(kev.value[cve]) else None;
    var listed := entry.Some?;
    Values(
      e.score, e.percentile, listed,
      if listed then Some(entry.value.dateAdded) else None,
      if listed
      then Some(KnownExploit(cve, entry.value.product, entry.value.vendorProject, entry.value.vulnName)) else None,
      listed,
      RiskScore(f.cvss.GetOr(0.0), e.score.GetOr(0.0), listed, listed, f.fixedVersion.GetOr("") != ""))
  }

  method BuildUpsert(f: FindingRef, epssByCve: Scores, kevByCve: Catalog) returns (v: Values)
    ensures v.exploitExists <==> v.kevListed
    ensures NormalizeCVE(f.vulnerabilityId) == "" ==> v.epssScore.None? && v.epssPercentile.None? && !v.kevListed
    ensures v.riskScore <= 100.0
    ensures v == ValuesOf(f, epssByCve, kevByCve)
  {
    hide NormalizeCVE;
    var cve := NormalizeCVE(f.vulnerabilityId);
    v := Values(None, None, false, None, None, false, 0.0);
    if cve != "" {
      if cve in epssByCve {
        v := v.(epssScore := epssByCve[cve].score, epssPercentile := epssByCve[cve].percentile);
      }
    }
    if cve != "" && kevByCve.Some? {
      if cve in kevByCve.value {
        var ent := kevByCve.value[cve];
        v := v.(kevListed := true, kevDateAdded := Some(ent.dateAdded),
                knownExploits := Some(KnownExploit(cve, ent.product, ent.vendorProject, ent.vulnName)));
      }
    }
    var cvss := if f.cvss.Some? then f.cvss.value else 0.0;
    var epss := if v.epssScore.Some? then v.epssScore.value else 0.0;
    var hasExploit := v.kevListed;
    var hasFix := f.fixedVersion.Some? && f.fixedVersion.value != "";
    var score := CalculateRiskScore(cvss, epss, v.kevListed, hasExploit, hasFix);
    v := v.(exploitExists := hasExploit, riskScore := score);
  }

  /** The two lookups agree on one CVE. */
  ghost predicate AgreeOn(cve: string, epss: Scores, epss': Scores, kev: Catalog, kev': Catalog) {
    && (cve in epss <==> cve in epss') && (cve in epss ==> epss[cve] == epss'[cve])
    && (kev.Some? && cve in kev.value <==> kev'.Some? && cve in kev'.value)
    && (kev.Some? && cve in kev.value ==> kev.value[cve] == kev'.value[cve])
  }

  /**
   Findings with the same normalised CVE, CVSS score and presence of a fix get the same enrichment, from any two pairs
   of lookups that agree on that CVE: no other part of a finding and no other entry of a lookup has any influence.
   */
  lemma ValuesAreLocal(f: FindingRef, g: FindingRef, epss: Scores, epss': Scores, kev: Catalog, kev': Catalog)
    requires NormalizeCVE(f.vulnerabilityId) == NormalizeCVE(g.vulnerabilityId)
    requires f.cvss.GetOr(0.0) == g.cvss.GetOr(0.0)
    requires f.fixedVersion.GetOr("") == "" <==> g.fixedVersion.GetOr("") == ""
    requires NormalizeCVE(f.vulnerabilityId) != "" ==>
      AgreeOn(NormalizeCVE(f.vulnerabilityId), epss, epss', kev, kev')
    ensures ValuesOf(f, epss, kev) == ValuesOf(g, epss', kev')
  {
    hide NormalizeCVE;
  }

  /** In range, a catalog entry adds exactly 30 points, a fix exactly 10, and the score stays a percentage. */
  lemma RiskOfFinding(f: FindingRef, epss: Scores, kev: Catalog)
    requires InRange(f.cvss.GetOr(0.0), ValuesOf(f, epss, kev).epssScore.GetOr(0.0))
    ensures
      var v := ValuesOf(f, epss, kev);
      && 0.0 <= v.riskScore <= 100.0
      && v.riskScore == ValuesOf(f, epss, None).riskScore + (if v.kevListed then 30.0 else 0.0)
      && v.riskScore == ValuesOf(f.(fixedVersion := None), epss, kev).riskScore
           + (if f.fixedVersion.GetOr("") != "" then 10.0 else 0.0)
  {
    hide NormalizeCVE;
  }

  /** A finding is scored as exploited exactly when its CVE is in the catalog. */
  lemma ExploitedIffListed(f: FindingRef, epss: Scores, kev: Catalog)
    ensures var v, cve := ValuesOf(f, epss, kev), NormalizeCVE(f.vulnerabilityId);
      && (v.exploitExists <==> v.kevListed)
      && (v.kevListed <==> cve != "" && kev.Some? && cve in kev.value)
      && (v.knownExploits.Some? <==> v.kevListed)
  {
  }

  /** A finding of a CVE has the source's entry for it and the catalog's, and the points they come to. */
  ghost predicate EnrichedAs(v: Values, f: FindingRef, id: string, epss: Scores, kev: Catalog) {
    && v.epssScore == (if id in epss then epss[id].score else None)
    && v.epssPercentile == (if id in epss then epss[id].percentile else None)
    && (v.kevListed <==> kev.Some? && id in kev.value) && (v.exploitExists <==> v.kevListed)
    && v.kevDateAdded == (if v.kevListed then Some(kev.value[id].dateAdded) else None)
    && (v.kevListed ==>
          var e := kev.value[id];
          v.knownExploits == Some(KnownExploit(id, e.product, e.vendorProject, e.vulnName)))
    && Scored(v, f)
  }

  /** 3 points for each of CVSS, 30 for all of EPSS, 30 for an entry in the catalog, 10 for a fix, at most 100. */
  ghost predicate Scored(v: Values, f: FindingRef) {
    var points := 3.0 * f.cvss.GetOr(0.0) + 30.0 * v.epssScore.GetOr(0.0) + (if v.kevListed then 30.0 else 0.0)
      + (if f.fixedVersion.Some? && f.fixedVersion.value != "" then 10.0 else 0.0);
    v.riskScore == if points > 100.0 then 100.0 else points
  }

  /** Every finding is enriched as its vulnerability id reads; one that reads as no CVE id gets nothing from outside. */
  ghost predicate AllEnriched(rows: Enrichments, findings: seq<FindingRef>, epss: Scores, kev: Catalog) {
    forall f <- findings ::
      && f.id in rows
      && (forall id :: CveId(id) && Reads(f.vulnerabilityId, id) ==>
            EnrichedAs(rows[f.id].values, f, id, epss, kev))
      && ((forall id :: CveId(id) ==> !Reads(f.vulnerabilityId, id)) ==>
            && rows[f.id].values.epssScore.None? && rows[f.id].values.epssPercentile.None?
            && !rows[f.id].values.kevListed && !rows[f.id].values.exploitExists && Scored(rows[f.id].values, f))
  }

  lemma EnrichedMeans(a: Enrichments, b: Enrichments, findings: seq<FindingRef>, epss: Scores, kev: Catalog)
    requires EnrichedBy(a, b, findings, epss, kev)
    ensures AllEnriched(b, findings, epss, kev)
  {
    hide NormalizeCVE, Reads, CveId, PartlyEnriched;
    forall f <- findings ensures
      && (forall id :: CveId(id) && Reads(f.vulnerabilityId, id) ==> EnrichedAs(b[f.id].values, f, id, epss, kev))
      && ((forall id :: CveId(id) ==> !Reads(f.vulnerabilityId, id)) ==>
            && b[f.id].values.epssScore.None? && b[f.id].values.epssPercentile.None?
            && !b[f.id].values.kevListed && !b[f.id].values.exploitExists && Scored(b[f.id].values, f))
    {
      NoCVEIff(f.vulnerabilityId);
      forall id | CveId(id) && Reads(f.vulnerabilityId, id) ensures EnrichedAs(b[f.id].values, f, id, epss, kev) {
        NormalizeCVEIff(f.vulnerabilityId, id);
        assert id != "" by {
          assert CveId(id);
        }
      }
    }
  }

  // ---------------------------------------------------------------- the enrichments table

  /** Whatever failed: a finding has the row it had or its own enrichment, and other findings' rows are as before. */
  ghost predicate PartlyEnriched(a: Enrichments, b: Enrichments, findings: seq<FindingRef>, epss: Scores, kev: Catalog)
  {
    && (forall id <- a :: id in b)
    && (forall id <- b :: id in a || id in Ids(findings))
    && (forall f <- findings :: f.id in b ==>
          b[f.id].values == ValuesOf(f, epss, kev) || (f.id in a && b[f.id] == a[f.id]))
    && (forall id <- a :: id !in Ids(findings) ==> b[id] == a[id])
  }

  /** Every finding has its enrichment. */
  ghost predicate EnrichedBy(a: Enrichments, b: Enrichments, findings: seq<FindingRef>, epss: Scores, kev: Catalog) {
    && PartlyEnriched(a, b, findings, epss, kev)
    && forall f <- findings :: f.id in b && b[f.id].values == ValuesOf(f, epss, kev)
  }

  function Ids(findings: seq<FindingRef>): set<FindingId> {
    set f <- findings :: f.id
  }

  function Cves(findings: seq<FindingRef>): seq<string> {
    if findings == [] then []
    else
      var c := NormalizeCVE(findings[|findings| - 1].vulnerabilityId);
      Cves(findings[..|findings| - 1]) + if c != "" then [c] else []
  }

  /** finding_id is unique. */
  ghost predicate DistinctIds(findings: seq<FindingRef>) {
    forall i, j :: 0 <= i < j < |findings| ==> findings[i].id != findings[j].id
  }

  class EnrichmentTable {
    var rows: Enrichments

    constructor ()
      ensures rows == map[]
    {
      rows := map[];
    }

    /** INSERT ... ON CONFLICT (finding_id) DO UPDATE; an error may hide a write that took effect. */
    method Upsert(id: FindingId, values: Values, now: Time, calm: bool) returns (ok: bool)
      modifies this
      ensures calm ==> ok
      ensures rows == old(rows) || rows == old(rows)[id := EnrichmentRow(values, now)]
      ensures ok ==> rows == old(rows)[id := EnrichmentRow(values, now)]
    {
      var fault: bool :| calm ==> !fault;
      var applied: bool := *;
      if !fault || applied {
        rows := rows[id := EnrichmentRow(values, now)];
      }
      ok := !fault;
    }
  }

  method ListCves(findings: seq<FindingRef>) returns (cves: seq<string>)
    ensures cves == Cves(findings)
  {
    hide NormalizeCVE;
    cves := [];
    for i := 0 to |findings|
      invariant cves == Cves(findings[..i])
    {
      assert findings[..i + 1][..i] == findings[..i];
      var c := NormalizeCVE(findings[i].vulnerabilityId);
      if c != "" {
        cves := cves + [c];
      }
    }
    assert findings[..|findings|] == findings;
  }

  lemma {:induction false} CvesMembers(findings: seq<FindingRef>, f: FindingRef)
    requires f in findings && NormalizeCVE(f.vulnerabilityId) != ""
    ensures NormalizeCVE(f.vulnerabilityId) in Cves(findings)
  {
    hide NormalizeCVE;
    var n := |findings| - 1;
    if findings[n] != f {
      CvesMembers(findings[..n], f);
    }
  }

  /** A lookup restricted to the scan's own CVEs enriches its findings as the whole source would. */
  lemma RestrictedLookup(findings: seq<FindingRef>, f: FindingRef, source: Scores, kev: Catalog)
    requires f in findings
    ensures ValuesOf(f, Restrict(source, Cves(findings)), kev) == ValuesOf(f, source, kev)
  {
    hide NormalizeCVE, RiskScore;
    if NormalizeCVE(f.vulnerabilityId) != "" {
      CvesMembers(findings, f);
    }
  }

  lemma OneMore(findings: seq<FindingRef>, i: nat)
    requires i < |findings| && DistinctIds(findings)
    ensures Ids(findings[..i + 1]) == Ids(findings[..i]) + {findings[i].id}
    ensures forall f :: f in findings[..i + 1] <==> f in findings[..i] || f == findings[i]
    ensures findings[i].id !in Ids(findings[..i])
  {
    assert findings[..i + 1] == findings[..i] + [findings[i]];
    forall g <- findings[..i] ensures g.id != findings[i].id {
      var k :| 0 <= k < i && findings[k] == g;
    }
  }

  lemma PartlyStep(a: Enrichments, b: Enrichments, c: Enrichments, findings: seq<FindingRef>, i: nat, now: Time,
                   epss: Scores, kev: Catalog)
    requires i < |findings| && DistinctIds(findings) && PartlyEnriched(a, b, findings[..i], epss, kev)
    requires c == b || c == b[findings[i].id := EnrichmentRow(ValuesOf(findings[i], epss, kev), now)]
    ensures PartlyEnriched(a, c, findings[..i + 1], epss, kev)
  {
    OneMore(findings, i);
    hide ValuesOf, Ids, DistinctIds;
    MembersHaveIds(findings[..i]);
    forall f <- findings[..i + 1] | f.id in c
      ensures c[f.id].values == ValuesOf(f, epss, kev) || (f.id in a && c[f.id] == a[f.id])
    {
      if f != findings[i] {
        assert c[f.id] == b[f.id];
      }
    }
  }

  lemma CleanStep(a: Enrichments, b: Enrichments, c: Enrichments, findings: seq<FindingRef>, i: nat, now: Time,
                  epss: Scores, kev: Catalog)
    requires i < |findings| && DistinctIds(findings)
    requires c == b[findings[i].id := EnrichmentRow(ValuesOf(findings[i], epss, kev), now)]
    ensures EnrichedBy(a, b, findings[..i], epss, kev) ==> EnrichedBy(a, c, findings[..i + 1], epss, kev)
  {
    if EnrichedBy(a, b, findings[..i], epss, kev) {
      PartlyStep(a, b, c, findings, i, now, epss, kev);
      OneMore(findings, i);
      MembersHaveIds(findings[..i]);
      hide ValuesOf, Ids, DistinctIds, PartlyEnriched;
      forall f <- findings[..i + 1] ensures f.id in c && c[f.id].values == ValuesOf(f, epss, kev) {
        if f != findings[i] {
          assert c[f.id] == b[f.id];
        }
      }
    }
  }

  lemma MembersHaveIds(findings: seq<FindingRef>)
    ensures forall f <- findings :: f.id in Ids(findings)
  {
  }

  /**
   EnrichScan; `err` is a failed listing of the findings, and `clean` says that neither that nor an upsert failed.
   Whatever the EPSS service, the catalog and the upserts do, rows of other findings stay, and each finding's row is as
   before or fixed by the finding and the two lookups. A clean call whose EPSS requests all succeed enriches every
   finding as one plain lookup in the source would.
   */
  method EnrichScan(t: EnrichmentTable, findings: seq<FindingRef>, source: Scores, kev: Catalog,
                    cut: nat -> bool, failed: nat -> bool, clock: nat -> Time, calm: bool)
    returns (err: bool, clean: bool, ghost epss: Scores)
    requires DistinctIds(findings)
    modifies t
    ensures exists n :: Merged(epss, source, Chunks(Distinct(Cves(findings))), failed, n)
    ensures PartlyEnriched(old(t.rows), t.rows, findings, epss, kev)
    ensures calm ==> !err && clean
    ensures err ==> t.rows == old(t.rows) && !clean
    ensures clean ==>
      EnrichedBy(old(t.rows), t.rows, findings, epss, kev) && AllEnriched(t.rows, findings, epss, kev)
    ensures clean ==> forall i :: 0 <= i < |findings| ==>
      findings[i].id in t.rows && t.rows[findings[i].id].enrichedAt == clock(i)
    ensures clean && (forall k: nat :: !cut(k) && !failed(k)) ==>
      EnrichedBy(old(t.rows), t.rows, findings, source, kev) && AllEnriched(t.rows, findings, source, kev)
  {
    hide ValuesOf, PartlyEnriched, EnrichedBy, Merged, Chunks, Distinct, Cves, AllEnriched;
    clean := true;
    NoScores(source, failed, findings);
    NothingYet(t.rows, map[], kev);
    NothingYet(t.rows, source, kev);
    epss, err := map[], false;
    var fault: bool :| calm ==> !fault;
    if fault {
      PartlyNothing(t.rows, findings, map[], kev);
      return true, false, map[];
    }
    if findings == [] {
      EnrichedMeans(t.rows, t.rows, findings, epss, kev);
      EnrichedMeans(t.rows, t.rows, findings, source, kev);
      return;
    }
    var cves := ListCves(findings);
    var known, requests := FetchEpssBatched(cves, source, cut, failed);
    epss := known;
    ghost var a := t.rows;
    NothingYet(a, epss, kev);
    assert findings[..0] == [];
    for i := 0 to |findings|
      invariant PartlyEnriched(a, t.rows, findings[..i], epss, kev)
      invariant calm ==> clean
      invariant clean ==> EnrichedBy(a, t.rows, findings[..i], epss, kev)
      invariant clean ==> forall j :: 0 <= j < i ==>
        findings[j].id in t.rows && t.rows[findings[j].id].enrichedAt == clock(j)
    {
      ghost var b := t.rows;
      var values := BuildUpsert(findings[i], known, kev);
      var ok := t.Upsert(findings[i].id, values, clock(i), calm);
      PartlyStep(a, b, t.rows, findings, i, clock(i), epss, kev);
      clean := clean && ok;
      if clean {
        CleanStep(a, b, t.rows, findings, i, clock(i), epss, kev);
      }
    }
    assert findings[..|findings|] == findings;
    if clean {
      EnrichedMeans(a, t.rows, findings, epss, kev);
      if forall k: nat :: !cut(k) && !failed(k) {
        BatchingIsInvisible(cves, source, failed, epss);
        AsFromSource(a, t.rows, findings, source, kev);
        EnrichedMeans(a, t.rows, findings, source, kev);
      }
    }
  }

  lemma NoScores(source: Scores, failed: nat -> bool, findings: seq<FindingRef>)
    ensures Merged(map[], source, Chunks(Distinct(Cves(findings))), failed, 0)
  {
  }

  lemma PartlyNothing(a: Enrichments, findings: seq<FindingRef>, epss: Scores, kev: Catalog)
    ensures PartlyEnriched(a, a, findings, epss, kev)
  {
  }

  lemma NothingYet(a: Enrichments, epss: Scores, kev: Catalog)
    ensures PartlyEnriched(a, a, [], epss, kev) && EnrichedBy(a, a, [], epss, kev)
  {
  }

  lemma AsFromSource(a: Enrichments, b: Enrichments, findings: seq<FindingRef>, source: Scores, kev: Catalog)
    requires EnrichedBy(a, b, findings, Restrict(source, Cves(findings)), kev)
    ensures EnrichedBy(a, b, findings, source, kev)
  {
    hide ValuesOf, Restrict, Cves;
    forall f <- findings ensures b[f.id].values == ValuesOf(f, source, kev) {
      RestrictedLookup(findings, f, source, kev);
    }
  }

  // ---------------------------------------------------------------- order and redelivery

  ghost predicate SameValues(a: Enrichments, b: Enrichments) {
    a.Keys == b.Keys && forall id <- a :: a[id].values == b[id].values
  }

  /** The order in which Postgres lists a scan's findings makes no difference. */
  lemma OrderDoesNotMatter(a: Enrichments, b: Enrichments, b': Enrichments, findings: seq<FindingRef>,
                           findings': seq<FindingRef>, epss: Scores, kev: Catalog)
    requires forall f :: f in findings <==> f in findings'
    requires EnrichedBy(a, b, findings, epss, kev) && EnrichedBy(a, b', findings', epss, kev)
    ensures SameValues(b, b')
  {
    hide ValuesOf;
    assert Ids(findings) == Ids(findings');
    forall id <- b ensures b[id].values == b'[id].values {
      if id in Ids(findings) {
        var f :| f in findings && f.id == id;
        assert b[f.id].values == ValuesOf(f, epss, kev) && b'[f.id].values == ValuesOf(f, epss, kev);
      }
    }
  }

  /** A completion event delivered twice changes nothing but enriched_at, if both lookups still answer the same. */
  lemma RedeliveryChangesNothing(a: Enrichments, b: Enrichments, c: Enrichments, findings: seq<FindingRef>,
                                 findings': seq<FindingRef>, epss: Scores, kev: Catalog)
    requires forall f :: f in findings <==> f in findings'
    requires EnrichedBy(a, b, findings, epss, kev) && PartlyEnriched(b, c, findings', epss, kev)
    ensures SameValues(b, c)
  {
    hide ValuesOf;
    assert Ids(findings) == Ids(findings');
    forall id <- b ensures b[id].values == c[id].values {
      if id in Ids(findings) {
        var f :| f in findings && f.id == id;
        assert b[f.id].values == ValuesOf(f, epss, kev);
      }
    }
  }
}
