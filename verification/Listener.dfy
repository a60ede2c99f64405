/** internal/enrichment/start.go: which events start an enrichment, and what that enrichment then reads. */
module Listener {
  import opened Text
  import opened Tables
  import opened Protocol
  import opened Guarantees

  /** The JSON payload of an event. */
  datatype Payload = Payload(event: string, scanId: ScanId, status: string, error: string)

  /** publishScanEvent: failures are published under the same event name. */
  function PayloadOf(e: Event): Payload {
    match e
    case ScanCompleted(id) => Payload("scan.completed", id, "completed", "")
    case ScanFailed(id, message) => Payload("scan.completed", id, "failed", message)
  }

  /** strings.EqualFold, on ASCII letters. */
  predicate EqualFold(a: string, b: string) {
    ToLower(a) == ToLower(b)
  }

  predicate StartsEnrichment(p: Payload) {
    EqualFold(p.event, "scan.completed") && EqualFold(p.status, "completed")
  }

  /** Which payloads start an enrichment: two fields that read as the names in any letter case. */
  lemma StartsIff(p: Payload)
    ensures StartsEnrichment(p) <==> SameText(p.event, "scan.completed") && SameText(p.status, "completed")
  {
    hide ToLower, SameText;
    LowerIff(p.event, "scan.completed");
    LowerIff(p.status, "completed");
  }

  lemma StartsOnCompletionOnly(e: Event)
    ensures StartsEnrichment(PayloadOf(e)) <==> e.ScanCompleted?
  {
    assert ToLower("failed")[0] == 'f' && ToLower("completed")[0] == 'c';
  }

  /**
   At most one published event a scan starts an enrichment, in each subscriber one; the scan is completed by then, and
   whenever an enrichment runs it reads the findings that the scan has for good.
   */
  lemma EnrichesFinalFindingsOnce(s: State, t: State, u: State, i: nat, j: nat)
    requires Reachable(s) && Reaches(s, t) && Reaches(t, u)
    requires i < |s.events| && StartsEnrichment(PayloadOf(s.events[i]))
    ensures j < |s.events| && StartsEnrichment(PayloadOf(s.events[j])) && s.events[j].scanId == s.events[i].scanId ==>
      j == i
    ensures var id := s.events[i].scanId;
      && id in t.db.scans && t.db.scans[id].status == Status.Completed
      && RowsOf(t.db.findings, id) == RowsOf(s.db.findings, id)
      && RowsOf(u.db.findings, id) == RowsOf(t.db.findings, id)
      && t.db.scans[id].counts == Histogram(RowsOf(t.db.findings, id))
  {
    var id := s.events[i].scanId;
    StartsOnCompletionOnly(s.events[i]);
    if j < |s.events| && s.events[j].scanId == id {
      StartsOnCompletionOnly(s.events[j]);
      CompletedEventIsLast(s, i, j);
      if s.events[j].ScanCompleted? {
        CompletedEventIsLast(s, j, i);
      }
    }
    hide Histogram, StartsEnrichment, Inv, Reaches;
    ResultsOnlyWhenCompleted(s, id);
    ReachesTransitive(s, t, u);
    NothingAheadOfCommit(s, t, id);
    NothingAheadOfCommit(s, u, id);
    assert StoredFor(t.db, id).findings == StoredFor(s.db, id).findings;
    assert StoredFor(u.db, id).findings == StoredFor(s.db, id).findings;
  }
}
