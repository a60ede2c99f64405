/**
 internal/enrichment/epss.go: looking EPSS scores up in batches. `source` is what the EPSS service knows, one answer
 a CVE; the HTTP exchange and its JSON are not part of this model.
 */
module Epss {
  import opened Wrappers

  datatype EpssRow = EpssRow(score: Option<real>, percentile: Option<real>)

  type Scores = map<string, EpssRow>

  const BATCH_SIZE := 100

  // ---------------------------------------------------------------- de-duplication

  /** The entries that have no equal before them. */
  function Distinct(s: seq<string>): seq<string> {
    if s == [] then []
    else
      var front, last := s[..|s| - 1], s[|s| - 1];
      Distinct(front) + if last in front then [] else [last]
  }

  function FirstAt(s: seq<string>, x: string): (i: nat)
    requires x in s
    ensures i < |s| && s[i] == x && forall j :: 0 <= j < i ==> s[j] != x
  {
    if s[0] == x then 0 else 1 + FirstAt(s[1..], x)
  }

  lemma FirstAtIs(s: seq<string>, x: string, i: nat)
    requires i < |s| && s[i] == x && forall j :: 0 <= j < i ==> s[j] != x
    ensures FirstAt(s, x) == i
  {
    hide FirstAt;
  }

  /** De-duplication keeps every entry once, in the order of first occurrences. */
  lemma {:induction false} DistinctKeepsOrder(s: seq<string>)
    ensures forall x :: x in Distinct(s) <==> x in s
    ensures forall i, j :: 0 <= i < j < |Distinct(s)| ==> FirstAt(s, Distinct(s)[i]) < FirstAt(s, Distinct(s)[j])
  {
    if s != [] {
      var front, last := s[..|s| - 1], s[|s| - 1];
      DistinctKeepsOrder(front);
      assert s == front + [last];
      hide FirstAt;
      forall x | x in front ensures FirstAt(s, x) == FirstAt(front, x) {
        var k := FirstAt(front, x);
        FirstAtIs(s, x, k);
      }
      if last !in front {
        FirstAtIs(s, last, |front|);
        var d := Distinct(front);
        assert Distinct(s) == d + [last];
        assert forall i :: 0 <= i < |d| ==> d[i] in d;
      }
    }
  }

  method Deduplicate(cves: seq<string>) returns (uniq: seq<string>)
    ensures uniq == Distinct(cves)
  {
    var seen: set<string> := {};
    uniq := [];
    for i := 0 to |cves|
      invariant uniq == Distinct(cves[..i])
      invariant forall x :: x in seen <==> x in cves[..i]
    {
      assert cves[..i + 1][..i] == cves[..i];
      if cves[i] !in seen {
        seen := seen + {cves[i]};
        uniq := uniq + [cves[i]];
      }
    }
    assert cves[..|cves|] == cves;
  }

  // ---------------------------------------------------------------- chunks

  function Chunks(s: seq<string>): seq<seq<string>> {
    if s == [] then []
    else if |s| <= BATCH_SIZE then [s]
    else [s[..BATCH_SIZE]] + Chunks(s[BATCH_SIZE..])
  }

  function Flatten(chunks: seq<seq<string>>): seq<string> {
    if chunks == [] then [] else chunks[0] + Flatten(chunks[1..])
  }

  /** The chunks are the list in order, each with 1 to 100 entries, and as few as that allows. */
  lemma {:induction false} ChunksPartition(s: seq<string>)
    ensures Flatten(Chunks(s)) == s
    ensures forall c <- Chunks(s) :: 1 <= |c| <= 100
    ensures |Chunks(s)| == (|s| + 99) / 100
  {
    if 0 < |s| <= BATCH_SIZE {
      assert Flatten([s]) == s + Flatten([]);
    } else if |s| > BATCH_SIZE {
      ChunksPartition(s[BATCH_SIZE..]);
      assert Chunks(s)[1..] == Chunks(s[BATCH_SIZE..]);
    }
  }

  /** At most one batch of entries, from i on. */
  function ChunkFrom(s: seq<string>, i: nat): seq<string>
    requires i <= |s|
  {
    if i + BATCH_SIZE > |s| then s[i..] else s[i..i + BATCH_SIZE]
  }

  lemma ChunkCount(s: seq<string>)
    ensures |Chunks(s)| == (|s| + BATCH_SIZE - 1) / BATCH_SIZE
  {
    ChunksPartition(s);
  }

  lemma {:induction false} ChunkAt(s: seq<string>, k: nat)
    ensures k < |Chunks(s)| <==> k * BATCH_SIZE < |s|
    ensures k < |Chunks(s)| ==> Chunks(s)[k] == ChunkFrom(s, k * BATCH_SIZE)
  {
    if k > 0 && |s| > BATCH_SIZE {
      ChunkAt(s[BATCH_SIZE..], k - 1);
    }
  }

  lemma {:induction false} FlattenMembers(chunks: seq<seq<string>>, x: string)
    ensures x in Flatten(chunks) <==> exists k :: 0 <= k < |chunks| && x in chunks[k]
  {
    if chunks != [] {
      FlattenMembers(chunks[1..], x);
      assert forall k :: 0 <= k < |chunks| - 1 ==> chunks[1..][k] == chunks[k + 1];
      if x in Flatten(chunks[1..]) {
        var k :| 0 <= k < |chunks| - 1 && x in chunks[1..][k];
        assert x in chunks[k + 1];
      }
    }
  }

  // ---------------------------------------------------------------- the batched lookup

  function Restrict(source: Scores, cves: seq<string>): Scores {
    map c | c in cves && c in source :: source[c]
  }

  /** What is known after the first n requests, when `failed` says which of them failed. */
  ghost predicate Merged(out: Scores, source: Scores, chunks: seq<seq<string>>, failed: nat -> bool, n: nat) {
    && n <= |chunks|
    && (forall c :: c in out <==> c in source && exists k :: 0 <= k < n && !failed(k) && c in chunks[k])
    && (forall c <- out :: out[c] == source[c])
  }

  /**
   fetchEPSSBatched. The k-th rate-limiter wait fails when `cut(k)`, which ends the loop; the k-th request fails when
   `failed(k)`, which loses that chunk only.
   */
  method FetchEpssBatched(cves: seq<string>, source: Scores, cut: nat -> bool, failed: nat -> bool)
    returns (out: Scores, requests: nat)
    ensures Merged(out, source, Chunks(Distinct(cves)), failed, requests)
    ensures forall k :: 0 <= k < requests ==> !cut(k)
    ensures requests <= |Chunks(Distinct(cves))| && (requests < |Chunks(Distinct(cves))| ==> cut(requests))
    ensures requests <= (|Distinct(cves)| + BATCH_SIZE - 1) / BATCH_SIZE
  {
    out, requests := map[], 0;
    if |cves| == 0 {
      return;
    }
    var uniq := Deduplicate(cves);
    ghost var chunks := Chunks(uniq);
    MergedNothing(source, chunks, failed);
    hide Chunks, Distinct, Merged, Restrict;
    var i := 0;
    ChunkAt(uniq, 0);
    while i < |uniq|
      invariant i == requests * BATCH_SIZE && requests <= |chunks|
      invariant requests < |chunks| <==> i < |uniq|
      invariant Merged(out, source, chunks, failed, requests)
      invariant forall k :: 0 <= k < requests ==> !cut(k)
      decreases |uniq| - i
    {
      var end := i + BATCH_SIZE;
      if end > |uniq| {
        end := |uniq|;
      }
      var chunk := uniq[i..end];
      assert chunk == ChunkFrom(uniq, i);
      hide ChunkFrom;
      ChunkAt(uniq, requests);
      ChunkAt(uniq, requests + 1);
      if cut(requests) {
        break;
      }
      ghost var before := out;
      if !failed(requests) {
        var batch := Restrict(source, chunk);
        out := out + batch;
      }
      MergeStep(before, out, source, chunks, failed, requests);
      i, requests := i + BATCH_SIZE, requests + 1;
    }
    ChunkCount(uniq);
  }

  lemma MergedNothing(source: Scores, chunks: seq<seq<string>>, failed: nat -> bool)
    ensures Merged(map[], source, chunks, failed, 0)
  {
  }

  lemma MergeStep(before: Scores, after: Scores, source: Scores, chunks: seq<seq<string>>, failed: nat -> bool, n: nat)
    requires Merged(before, source, chunks, failed, n) && n < |chunks|
    requires after == if failed(n) then before else before + Restrict(source, chunks[n])
    ensures Merged(after, source, chunks, failed, n + 1)
  {
    forall c ensures c in after <==> c in source && exists k :: 0 <= k < n + 1 && !failed(k) && c in chunks[k] {
      if c in before {
        var k :| 0 <= k < n && !failed(k) && c in chunks[k];
      }
    }
  }

  lemma ChunkMembers(cves: seq<string>, c: string)
    ensures c in cves <==> exists k :: 0 <= k < |Chunks(Distinct(cves))| && c in Chunks(Distinct(cves))[k]
  {
    DistinctKeepsOrder(cves);
    ChunksPartition(Distinct(cves));
    hide Chunks, Distinct, Flatten, FirstAt;
    assert c in cves <==> c in Flatten(Chunks(Distinct(cves)));
    FlattenMembers(Chunks(Distinct(cves)), c);
  }

  /** Without failures, batching is invisible: the result is the plain lookup of every requested CVE. */
  lemma BatchingIsInvisible(cves: seq<string>, source: Scores, failed: nat -> bool, out: Scores)
    requires Merged(out, source, Chunks(Distinct(cves)), failed, |Chunks(Distinct(cves))|)
    requires forall k: nat :: !failed(k)
    ensures out == Restrict(source, cves)
  {
    hide Chunks, Distinct;
    forall c ensures c in out <==> c in cves && c in source {
      ChunkMembers(cves, c);
    }
  }
}
