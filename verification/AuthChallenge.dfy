/** The WWW-Authenticate challenge parser of internal/registry/v2.go (section 3 of RFC 6750). */
module AuthChallenge {
  import opened Wrappers
  import opened Text

  // ---------------------------------------------------------------- splitting on commas outside quotes

  function Quotes(s: string): nat {
    if s == "" then 0
    else Quotes(s[..|s| - 1]) + (if s[|s| - 1] == '"' then 1 else 0)
  }

  /** A comma preceded by an even number of quotes. */
  predicate CutAt(s: string, i: nat) {
    i < |s| && s[i] == ',' && Quotes(s[..i]) % 2 == 0
  }

  function FirstCut(s: string, from: nat): (i: Option<nat>)
    requires from <= |s|
    ensures i.None? ==> forall j :: from <= j < |s| ==> !CutAt(s, j)
    ensures i.Some? ==> from <= i.value && CutAt(s, i.value) && forall j :: from <= j < i.value ==> !CutAt(s, j)
    decreases |s| - from
  {
    if from == |s| then None
    else if CutAt(s, from) then Some(from)
    else FirstCut(s, from + 1)
  }

  /** The pieces between the cuts, without an empty last one. */
  function Pieces(s: string): seq<string> {
    if s == "" then []
    else
      match FirstCut(s, 0)
      case None => [s]
      case Some(i) => [s[..i]] + Pieces(s[i + 1..])
  }

  function Join(pieces: seq<string>): string {
    if pieces == [] then ""
    else if |pieces| == 1 then pieces[0]
    else pieces[0] + "," + Join(pieces[1..])
  }

  lemma {:induction false} QuotesAdd(a: string, b: string)
    ensures Quotes(a + b) == Quotes(a) + Quotes(b)
  {
    if b == "" {
      assert a + b == a;
    } else {
      var n := |b| - 1;
      assert (a + b)[..|a| + n] == a + b[..n];
      QuotesAdd(a, b[..n]);
    }
  }

  lemma EvenFront(x: nat, y: nat)
    requires x % 2 == 0
    ensures (x + y) % 2 == y % 2
  {
  }

  /** Behind an even number of quotes, the cuts of a text are those of its rest. */
  lemma CutsOfRest(a: string, b: string, i: nat)
    requires Quotes(a) % 2 == 0
    ensures CutAt(a + b, |a| + i) <==> CutAt(b, i)
  {
    hide Quotes;
    if i < |b| {
      assert (a + b)[|a| + i] == b[i];
      assert (a + b)[..|a| + i] == a + b[..i];
      QuotesAdd(a, b[..i]);
      EvenFront(Quotes(a), Quotes(b[..i]));
    }
  }

  lemma CutsOfFront(a: string, b: string, i: nat)
    requires i < |a|
    ensures CutAt(a + b, i) <==> CutAt(a, i)
  {
    assert (a + b)[..i] == a[..i];
  }

  lemma FirstCutIs(s: string, i: nat)
    requires CutAt(s, i) && forall j :: 0 <= j < i ==> !CutAt(s, j)
    ensures FirstCut(s, 0) == Some(i)
  {
    hide FirstCut;
  }

  /** A piece ends at i, when they start at `from`. */
  predicate EndsAt(pieces: seq<string>, from: int, i: int) {
    && pieces != []
    && (i == from + |pieces[0]| || EndsAt(pieces[1..], from + |pieces[0]| + 1, i))
  }

  /** The text behind a cut. */
  lemma BehindCut(s: string, i: nat, k: nat)
    requires CutAt(s, i)
    ensures CutAt(s, i + 1 + k) <==> CutAt(s[i + 1..], k)
  {
    assert s == (s[..i] + ",") + s[i + 1..];
    QuotesAdd(s[..i], ",");
    assert Quotes(",") == Quotes("");
    CutsOfRest(s[..i] + ",", s[i + 1..], k);
  }

  lemma PiecesOfFirst(s: string, k: nat)
    requires FirstCut(s, 0) == Some(k) && k < |s|
    ensures Pieces(s) == [s[..k]] + Pieces(s[k + 1..])
  {
    hide CutAt, Quotes, FirstCut;
  }

  lemma {:induction false} EndsShift(pieces: seq<string>, from: int, shift: int, i: int)
    ensures EndsAt(pieces, from, i) <==> EndsAt(pieces, from + shift, i + shift)
  {
    if pieces != [] {
      EndsShift(pieces[1..], from + |pieces[0]| + 1, shift, i);
    }
  }

  lemma {:induction false} EndsInside(pieces: seq<string>, from: int, i: int)
    ensures EndsAt(pieces, from, i) ==> i >= from
  {
    if pieces != [] {
      EndsInside(pieces[1..], from + |pieces[0]| + 1, i);
    }
  }

  /** A text's pieces end at its first cut and where the rest's do, moved behind that cut. */
  lemma EndsOfPieces(s: string, k: nat, i: nat)
    requires FirstCut(s, 0) == Some(k) && k < |s|
    ensures EndsAt(Pieces(s), 0, i) <==> i == k || (i > k && EndsAt(Pieces(s[k + 1..]), 0, i - k - 1))
  {
    hide FirstCut, Pieces, CutAt, Quotes;
    PiecesOfFirst(s, k);
    var rest := Pieces(s[k + 1..]);
    assert Pieces(s)[0] == s[..k] && Pieces(s)[1..] == rest;
    EndsShift(rest, 0, k + 1, i - k - 1);
    EndsInside(rest, 0, i - k - 1);
  }

  lemma UncutEnds(s: string, i: nat)
    requires s != "" && FirstCut(s, 0).None?
    ensures EndsAt(Pieces(s), 0, i) <==> i == |s|
  {
    hide CutAt, Quotes, FirstCut;
    assert Pieces(s) == [s];
  }

  /** The pieces are cut exactly at the commas preceded by an even number of quotes. */
  lemma {:induction false} CutExactlyAtOpenCommas(s: string, i: nat)
    ensures CutAt(s, i) <==> i < |s| && EndsAt(Pieces(s), 0, i)
    decreases |s|
  {
    hide FirstCut, Pieces, Quotes, EndsAt, CutAt;
    CutInside(s, i);
    if i < |s| {
      match FirstCut(s, 0)
      case None =>
        UncutEnds(s, i);
      case Some(k) =>
        CutInside(s, k);
        EndsOfPieces(s, k, i);
        if i > k {
          BehindCut(s, k, i - k - 1);
          CutExactlyAtOpenCommas(s[k + 1..], i - k - 1);
        }
    }
  }

  lemma CutInside(s: string, i: nat)
    ensures CutAt(s, i) ==> i < |s|
  {
  }

  function Tail(s: string): string {
    if s != "" && CutAt(s, |s| - 1) then "," else ""
  }

  lemma SplitFirst(s: string) returns (i: nat)
    requires s != "" && FirstCut(s, 0).Some?
    ensures i < |s| && Pieces(s) == [s[..i]] + Pieces(s[i + 1..]) && s == s[..i] + "," + s[i + 1..]
    ensures Tail(s) == if s[i + 1..] == "" then "," else Tail(s[i + 1..])
  {
    hide Quotes;
    i := FirstCut(s, 0).value;
    assert CutAt(s, i) && i < |s|;
    var rest := s[i + 1..];
    PiecesOfFirst(s, i);
    hide FirstCut, Pieces;
    assert s == s[..i] + "," + rest;
    if rest == "" {
      assert i == |s| - 1;
    } else {
      BehindCut(s, i, |rest| - 1);
      hide CutAt;
      assert i + 1 + (|rest| - 1) == |s| - 1;
    }
  }

  /** The untrimmed pieces, joined by commas, are the input up to an empty last piece. */
  lemma {:induction false} PiecesRebuild(s: string)
    ensures s == Join(Pieces(s)) + Tail(s)
    decreases |s|
  {
    if s == "" {
    } else if FirstCut(s, 0).None? {
      assert Pieces(s) == [s];
    } else {
      var i := SplitFirst(s);
      var p, rest := s[..i], s[i + 1..];
      NoPieces();
      hide FirstCut, Pieces, CutAt, Tail;
      assert rest == "" ==> Pieces(s) == [p];
      if rest != "" {
        PiecesRebuild(rest);
        assert Pieces(s)[1..] == Pieces(rest);
        assert Join(Pieces(s)) == p + "," + Join(Pieces(rest)) by {
          HasPieces(rest);
        }
      }
    }
  }

  lemma NoPieces()
    ensures Pieces("") == []
  {
  }

  lemma HasPieces(s: string)
    requires s != ""
    ensures Pieces(s) != []
  {
  }

  /** Quotes are balanced and guard every comma. */
  ghost predicate Closed(p: string) {
    Quotes(p) % 2 == 0 && forall i :: 0 <= i < |p| ==> !CutAt(p, i)
  }

  /** Splitting undoes joining. */
  lemma {:induction false} PiecesOfJoin(pieces: seq<string>)
    requires forall p <- pieces :: Closed(p)
    requires pieces != [] ==> pieces[|pieces| - 1] != ""
    ensures Pieces(Join(pieces)) == pieces
  {
    if |pieces| == 1 {
      assert pieces[0] in pieces;
      assert pieces == [pieces[0]];
    } else if |pieces| > 1 {
      var p, rest := pieces[0], Join(pieces[1..]);
      var s := p + "," + rest;
      assert p in pieces;
      assert s == p + ("," + rest);
      assert s[..|p|] == p && s[|p| + 1..] == rest;
      forall j | 0 <= j < |p| ensures !CutAt(s, j) {
        CutsOfFront(p, "," + rest, j);
      }
      FirstCutIs(s, |p|);
      PiecesOfJoin(pieces[1..]);
    }
  }

  function Trims(pieces: seq<string>): seq<string> {
    seq(|pieces|, i requires 0 <= i < |pieces| => TrimSpace(pieces[i]))
  }

  /** The loop has cut up to `start` and looked for the next cut up to i. */
  ghost predicate Splitting(s: string, start: nat, i: nat, quoted: bool) {
    && start <= i <= |s| && Quotes(s[..start]) % 2 == 0
    && quoted == (Quotes(s[..i]) % 2 == 1)
    && forall j :: start <= j < i ==> !CutAt(s, j)
  }

  /** One character further; `quoted` is turned over before the comma is looked for. */
  lemma SplitStep(s: string, start: nat, i: nat, quoted: bool)
    requires Splitting(s, start, i, quoted) && i < |s|
    ensures
      var after := if s[i] == '"' then !quoted else quoted;
      && (CutAt(s, i) <==> s[i] == ',' && !after)
      && Splitting(s, if CutAt(s, i) then i + 1 else start, i + 1, after)
  {
    assert s[..i + 1][..i] == s[..i];
  }

  lemma NextPiece(s: string, start: nat, i: nat, quoted: bool)
    requires Splitting(s, start, i, quoted) && CutAt(s, i)
    ensures Pieces(s[start..]) == [s[start..i]] + Pieces(s[i + 1..])
  {
    hide CutAt, Quotes;
    assert i < |s| by {
      CutInside(s, i);
    }
    var rest := s[start..];
    assert s == s[..start] + rest;
    forall j | 0 <= j < i - start ensures !CutAt(rest, j) {
      CutsOfRest(s[..start], rest, j);
    }
    CutsOfRest(s[..start], rest, i - start);
    FirstCutIs(rest, i - start);
    CutInside(rest, i - start);
    assert rest[..i - start] == s[start..i] && rest[i - start + 1..] == s[i + 1..];
  }

  lemma LastPiece(s: string, start: nat, quoted: bool)
    requires Splitting(s, start, |s|, quoted)
    ensures Pieces(s[start..]) == if start < |s| then [s[start..]] else []
  {
    hide CutAt, Quotes;
    var rest := s[start..];
    assert s == s[..start] + rest;
    forall j | 0 <= j < |rest| ensures !CutAt(rest, j) {
      CutsOfRest(s[..start], rest, j);
    }
    var cut := FirstCut(rest, 0);
    if cut.Some? {
      CutInside(rest, cut.value);
    }
  }

  /** The trimmed pieces found so far, with those of the rest, are the text's. */
  ghost predicate Collected(s: string, start: nat, parts: seq<string>) {
    start <= |s| && parts + Trims(Pieces(s[start..])) == Trims(Pieces(s))
  }

  method SplitAuthParams(s: string) returns (parts: seq<string>)
    ensures parts == Trims(Pieces(s))
  {
    hide *;
    parts := [];
    var start, quoted := 0, false;
    CollectNone(s);
    for i := 0 to |s|
      invariant start <= i && Splitting(s, start, i, quoted)
      invariant Collected(s, start, parts)
    {
      SplitStep(s, start, i, quoted);
      ghost var before := quoted;
      if s[i] == '"' {
        quoted := !quoted;
      }
      if s[i] == ',' && !quoted {
        CollectPiece(s, start, i, before, parts);
        parts := parts + [TrimSpace(s[start..i])];
        start := i + 1;
      }
    }
    CollectLast(s, start, quoted, parts);
    if start < |s| {
      parts := parts + [TrimSpace(s[start..])];
    }
  }

  lemma CollectNone(s: string)
    ensures Splitting(s, 0, 0, false) && Collected(s, 0, [])
  {
    hide Pieces, TrimSpace, Trims, CutAt;
    assert s[0..] == s && s[..0] == "";
  }

  lemma CollectPiece(s: string, start: nat, i: nat, quoted: bool, parts: seq<string>)
    requires Splitting(s, start, i, quoted) && CutAt(s, i) && Collected(s, start, parts)
    ensures i < |s| && start <= i && Collected(s, i + 1, parts + [TrimSpace(s[start..i])])
  {
    CutInside(s, i);
    NextPiece(s, start, i, quoted);
    hide Pieces, TrimSpace, Trims, Quotes, CutAt;
    TrimsFirst(s[start..i], Pieces(s[i + 1..]));
    ConcatAssociates(parts, [TrimSpace(s[start..i])], Trims(Pieces(s[i + 1..])));
  }

  lemma CollectLast(s: string, start: nat, quoted: bool, parts: seq<string>)
    requires Splitting(s, start, |s|, quoted) && Collected(s, start, parts)
    ensures start <= |s|
    ensures (if start < |s| then parts + [TrimSpace(s[start..])] else parts) == Trims(Pieces(s))
  {
    LastPiece(s, start, quoted);
    hide Pieces, TrimSpace, Trims, Quotes, CutAt;
    TrimsLast(s[start..]);
  }

  lemma TrimsLast(piece: string)
    ensures Trims([piece]) == [TrimSpace(piece)] && Trims([]) == []
  {
    hide TrimSpace;
  }

  lemma TrimsFirst(piece: string, pieces: seq<string>)
    ensures Trims([piece] + pieces) == [TrimSpace(piece)] + Trims(pieces)
  {
    hide TrimSpace;
  }

  // ---------------------------------------------------------------- the challenge

  datatype Challenge = Challenge(realm: string, service: string, scope: string)

  const NO_CHALLENGE := Challenge("", "", "")

  predicate IsQuote(c: char) {
    c == '"'
  }

  /** strings.SplitN(part, "=", 2), when it gives two halves, with the key and the value as they are compared. */
  function KeyValue(part: string): Option<(string, string)> {
    match Index(part, '=')
    case None => None
    case Some(i) => Some((ToLower(TrimSpace(part[..i])), Trim(part[i + 1..], IsQuote)))
  }

  function WithParam(c: Challenge, part: string): Challenge {
    match KeyValue(part)
    case None => c
    case Some((key, value)) =>
      if key == "realm" then c.(realm := value)
      else if key == "service" then c.(service := value)
      else if key == "scope" then c.(scope := value)
      else c
  }

  function Collect(parts: seq<string>): Challenge {
    if parts == [] then NO_CHALLENGE
    else WithParam(Collect(parts[..|parts| - 1]), parts[|parts| - 1])
  }

  function ParseChallenge(header: string): Challenge {
    var h := TrimSpace(header);
    if "bearer " <= ToLower(h) then Collect(Trims(Pieces(h[7..]))) else NO_CHALLENGE
  }

  /** Challenges of other schemes, and one that is nothing but the scheme, give nothing. */
  lemma OtherSchemes(header: string, h: string)
    requires Framed(header, h) && Trimmed(h, IsSpace)
    requires |h| < 7 || !SameText(h[..7], "bearer ")
    ensures ParseChallenge(header) == Challenge("", "", "")
  {
    hide TrimSpace, Framed, Trimmed, Trims, Pieces, Collect, SameText, ToLower;
    TrimSpaceIff(header, h);
    if |h| >= 7 {
      LowerIff(h[..7], "bearer ");
      BearerIsLower();
      assert ToLower(h)[..7] == ToLower(h[..7]);
    }
  }

  lemma BearerIsLower()
    ensures ToLower("bearer ") == "bearer "
  {
  }

  method ParseWwwAuthenticate(header: string) returns (c: Challenge)
    ensures c == ParseChallenge(header)
  {
    hide TrimSpace, Trim, Pieces, Index;
    c := NO_CHALLENGE;
    var h := TrimSpace(header);
    if !("bearer " <= ToLower(h)) {
      return;
    }
    var parts := SplitAuthParams(h[7..]);
    for i := 0 to |parts|
      invariant c == Collect(parts[..i])
    {
      assert parts[..i + 1][..i] == parts[..i];
      var eq := Index(parts[i], '=');
      if eq.Some? {
        var value := Trim(parts[i][eq.value + 1..], IsQuote);
        var key := ToLower(TrimSpace(parts[i][..eq.value]));
        if key == "realm" {
          c := c.(realm := value);
        } else if key == "service" {
          c := c.(service := value);
        } else if key == "scope" {
          c := c.(scope := value);
        }
      }
    }
    assert parts[..|parts|] == parts;
  }

  // ---------------------------------------------------------------- the printer of section 3 of RFC 6750

  /** White space, a key and a quoted value. */
  datatype Param = Param(pad: string, key: string, value: string)

  function Quoted(value: string): string {
    "\"" + value + "\""
  }

  function PrintParam(p: Param): string {
    p.pad + (p.key + "=" + Quoted(p.value))
  }

  function PrintParams(params: seq<Param>): seq<string> {
    seq(|params|, i requires 0 <= i < |params| => PrintParam(params[i]))
  }

  function PrintHeader(scheme: string, params: seq<Param>): string {
    scheme + " " + Join(PrintParams(params))
  }

  /** Values may hold commas, equals signs and white space, but no quote. */
  ghost predicate Printable(p: Param) {
    && (forall c <- p.pad :: IsSpace(c))
    && Trimmed(p.key, IsSpace) && '=' !in p.key && '"' !in p.key && ',' !in p.key
    && '"' !in p.value
  }

  /** The value of the last parameter with the key, "" without one. */
  function Last(params: seq<Param>, key: string): string {
    if params == [] then ""
    else
      var p := params[|params| - 1];
      if ToLower(p.key) == key then p.value else Last(params[..|params| - 1], key)
  }

  lemma {:induction false} NoQuotes(s: string)
    requires '"' !in s
    ensures Quotes(s) == 0
  {
    if s != "" {
      assert s[|s| - 1] in s;
      NoQuotes(s[..|s| - 1]);
    }
  }

  lemma OneQuote()
    ensures Quotes("\"") == 1
  {
    assert Quotes("\""[..0]) == 0;
  }

  lemma SpacesAreNotSpecial()
    ensures !IsSpace('"') && !IsSpace(',') && !IsSpace('=')
    ensures forall c :: 'a' <= LowerChar(c) <= 'z' ==> !IsSpace(c)
  {
  }

  lemma PrintedIsClosed(p: Param)
    requires Printable(p)
    ensures Closed(PrintParam(p)) && PrintParam(p) != ""
  {
    var pre := p.pad + p.key + "=";
    var s := PrintParam(p);
    SpacesAreNotSpecial();
    hide IsSpace, Trimmed;
    assert s == pre + "\"" + p.value + "\"";
    assert '"' !in pre && ',' !in pre;
    assert Quotes(pre + "\"") == 1 by {
      NoQuotes(pre);
      OneQuote();
      QuotesAdd(pre, "\"");
    }
    assert Quotes(s) == 2 by {
      NoQuotes(p.value);
      OneQuote();
      QuotesAdd(pre + "\"", p.value);
      QuotesAdd(pre + "\"" + p.value, "\"");
    }
    hide Quotes;
    forall i | 0 <= i < |s| && s[i] == ',' ensures Quotes(s[..i]) == 1 {
      assert i > |pre|;
      var v := p.value[..i - |pre| - 1];
      assert s[..i] == (pre + "\"") + v;
      NoQuotes(v);
      QuotesAdd(pre + "\"", v);
    }
  }

  function Body(p: Param): string {
    p.key + "=" + Quoted(p.value)
  }

  lemma PrintedTrims(p: Param)
    requires Printable(p)
    ensures TrimSpace(PrintParam(p)) == Body(p)
  {
    var body := Body(p);
    SpacesAreNotSpecial();
    hide IsSpace, Trim;
    assert body[0] == if p.key == "" then '=' else p.key[0];
    assert body[|body| - 1] == '"';
    TrimFrame(p.pad, body, "", IsSpace);
    assert p.pad + body + "" == PrintParam(p);
  }

  lemma QuotesComeOff(value: string)
    requires '"' !in value
    ensures Trim(Quoted(value), IsQuote) == value
  {
    hide Trim;
    TrimFrame("\"", value, "\"", IsQuote);
  }

  lemma KeyValueAtFirstEquals(key: string, rest: string)
    requires '=' !in key
    ensures KeyValue(key + "=" + rest) == Some((ToLower(TrimSpace(key)), Trim(rest, IsQuote)))
  {
    hide TrimSpace, Trim, Index, ToLower;
    FirstIndex(key, '=', rest);
    var part := key + "=" + rest;
    assert part[..|key|] == key && part[|key| + 1..] == rest;
  }

  lemma PrintedKeyValue(p: Param)
    requires Printable(p)
    ensures KeyValue(TrimSpace(PrintParam(p))) == Some((ToLower(p.key), p.value))
  {
    PrintedTrims(p);
    TrimIsTrimmed(p.key, IsSpace);
    QuotesComeOff(p.value);
    KeyValueAtFirstEquals(p.key, Quoted(p.value));
    hide KeyValue, PrintParam, Quoted, ToLower, IsSpace, Trim;
  }

  lemma {:induction false} CollectPrinted(params: seq<Param>)
    requires forall p <- params :: Printable(p)
    ensures Collect(Trims(PrintParams(params)))
      == Challenge(Last(params, "realm"), Last(params, "service"), Last(params, "scope"))
  {
    if params != [] {
      var n := |params| - 1;
      var parts := Trims(PrintParams(params));
      assert parts[..n] == Trims(PrintParams(params[..n]));
      assert parts[n] == TrimSpace(PrintParam(params[n]));
      CollectPrinted(params[..n]);
      PrintedKeyValue(params[n]);
      hide KeyValue, PrintParam, TrimSpace, Printable;
    }
  }

  lemma SchemeEdges(scheme: string)
    requires ToLower(scheme) == "bearer"
    ensures |scheme| == 6 && !IsSpace(scheme[0]) && !IsSpace(scheme[5])
  {
    assert ToLower(scheme)[0] == 'b' && ToLower(scheme)[5] == 'r';
    SpacesAreNotSpecial();
    hide IsSpace;
  }

  lemma HeaderIsTrimmed(scheme: string, params: seq<Param>)
    requires ToLower(scheme) == "bearer" && forall p <- params :: Printable(p)
    ensures TrimSpace(PrintHeader(scheme, params)) == if params == [] then scheme else PrintHeader(scheme, params)
  {
    SchemeEdges(scheme);
    hide ToLower, Trim, Printable;
    var h := PrintHeader(scheme, params);
    if params == [] {
      assert h == "" + scheme + " ";
      TrimFrame("", scheme, " ", IsSpace);
    } else {
      SpacesAreNotSpecial();
      JoinEnds(PrintParams(params));
      hide IsSpace, Join;
      assert h[0] == scheme[0];
      assert h[|h| - 1] == '"';
      TrimIsTrimmed(h, IsSpace);
    }
  }

  lemma {:induction false} JoinEnds(pieces: seq<string>)
    requires pieces != [] && pieces[|pieces| - 1] != ""
    ensures var j, last := Join(pieces), pieces[|pieces| - 1]; j != "" && j[|j| - 1] == last[|last| - 1]
  {
    if |pieces| > 1 {
      JoinEnds(pieces[1..]);
    }
  }

  lemma PrintedPieces(params: seq<Param>)
    requires forall p <- params :: Printable(p)
    ensures Pieces(Join(PrintParams(params))) == PrintParams(params)
  {
    hide Printable, Pieces, Join, Closed, PrintParam;
    var pieces := PrintParams(params);
    forall p <- pieces ensures Closed(p) && p != "" {
      var i :| 0 <= i < |params| && p == PrintParam(params[i]);
      PrintedIsClosed(params[i]);
    }
    assert pieces != [] ==> pieces[|pieces| - 1] in pieces;
    PiecesOfJoin(pieces);
  }

  lemma BearerPrefix(scheme: string, rest: string)
    requires ToLower(scheme) == "bearer"
    ensures "bearer " <= ToLower(scheme + " " + rest) && (scheme + " " + rest)[7..] == rest
    ensures !("bearer " <= ToLower(scheme))
  {
    var h := scheme + " " + rest;
    assert ToLower(h)[..6] == ToLower(scheme);
    assert ToLower(h)[..7] == "bearer ";
  }

  /** Parsing undoes printing, whatever the order, the case of the keys and the scheme, and the white space. */
  lemma ParseUndoesPrint(scheme: string, params: seq<Param>)
    requires ToLower(scheme) == "bearer" && forall p <- params :: Printable(p)
    ensures ParseChallenge(PrintHeader(scheme, params))
      == Challenge(Last(params, "realm"), Last(params, "service"), Last(params, "scope"))
  {
    HeaderIsTrimmed(scheme, params);
    BearerPrefix(scheme, Join(PrintParams(params)));
    PrintedPieces(params);
    CollectPrinted(params);
    hide TrimSpace, Printable, ToLower, Pieces, Join, Collect, PrintParam;
  }

  lemma {:induction false} MissingIsEmpty(params: seq<Param>, key: string)
    requires forall p <- params :: ToLower(p.key) != key
    ensures Last(params, key) == ""
  {
    hide ToLower;
    if params != [] {
      MissingIsEmpty(params[..|params| - 1], key);
    }
  }

  /** Each key's value is found wherever its parameter stands. */
  lemma {:induction false} FoundInAnyOrder(params: seq<Param>, p: Param)
    requires p in params
    requires forall i, j :: 0 <= i < j < |params| ==> ToLower(params[i].key) != ToLower(params[j].key)
    ensures Last(params, ToLower(p.key)) == p.value
  {
    hide ToLower;
    var n := |params| - 1;
    if params[n] != p {
      FoundInAnyOrder(params[..n], p);
      var i :| 0 <= i < n && params[i] == p;
    }
  }
}
