/** The string helpers of the Go standard library that the modelled code calls. */
module Text {
  import opened Wrappers

  /** unicode.IsSpace. */
  predicate IsSpace(c: char) {
    || '\t' <= c <= '\r' || c == ' ' || c == '\U{0085}' || c == '\U{00A0}'
    || c == '\U{1680}' || '\U{2000}' <= c <= '\U{200A}' || c == '\U{2028}' || c == '\U{2029}'
    || c == '\U{202F}' || c == '\U{205F}' || c == '\U{3000}'
  }

  /** Lower-casing, restricted to ASCII letters. */
  function LowerChar(c: char): char {
    if 'A' <= c <= 'Z' then c - 'A' + 'a' else c
  }

  function ToLower(s: string): (r: string)
    ensures |r| == |s|
    ensures forall i :: 0 <= i < |s| ==> r[i] == LowerChar(s[i])
  {
    seq(|s|, i requires 0 <= i < |s| => LowerChar(s[i]))
  }

  function UpperChar(c: char): char {
    if 'a' <= c <= 'z' then c - 'a' + 'A' else c
  }

  /** Upper-casing, restricted to ASCII letters. */
  function ToUpper(s: string): (r: string)
    ensures |r| == |s|
    ensures forall i :: 0 <= i < |s| ==> r[i] == UpperChar(s[i])
  {
    seq(|s|, i requires 0 <= i < |s| => UpperChar(s[i]))
  }

  /** What cutting leading members of `cut` makes of s. */
  ghost predicate CutLeft(s: string, r: string, cut: char -> bool) {
    && |r| <= |s| && r == s[|s| - |r|..]
    && (forall i :: 0 <= i < |s| - |r| ==> cut(s[i]))
    && (r != "" ==> !cut(r[0]))
  }

  lemma CutOneMore(s: string, r: string, cut: char -> bool)
    requires s != "" && cut(s[0]) && CutLeft(s[1..], r, cut)
    ensures CutLeft(s, r, cut)
  {
    var n := |s| - |r|;
    assert s[1..][n - 1..] == s[n..];
    forall i | 0 <= i < n ensures cut(s[i]) {
      if i > 0 {
        assert s[i] == s[1..][i - 1];
      }
    }
  }

  /** Cuts leading members of `cut`; the first character left, if any, is not one. */
  function TrimLeft(s: string, cut: char -> bool): (r: string)
    ensures CutLeft(s, r, cut)
  {
    if s != "" && cut(s[0]) then
      var r := TrimLeft(s[1..], cut);
      CutOneMore(s, r, cut);
      r
    else s
  }

  function TrimRight(s: string, cut: char -> bool): (r: string)
    ensures |r| <= |s| && r == s[..|r|]
    ensures forall i :: |r| <= i < |s| ==> cut(s[i])
    ensures r != "" ==> !cut(r[|r| - 1])
  {
    if s != "" && cut(s[|s| - 1]) then TrimRight(s[..|s| - 1], cut) else s
  }

  /** strings.Trim. */
  function Trim(s: string, cut: char -> bool): string {
    TrimLeft(TrimRight(s, cut), cut)
  }

  /** strings.TrimSpace. */
  function TrimSpace(s: string): string {
    Trim(s, IsSpace)
  }

  /** What trimming leaves alone: text with no member of `cut` at either edge. */
  predicate Trimmed(s: string, cut: char -> bool) {
    s == "" || (!cut(s[0]) && !cut(s[|s| - 1]))
  }

  lemma TrimIsTrimmed(s: string, cut: char -> bool)
    ensures Trimmed(Trim(s, cut), cut)
    ensures Trimmed(s, cut) <==> Trim(s, cut) == s
  {
    var t := TrimRight(s, cut);
    var r := TrimLeft(t, cut);
    if r != "" {
      assert r[|r| - 1] == t[|t| - 1];
    }
  }

  lemma TrimSpaceKeeps(s: string)
    requires s != "" ==> !IsSpace(s[0]) && !IsSpace(s[|s| - 1])
    ensures TrimSpace(s) == s
  {
    assert Trimmed(s, IsSpace);
    hide Trim, IsSpace, Trimmed;
    TrimIsTrimmed(s, IsSpace);
  }

  /** Trimming removes exactly a frame made of cutset characters. */
  lemma TrimFrame(pre: string, s: string, post: string, cut: char -> bool)
    requires forall i :: 0 <= i < |pre| ==> cut(pre[i])
    requires forall i :: 0 <= i < |post| ==> cut(post[i])
    requires Trimmed(s, cut)
    ensures Trim(pre + s + post, cut) == s
  {
    TrimRightFrame(pre + s, post, cut);
    if s == "" {
      assert pre + s == pre + "";
      TrimRightFrame("", pre, cut);
      assert "" + pre == pre + s;
    } else {
      assert (pre + s)[|pre + s| - 1] == s[|s| - 1];
      TrimLeftFrame(pre, s, cut);
    }
  }

  lemma {:induction false} TrimRightFrame(s: string, post: string, cut: char -> bool)
    requires forall i :: 0 <= i < |post| ==> cut(post[i])
    ensures TrimRight(s + post, cut) == TrimRight(s, cut)
    decreases |post|
  {
    if post == "" {
      assert s + post == s;
    } else {
      var n := |post| - 1;
      assert (s + post)[..|s + post| - 1] == s + post[..n];
      assert (s + post)[|s + post| - 1] == post[n];
      TrimRightFrame(s, post[..n], cut);
    }
  }

  lemma {:induction false} TrimLeftFrame(pre: string, s: string, cut: char -> bool)
    requires forall i :: 0 <= i < |pre| ==> cut(pre[i])
    ensures TrimLeft(pre + s, cut) == TrimLeft(s, cut)
  {
    if pre == "" {
      assert pre + s == s;
    } else {
      assert (pre + s)[1..] == pre[1..] + s;
      TrimLeftFrame(pre[1..], s, cut);
    }
  }

  lemma ConcatAssociates<T>(a: seq<T>, b: seq<T>, c: seq<T>)
    ensures (a + b) + c == a + (b + c)
  {
  }

  // ---------------------------------------------------------------- searching

  /** strings.Contains. */
  predicate Contains(s: string, sub: string) {
    sub <= s || (s != "" && Contains(s[1..], sub))
  }

  /** strings.Index and strings.LastIndex of one character. */
  function Index(s: string, c: char): (i: Option<nat>)
    ensures i.None? <==> c !in s
    ensures i.Some? ==> i.value < |s| && s[i.value] == c && forall j :: 0 <= j < i.value ==> s[j] != c
  {
    if s == "" then None
    else if s[0] == c then Some(0)
    else
      match Index(s[1..], c)
      case None => None
      case Some(i) => Some(i + 1)
  }

  function LastIndex(s: string, c: char): (i: Option<nat>)
    ensures i.None? <==> c !in s
    ensures i.Some? ==> i.value < |s| && s[i.value] == c && forall j :: i.value < j < |s| ==> s[j] != c
  {
    if s == "" then None
    else
      var n := |s| - 1;
      if s[n] == c then Some(n)
      else
        match LastIndex(s[..n], c)
        case None => None
        case Some(i) => Some(i)
  }

  lemma FirstIndex(pre: string, c: char, post: string)
    requires c !in pre
    ensures Index(pre + [c] + post, c) == Some(|pre|)
  {
    hide Index;
    var s := pre + [c] + post;
    assert s[|pre|] == c;
    assert forall j :: 0 <= j < |pre| ==> s[j] == pre[j];
  }

  lemma LastAt(s: string, c: char, k: nat)
    requires k < |s| && s[k] == c && forall j :: k < j < |s| ==> s[j] != c
    ensures LastIndex(s, c) == Some(k)
  {
    hide LastIndex;
  }

  lemma FinalIndex(pre: string, c: char, post: string)
    requires c !in post
    ensures LastIndex(pre + [c] + post, c) == Some(|pre|)
  {
    hide *;
    var s := pre + [c] + post;
    assert s[|pre|] == c && s[|pre| + 1..] == post;
    forall j | |pre| < j < |s| ensures s[j] != c {
      assert s[j] in s[|pre| + 1..];
    }
    LastAt(s, c, |pre|);
  }

  lemma TrimRightKeeps(s: string, cut: char -> bool)
    requires s != "" && !cut(s[|s| - 1])
    ensures TrimRight(s, cut) == s
  {
  }

  /** Trimming on the left stops at the first character to keep. */
  lemma {:induction false} TrimLeftStops(s: string, rest: string, cut: char -> bool)
    requires rest != "" && !cut(rest[0])
    ensures TrimLeft(s + rest, cut) == TrimLeft(s, cut) + rest
  {
    if s == "" {
      assert s + rest == rest;
    } else {
      assert (s + rest)[1..] == s[1..] + rest;
      TrimLeftStops(s[1..], rest, cut);
    }
  }

  /** Text with nothing to trim shields all but the left edge of the text before it. */
  lemma TrimBefore(s: string, rest: string, cut: char -> bool)
    requires rest != "" && !cut(rest[0]) && !cut(rest[|rest| - 1])
    ensures Trim(s + rest, cut) == TrimLeft(s, cut) + rest
  {
    hide TrimLeft, TrimRight;
    TrimRightKeeps(s + rest, cut);
    TrimLeftStops(s, rest, cut);
  }

  // ---------------------------------------------------------------- names in any case, with white space around

  /** The same character, or the same ASCII letter in the other case. */
  predicate SameLetter(c: char, d: char) {
    || c == d
    || ('A' <= c <= 'Z' && d as int == c as int + 32)
    || ('A' <= d <= 'Z' && c as int == d as int + 32)
  }

  predicate SameText(a: string, b: string) {
    |a| == |b| && forall i :: 0 <= i < |a| ==> SameLetter(a[i], b[i])
  }

  predicate AllSpace(s: string) {
    forall i :: 0 <= i < |s| ==> IsSpace(s[i])
  }

  /** s is core with white space around it. */
  ghost predicate Framed(s: string, core: string) {
    exists pre, post :: AllSpace(pre) && AllSpace(post) && s == pre + core + post
  }

  /** s is the name in any letter case, with any white space around it. */
  ghost predicate Reads(s: string, name: string) {
    exists core :: Framed(s, core) && SameText(core, name)
  }

  lemma TrimmedPart(s: string)
    ensures Framed(s, TrimSpace(s))
  {
    hide TrimLeft, TrimRight, IsSpace;
    var t := TrimRight(s, IsSpace);
    var r := TrimLeft(t, IsSpace);
    var pre, post := t[..|t| - |r|], s[|t|..];
    assert AllSpace(pre) && AllSpace(post);
    assert s == pre + r + post;
  }

  /** Trimming finds the one core that has no white space at its edges. */
  lemma TrimSpaceIff(s: string, t: string)
    ensures TrimSpace(s) == t <==> Framed(s, t) && Trimmed(t, IsSpace)
  {
    hide IsSpace, Trim, Trimmed;
    TrimmedPart(s);
    TrimIsTrimmed(s, IsSpace);
    if Framed(s, t) && Trimmed(t, IsSpace) {
      var pre, post :| AllSpace(pre) && AllSpace(post) && s == pre + t + post;
      TrimFrame(pre, t, post, IsSpace);
    }
  }

  lemma BlankIff(s: string)
    ensures TrimSpace(s) == "" <==> AllSpace(s)
  {
    hide IsSpace, TrimSpace;
    TrimSpaceIff(s, "");
    if AllSpace(s) {
      assert s == s + "" + "" && AllSpace("");
    }
  }

  lemma LowerIff(a: string, b: string)
    ensures ToLower(a) == ToLower(b) <==> SameText(a, b)
  {
    assert forall c, d :: LowerChar(c) == LowerChar(d) <==> SameLetter(c, d);
    hide ToLower, LowerChar, SameLetter;
    if ToLower(a) == ToLower(b) {
      forall i | 0 <= i < |a| ensures SameLetter(a[i], b[i]) {
        assert ToLower(a)[i] == ToLower(b)[i];
      }
    }
  }

  lemma UpperIff(a: string, b: string)
    ensures ToUpper(a) == ToUpper(b) <==> SameText(a, b)
  {
    assert forall c, d :: UpperChar(c) == UpperChar(d) <==> SameLetter(c, d);
    hide ToUpper, UpperChar, SameLetter;
    if ToUpper(a) == ToUpper(b) {
      forall i | 0 <= i < |a| ensures SameLetter(a[i], b[i]) {
        assert ToUpper(a)[i] == ToUpper(b)[i];
      }
    }
  }

  lemma SameTextIsTrimmed(a: string, b: string)
    requires SameText(a, b)
    ensures Trimmed(a, IsSpace) <==> Trimmed(b, IsSpace)
  {
    assert forall c, d :: SameLetter(c, d) ==> (IsSpace(c) <==> IsSpace(d));
    hide IsSpace, SameLetter;
  }

  /** Trimming and lower-casing a text tells whether it reads as a trimmed name. */
  lemma LowerReads(s: string, name: string)
    requires Trimmed(name, IsSpace)
    ensures ToLower(TrimSpace(s)) == ToLower(name) <==> Reads(s, name)
  {
    hide ToLower, TrimSpace, SameText, Framed, Trimmed;
    var core := TrimSpace(s);
    TrimSpaceIff(s, core);
    LowerIff(core, name);
    if Reads(s, name) {
      var other :| Framed(s, other) && SameText(other, name);
      SameTextIsTrimmed(other, name);
      TrimSpaceIff(s, other);
    }
  }

  lemma NoCapitals(s: string)
    requires forall c <- s :: !('A' <= c <= 'Z')
    ensures ToLower(s) == s
  {
    hide ToLower;
    assert forall i :: 0 <= i < |s| ==> s[i] in s;
  }

  lemma NoSmallLetters(s: string)
    requires forall c <- s :: !('a' <= c <= 'z')
    ensures ToUpper(s) == s
  {
    hide ToUpper;
    assert forall i :: 0 <= i < |s| ==> s[i] in s;
  }

  lemma TrimUpper(s: string)
    ensures TrimSpace(ToUpper(s)) == ToUpper(TrimSpace(s))
  {
    var core := TrimSpace(s);
    TrimSpaceIff(s, core);
    hide TrimSpace, IsSpace, SameText, Trimmed;
    var pre, post :| AllSpace(pre) && AllSpace(post) && s == pre + core + post;
    UpperOfSpace(pre);
    UpperOfSpace(post);
    hide AllSpace;
    UpperConcat(pre + core, post);
    UpperConcat(pre, core);
    assert Framed(ToUpper(s), ToUpper(core));
    UpperIsSame(core);
    SameTextIsTrimmed(ToUpper(core), core);
    TrimSpaceIff(ToUpper(s), ToUpper(core));
  }

  /** Upper-casing and trimming a text tells the same. */
  lemma UpperReads(s: string, name: string)
    requires Trimmed(name, IsSpace)
    ensures TrimSpace(ToUpper(s)) == ToUpper(name) <==> Reads(s, name)
  {
    TrimUpper(s);
    hide ToUpper, TrimSpace, SameText, Framed, Trimmed;
    var core := TrimSpace(s);
    TrimSpaceIff(s, core);
    UpperIff(core, name);
    if Reads(s, name) {
      var other :| Framed(s, other) && SameText(other, name);
      SameTextIsTrimmed(other, name);
      TrimSpaceIff(s, other);
    }
  }

  lemma UpperOfSpace(s: string)
    requires AllSpace(s)
    ensures AllSpace(ToUpper(s))
  {
    assert forall c :: IsSpace(c) ==> IsSpace(UpperChar(c));
    hide IsSpace, UpperChar;
  }

  lemma UpperConcat(a: string, b: string)
    ensures ToUpper(a + b) == ToUpper(a) + ToUpper(b)
  {
    hide UpperChar;
  }

  lemma UpperIsSame(s: string)
    ensures SameText(ToUpper(s), s)
  {
  }

  // ---------------------------------------------------------------- digits

  predicate IsDigit(c: char) {
    '0' <= c <= '9'
  }

  function DigitValue(c: char): nat
    requires IsDigit(c)
  {
    c as int - '0' as int
  }

  /** The number of a text of digits. */
  function Number(s: string): nat
    requires forall c <- s :: IsDigit(c)
  {
    if s == "" then 0 else 10 * Number(s[..|s| - 1]) + DigitValue(s[|s| - 1])
  }

  /** The longest prefix whose characters all pass. */
  function TakeWhile(s: string, pass: char -> bool): (r: string)
    ensures |r| <= |s| && r == s[..|r|] && forall c <- r :: pass(c)
    ensures |r| < |s| ==> !pass(s[|r|])
  {
    if s == "" || !pass(s[0]) then ""
    else
      var rest := TakeWhile(s[1..], pass);
      assert s[..|rest| + 1] == [s[0]] + rest;
      [s[0]] + rest
  }

  lemma {:induction false} TakeWhileStops(s: string, rest: string, pass: char -> bool)
    requires forall c <- s :: pass(c)
    requires rest != "" ==> !pass(rest[0])
    ensures TakeWhile(s + rest, pass) == s
  {
    if s == "" {
      assert s + rest == rest;
    } else {
      assert (s + rest)[1..] == s[1..] + rest && (s + rest)[0] == s[0];
      assert s[0] in s;
      TakeWhileStops(s[1..], rest, pass);
    }
  }
}
