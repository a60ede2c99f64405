/**
 The scan frequencies that internal/scheduler/tasks.go accepts. time.ParseDuration belongs to the Go library; it is
 modelled here from its published grammar, except for the value of a fraction, which it computes in floating point:
 `fractions` gives the nanoseconds of a fraction of a unit.
 */
module Durations {
  import opened Wrappers
  import opened Int64
  import opened Text

  type Fractions = (string, string) -> nat

  /** The nanoseconds of a unit, 0 for any other text. */
  function UnitSize(unit: string): nat {
    if unit == "ns" then 1
    else if unit == "us" || unit == "\U{00B5}s" || unit == "\U{03BC}s" then 1_000
    else if unit == "ms" then 1_000_000
    else if unit == "s" then 1_000_000_000
    else if unit == "m" then 60_000_000_000
    else if unit == "h" then 3_600_000_000_000
    else 0
  }

  /** A decimal number, possibly with a fraction, and its unit. */
  datatype Term = Term(whole: string, fraction: Option<string>, unit: string)

  predicate Digits(s: string) {
    forall c <- s :: IsDigit(c)
  }

  predicate NumberChar(c: char) {
    c == '.' || IsDigit(c)
  }

  predicate UnitChar(c: char) {
    !NumberChar(c)
  }

  predicate ValidTerm(t: Term) {
    && Digits(t.whole) && (t.fraction.Some? ==> Digits(t.fraction.value))
    && (t.whole != "" || t.fraction.GetOr("") != "")
    && UnitSize(t.unit) > 0
  }

  predicate ValidTerms(ts: seq<Term>) {
    forall t <- ts :: ValidTerm(t)
  }

  function PrintNumber(whole: string, fraction: Option<string>): string {
    whole + if fraction.Some? then "." + fraction.value else ""
  }

  function PrintTerm(t: Term): string {
    PrintNumber(t.whole, t.fraction) + t.unit
  }

  function PrintTerms(ts: seq<Term>): string {
    if ts == [] then "" else PrintTerm(ts[0]) + PrintTerms(ts[1..])
  }

  // ---------------------------------------------------------------- the parser

  lemma UnitChars(unit: string)
    requires UnitSize(unit) > 0
    ensures unit != "" && forall c <- unit :: UnitChar(c) && c != 'd'
  {
  }

  /** The digits after a point, if there is one. */
  function Fraction(s: string): Option<string> {
    if s != "" && s[0] == '.' then Some(TakeWhile(s[1..], IsDigit)) else None
  }

  /** The number in front of a text, and the text behind it. */
  function ParseNumber(s: string): (r: (string, Option<string>, string))
    ensures |r.2| <= |s|
  {
    var whole := TakeWhile(s, IsDigit);
    var behind := s[|whole|..];
    var fraction := Fraction(behind);
    (whole, fraction, if fraction.Some? then behind[|fraction.value| + 1..] else behind)
  }

  lemma ParsedNumber(s: string)
    ensures
      var (whole, fraction, behind) := ParseNumber(s);
      Digits(whole) && (fraction.Some? ==> Digits(fraction.value)) && s == PrintNumber(whole, fraction) + behind
  {
    hide TakeWhile, IsDigit;
    var (whole, fraction, behind) := ParseNumber(s);
    var rest := s[|whole|..];
    assert s == whole + rest;
    assert rest == (if fraction.Some? then "." + fraction.value else "") + behind;
  }

  /** One term and the text behind it. */
  function ParseTerm(s: string): (r: Option<(Term, string)>)
    ensures r.Some? ==> |r.value.1| < |s|
  {
    var (whole, fraction, behind) := ParseNumber(s);
    var unit := TakeWhile(behind, UnitChar);
    if (whole == "" && fraction.GetOr("") == "") || UnitSize(unit) == 0 then None
    else
      UnitChars(unit);
      Some((Term(whole, fraction, unit), behind[|unit|..]))
  }

  lemma ParsedTerm(s: string)
    ensures
      var r := ParseTerm(s);
      r.Some? ==> ValidTerm(r.value.0) && s == PrintTerm(r.value.0) + r.value.1
  {
    ParsedNumber(s);
    hide UnitSize, TakeWhile, Digits, ParseNumber, PrintNumber;
    var (whole, fraction, behind) := ParseNumber(s);
    var unit := TakeWhile(behind, UnitChar);
    assert behind == unit + behind[|unit|..];
  }

  function ParseTerms(s: string): Option<seq<Term>>
    decreases |s|
  {
    if s == "" then Some([])
    else
      match ParseTerm(s)
      case None => None
      case Some((t, rest)) =>
        match ParseTerms(rest)
        case None => None
        case Some(ts) => Some([t] + ts)
  }

  lemma {:induction false} ParsedPrints(s: string)
    ensures ParseTerms(s).Some? ==> ValidTerms(ParseTerms(s).value) && PrintTerms(ParseTerms(s).value) == s
    decreases |s|
  {
    hide ParseTerm, PrintTerm, ValidTerm;
    if s != "" && ParseTerms(s).Some? {
      ParsedTerm(s);
      ParsedPrints(ParseTerm(s).value.1);
    }
  }

  // ---------------------------------------------------------------- the parser undoes the printer

  lemma PrintedNumber(whole: string, fraction: Option<string>, tail: string)
    requires Digits(whole) && (fraction.Some? ==> Digits(fraction.value))
    requires tail != "" && UnitChar(tail[0])
    ensures ParseNumber(PrintNumber(whole, fraction) + tail) == (whole, fraction, tail)
  {
    hide TakeWhile;
    var point := if fraction.Some? then "." + fraction.value else "";
    var s := PrintNumber(whole, fraction) + tail;
    assert s == whole + (point + tail);
    TakeWhileStops(whole, point + tail, IsDigit);
    assert s[|whole|..] == point + tail;
    if fraction.Some? {
      assert (point + tail)[1..] == fraction.value + tail;
      TakeWhileStops(fraction.value, tail, IsDigit);
      assert (point + tail)[|fraction.value| + 1..] == tail;
    }
  }

  lemma PrintedUnit(unit: string, rest: string)
    requires UnitSize(unit) > 0 && (rest != "" ==> NumberChar(rest[0]))
    ensures unit != "" && UnitChar(unit[0])
    ensures TakeWhile(unit + rest, UnitChar) == unit && (unit + rest)[|unit|..] == rest
  {
    UnitChars(unit);
    hide UnitSize, TakeWhile;
    assert unit[0] in unit;
    TakeWhileStops(unit, rest, UnitChar);
  }

  lemma PrintedTerm(t: Term, rest: string)
    requires ValidTerm(t) && (rest != "" ==> NumberChar(rest[0]))
    ensures ParseTerm(PrintTerm(t) + rest) == Some((t, rest))
  {
    PrintedUnit(t.unit, rest);
    hide TakeWhile, UnitSize, Digits, UnitChar, NumberChar;
    PrintedNumber(t.whole, t.fraction, t.unit + rest);
    hide ParseNumber, PrintNumber;
    ConcatAssociates(PrintNumber(t.whole, t.fraction), t.unit, rest);
  }

  lemma TermStarts(t: Term)
    requires ValidTerm(t)
    ensures PrintTerm(t) != "" && NumberChar(PrintTerm(t)[0])
  {
    hide UnitSize;
    assert t.whole != "" ==> t.whole[0] in t.whole;
  }

  lemma {:induction false} PrintedParses(ts: seq<Term>)
    requires ValidTerms(ts)
    ensures ParseTerms(PrintTerms(ts)) == Some(ts)
  {
    hide ParseTerm, PrintTerm, ValidTerm;
    if ts != [] {
      var rest := PrintTerms(ts[1..]);
      TermStarts(ts[0]);
      if |ts| > 1 {
        TermStarts(ts[1]);
      }
      PrintedTerm(ts[0], rest);
      PrintedParses(ts[1..]);
      assert [ts[0]] + ts[1..] == ts;
    }
  }

  /** The terms of a text are the only valid ones that print to it. */
  lemma ParseTermsIff(s: string, ts: seq<Term>)
    ensures ParseTerms(s) == Some(ts) <==> ValidTerms(ts) && PrintTerms(ts) == s
  {
    hide ParseTerms, PrintTerms;
    ParsedPrints(s);
    if ValidTerms(ts) {
      PrintedParses(ts);
    }
  }

  // ---------------------------------------------------------------- durations

  function TermValue(t: Term, fractions: Fractions): nat
    requires ValidTerm(t)
  {
    Number(t.whole) * UnitSize(t.unit) + if t.fraction.Some? then fractions(t.fraction.value, t.unit) else 0
  }

  function Total(ts: seq<Term>, fractions: Fractions): nat
    requires ValidTerms(ts)
  {
    if ts == [] then 0 else TermValue(ts[0], fractions) + Total(ts[1..], fractions)
  }

  /** What fits int64: the most negative duration has no positive counterpart. */
  function Signed(negative: bool, total: int): Option<int> {
    var d := if negative then -total else total;
    if -MAX - 1 <= d <= MAX then Some(d) else None
  }

  lemma SignedOf(n: int)
    requires n >= 0
    ensures Signed(false, n) == if n <= 0x7fff_ffff_ffff_ffff then Some(n) else None
    ensures Signed(true, n) == if n <= 0x8000_0000_0000_0000 then Some(-n) else None
  {
  }

  /** The text behind an optional sign. */
  function Unsigned(s: string): string {
    if s != "" && (s[0] == '-' || s[0] == '+') then s[1..] else s
  }

  /** time.ParseDuration; None is any of its errors. */
  function ParseDuration(s: string, fractions: Fractions): Option<int> {
    var negative := s != "" && s[0] == '-';
    var body := Unsigned(s);
    if body == "0" then Some(0)
    else if body == "" then None
    else
      ParsedPrints(body);
      match ParseTerms(body)
      case None => None
      case Some(ts) => Signed(negative, Total(ts, fractions))
  }

  const DAY := 24 * 3_600_000_000_000

  /** parseFrequency, in nanoseconds. */
  function ParseFrequency(s: string, fractions: Fractions): Option<int> {
    var t := TrimSpace(s);
    if t == "" then Some(DAY) else ParseDuration(t, fractions)
  }

  /**
   Which frequencies are accepted: blank ones, a bare zero, and signed lists of numbers with units, if their total fits
   int64.
   */
  lemma FrequencyAcceptedIff(s: string, fractions: Fractions)
    ensures ParseFrequency(s, fractions).Some? <==>
      var t := TrimSpace(s);
      || t == "" || Unsigned(t) == "0"
      || exists ts :: ts != [] && ValidTerms(ts) && Unsigned(t) == PrintTerms(ts) &&
           Signed(t[0] == '-', Total(ts, fractions)).Some?
  {
    hide TrimSpace;
    var t := TrimSpace(s);
    var body := Unsigned(t);
    if t != "" && body != "0" {
      ParsedPrints(body);
      if ParseFrequency(s, fractions).Some? {
        var ts := ParseTerms(body).value;
        assert ts != [];
      }
      forall ts | && ts != [] && ValidTerms(ts) && body == PrintTerms(ts)
                  && Signed(t[0] == '-', Total(ts, fractions)).Some?
        ensures ParseFrequency(s, fractions).Some?
      {
        ParseTermsIff(body, ts);
        TermStarts(ts[0]);
      }
    }
  }

  /** A blank frequency is a day. */
  lemma BlankIsADay(s: string, fractions: Fractions)
    requires AllSpace(s)
    ensures ParseFrequency(s, fractions) == Some(86_400_000_000_000)
  {
    hide TrimSpace, AllSpace;
    BlankIff(s);
  }

  lemma LastOfUnit(unit: string)
    requires UnitSize(unit) > 0
    ensures unit != "" && !IsSpace(unit[|unit| - 1]) && unit[|unit| - 1] != '0'
  {
  }

  /** A whole number and a unit. */
  lemma OneTerm(w: string, unit: string, fractions: Fractions)
    requires Digits(w) && w != "" && UnitSize(unit) > 0
    ensures ParseFrequency(w + unit, fractions) == Signed(false, Number(w) * UnitSize(unit))
  {
    hide IsSpace, TrimSpace, UnitSize, Number, ParseTerms, Signed, Digits, PrintTerm;
    var t := Term(w, None, unit);
    TermIsTrimmed(w, unit);
    OneTermPrints(w, unit);
    ParseTermsIff(w + unit, [t]);
    SumOfOne(t, fractions);
  }

  lemma TermIsTrimmed(w: string, unit: string)
    requires Digits(w) && w != "" && UnitSize(unit) > 0
    ensures var s := w + unit; TrimSpace(s) == s && Unsigned(s) == s && s != "0" && s[0] != '-'
  {
    hide IsSpace, TrimSpace, UnitSize, Digits;
    var s := w + unit;
    LastOfUnit(unit);
    FirstDigit(w);
    assert s[0] == w[0] && s[|s| - 1] == unit[|unit| - 1];
    TrimSpaceKeeps(s);
  }

  lemma FirstDigit(w: string)
    requires Digits(w) && w != ""
    ensures IsDigit(w[0]) && !IsSpace(w[0])
  {
    assert w[0] in w;
  }

  lemma OneTermPrints(w: string, unit: string)
    requires Digits(w) && w != "" && UnitSize(unit) > 0
    ensures var t := Term(w, None, unit); ValidTerm(t) && ValidTerms([t]) && PrintTerms([t]) == w + unit
  {
    hide UnitSize;
    var t := Term(w, None, unit);
    assert [t][1..] == [] && PrintTerm(t) == w + unit;
  }

  lemma SumOfOne(t: Term, fractions: Fractions)
    requires ValidTerm(t)
    ensures Total([t], fractions) == TermValue(t, fractions)
  {
    assert [t][1..] == [];
  }

  /** The nanoseconds of each unit. */
  lemma UnitValues(w: string, fractions: Fractions)
    requires Digits(w) && w != ""
    ensures ParseFrequency(w + "ns", fractions) == Signed(false, Number(w))
    ensures ParseFrequency(w + "us", fractions) == Signed(false, Number(w) * 1_000)
    ensures ParseFrequency(w + "\U{00B5}s", fractions) == Signed(false, Number(w) * 1_000)
    ensures ParseFrequency(w + "\U{03BC}s", fractions) == Signed(false, Number(w) * 1_000)
    ensures ParseFrequency(w + "ms", fractions) == Signed(false, Number(w) * 1_000_000)
    ensures ParseFrequency(w + "s", fractions) == Signed(false, Number(w) * 1_000_000_000)
    ensures ParseFrequency(w + "m", fractions) == Signed(false, Number(w) * 60_000_000_000)
    ensures ParseFrequency(w + "h", fractions) == Signed(false, Number(w) * 3_600_000_000_000)
  {
    hide Digits, Number, ParseFrequency, Signed;
    OneTerm(w, "ns", fractions);
    OneTerm(w, "us", fractions);
    OneTerm(w, "\U{00B5}s", fractions);
    OneTerm(w, "\U{03BC}s", fractions);
    OneTerm(w, "ms", fractions);
    OneTerm(w, "s", fractions);
    OneTerm(w, "m", fractions);
    OneTerm(w, "h", fractions);
  }

  lemma {:induction false} NoDayUnit(ts: seq<Term>)
    requires ValidTerms(ts)
    ensures 'd' !in PrintTerms(ts)
  {
    if ts != [] {
      var t := ts[0];
      assert t in ts && ValidTerm(t);
      UnitChars(t.unit);
      hide UnitSize;
      assert 'd' !in PrintTerm(t);
      NoDayUnit(ts[1..]);
    }
  }

  /** There is no unit for days, or any other with a "d": "7d" and all its kind are errors. */
  lemma DaysAreRefused(s: string, fractions: Fractions)
    requires 'd' in TrimSpace(s)
    ensures ParseFrequency(s, fractions).None?
  {
    hide TrimSpace;
    var t := TrimSpace(s);
    var body := Unsigned(t);
    assert 'd' in body;
    ParsedPrints(body);
    if ParseTerms(body).Some? {
      NoDayUnit(ParseTerms(body).value);
    }
  }

  lemma SevenDaysTrimmed()
    ensures 'd' in TrimSpace("7d")
  {
    hide TrimSpace;
    TrimSpaceKeeps("7d");
    assert "7d"[1] == 'd';
  }

  lemma SevenDaysRefused(fractions: Fractions)
    ensures ParseFrequency("7d", fractions).None?
  {
    hide *;
    SevenDaysTrimmed();
    DaysAreRefused("7d", fractions);
  }
}
