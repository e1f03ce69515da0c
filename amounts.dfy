/**
 * How the company form treats money amounts (client/src/components.tsx:
 * 412-416, 436-439, 450, 474, 532-535): an input keeps only its digits,
 * is displayed with a comma between groups of three digits, and is read
 * with `Number` and printed with `toLocaleString` in the summaries.
 */
module Amounts {
  import opened Wrappers
  import opened Text

  /** `s.replace(/[^\d]/g, '')`: the digits of `s`, in order. */
  function DigitsOnly(s: string): (r: string)
    ensures AllDigits(r) && |r| <= |s|
    ensures AllDigits(s) ==> r == s
    decreases |s|
  {
    if s == [] then []
    else (if IsDigit(s[0]) then [s[0]] else []) + DigitsOnly(s[1..])
  }

  /** Filtering digits distributes over concatenation. */
  lemma {:induction false} DigitsOnlyConcat(a: string, b: string)
    ensures DigitsOnly(a + b) == DigitsOnly(a) + DigitsOnly(b)
    decreases |a|
  {
    if a != [] {
      assert (a + b)[0] == a[0] && (a + b)[1..] == a[1..] + b;
      DigitsOnlyConcat(a[1..], b);
    } else {
      assert a + b == b;
    }
  }

  /** The length of the run of digits that starts at position `p`. */
  function DigitRun(s: string, p: nat): (n: nat)
    requires p <= |s|
    ensures p + n <= |s|
    ensures forall i :: p <= i < p + n ==> IsDigit(s[i])
    ensures p + n < |s| ==> !IsDigit(s[p + n])
    decreases |s| - p
  {
    if p < |s| && IsDigit(s[p]) then 1 + DigitRun(s, p + 1) else 0
  }

  /**
   * The positions where `/\B(?=(\d{3})+(?!\d))/` matches: not at a word
   * boundary, and followed by a maximal run of digits whose length is a
   * positive multiple of three.
   */
  predicate CommaBefore(s: string, p: nat)
    requires p <= |s|
  {
    0 < p && IsWordChar(s[p - 1]) && DigitRun(s, p) > 0 && DigitRun(s, p) % 3 == 0
  }

  function GroupFrom(s: string, p: nat): string
    requires p <= |s|
    decreases |s| - p
  {
    if p == |s| then "" else (if CommaBefore(s, p) then "," else "") + [s[p]] + GroupFrom(s, p + 1)
  }

  /** `s.replace(/\B(?=(\d{3})+(?!\d))/g, ',')`: a comma inserted at every matching position. */
  function Group(s: string): string {
    GroupFrom(s, 0)
  }

  /** Grouping only inserts commas, so filtering the digits again gives back the digits of the input. */
  lemma {:induction false} GroupFromKeepsDigits(s: string, p: nat)
    requires p <= |s|
    ensures DigitsOnly(GroupFrom(s, p)) == DigitsOnly(s[p..])
    decreases |s| - p
  {
    if p < |s| {
      GroupFromKeepsDigits(s, p + 1);
      var comma := if CommaBefore(s, p) then "," else "";
      var rest := GroupFrom(s, p + 1);
      assert GroupFrom(s, p) == (comma + [s[p]]) + rest;
      CommaHasNoDigits();
      assert s[p..] == [s[p]] + s[p + 1..];
      GroupStepDigits(comma, s[p], rest, s[p + 1..]);
    }
  }

  lemma CommaHasNoDigits()
    ensures DigitsOnly(",") == "" && DigitsOnly("") == ""
  {
    assert ","[1..] == "";
  }

  /** A step of the grouping: a comma or nothing in front of one character adds no digit other than that character. */
  lemma GroupStepDigits(comma: string, x: char, rest: string, tail: string)
    requires DigitsOnly(comma) == ""
    requires DigitsOnly(rest) == DigitsOnly(tail)
    ensures DigitsOnly((comma + [x]) + rest) == DigitsOnly([x] + tail)
  {
    DigitsOnlyConcat(comma + [x], rest);
    DigitsOnlyConcat(comma, [x]);
    DigitsOnlyConcat([x], tail);
  }

  /** Re-filtering a grouped amount returns its digits; for a digits-only amount, the amount itself. */
  lemma GroupKeepsDigits(s: string)
    ensures DigitsOnly(Group(s)) == DigitsOnly(s)
    ensures AllDigits(s) ==> DigitsOnly(Group(s)) == s
  {
    GroupFromKeepsDigits(s, 0);
    assert s[0..] == s;
  }

  lemma {:induction false} DigitRunAllDigits(s: string, p: nat)
    requires AllDigits(s) && p <= |s|
    ensures DigitRun(s, p) == |s| - p
    decreases |s| - p
  {
    if p < |s| {
      DigitRunAllDigits(s, p + 1);
    }
  }

  /** In a digits-only amount a comma goes before every position, except the first, that leaves a multiple of three digits. */
  lemma CommaPositions(s: string, p: nat)
    requires AllDigits(s) && p < |s|
    ensures CommaBefore(s, p) <==> 0 < p && (|s| - p) % 3 == 0
  {
    DigitRunAllDigits(s, p);
  }

  /** A digits-only amount of at most three digits is shown unchanged. */
  lemma {:induction false} GroupShort(s: string, p: nat)
    requires AllDigits(s) && p <= |s| <= 3
    ensures GroupFrom(s, p) == s[p..]
    decreases |s| - p
  {
    if p < |s| {
      CommaPositions(s, p);
      GroupShort(s, p + 1);
      assert s[p..] == [s[p]] + s[p + 1..];
    }
  }

  /** The last three digits of a longer digits-only amount go behind a comma. */
  lemma GroupLastThree(s: string)
    requires AllDigits(s) && |s| > 3
    ensures GroupFrom(s, |s| - 3) == "," + s[|s| - 3..]
  {
    var n := |s| - 3;
    assert GroupFrom(s, n + 3) == "";
    CommaPositions(s, n + 2);
    assert GroupFrom(s, n + 2) == [s[n + 2]];
    CommaPositions(s, n + 1);
    assert GroupFrom(s, n + 1) == [s[n + 1], s[n + 2]];
    CommaPositions(s, n);
    assert GroupFrom(s, n) == [',', s[n], s[n + 1], s[n + 2]];
    assert s[n..] == [s[n], s[n + 1], s[n + 2]];
  }

  /** Cutting the last three digits off a digits-only amount moves no comma before them. */
  lemma SameCommaInPrefix(s: string, p: nat)
    requires AllDigits(s) && |s| > 3 && p < |s| - 3
    ensures CommaBefore(s, p) == CommaBefore(s[..|s| - 3], p)
  {
    var t := s[..|s| - 3];
    assert AllDigits(t);
    CommaPositions(s, p);
    CommaPositions(t, p);
  }

  /** Grouping a digits-only amount splits off its last three digits behind a comma. */
  lemma {:induction false} GroupFromSplit(s: string, t: string, p: nat)
    requires AllDigits(s) && |s| > 3 && t == s[..|s| - 3] && p <= |t|
    ensures GroupFrom(s, p) == GroupFrom(t, p) + "," + s[|t|..]
    decreases |t| - p
  {
    if p == |t| {
      GroupLastThree(s);
    } else {
      GroupFromSplit(s, t, p + 1);
      SameCommaInPrefix(s, p);
      var c := if CommaBefore(s, p) then "," else "";
      var rest := GroupFrom(t, p + 1);
      assert GroupFrom(s, p) == c + [s[p]] + (rest + "," + s[|t|..]);
      assert GroupFrom(t, p) == c + [s[p]] + rest;
    }
  }

  /**
   * The grouped form of a digits-only amount, as the reference definition
   * "groups of three from the right": three digits or fewer stay as they
   * are, otherwise the last three go behind a comma after the grouped rest.
   */
  lemma GroupFromTheRight(s: string)
    requires AllDigits(s)
    ensures |s| <= 3 ==> Group(s) == s
    ensures |s| > 3 ==> Group(s) == Group(s[..|s| - 3]) + "," + s[|s| - 3..]
  {
    if |s| <= 3 {
      GroupShort(s, 0);
      assert s[0..] == s;
    } else {
      var t := s[..|s| - 3];
      GroupFromSplit(s, t, 0);
      assert Group(s) == GroupFrom(t, 0) + "," + s[|t|..];
      assert Group(t) == GroupFrom(t, 0);
    }
  }

  /**
   * `Number(v)` for a string: decimal digits (with surrounding white space)
   * are their value, blank is 0, anything else is NaN (`None`). A string of
   * digits has no white space to trim, so it is read as it is.
   */
  function NumberOf(v: string): (r: Option<nat>)
    ensures AllDigits(v) ==> r == Some(DigitsValue(v))
  {
    if AllDigits(v) then Some(DigitsValue(v))
    else
      var t := Trim(v);
      if AllDigits(t) then Some(DigitsValue(t)) else None
  }

  /** `Number` of a blank string, white space only, is 0. */
  lemma BlankIsZero(v: string)
    requires forall i :: 0 <= i < |v| ==> IsJsWhitespace(v[i])
    ensures NumberOf(v) == Some(0)
  {
    TrimEmptyIffBlank(v);
  }

  /** Digits are not white space, so trimming a string of digits leaves it as it is. */
  lemma DigitsNeedNoTrim(v: string)
    requires AllDigits(v)
    ensures Trim(v) == v
  {
    assert TrimStart(v) == v;
  }

  /** White space around digits does not change the number they are read as. */
  lemma PaddedDigits(pre: string, digits: string, post: string)
    requires forall i :: 0 <= i < |pre| ==> IsJsWhitespace(pre[i])
    requires forall i :: 0 <= i < |post| ==> IsJsWhitespace(post[i])
    requires digits != [] && AllDigits(digits)
    ensures NumberOf(pre + digits + post) == Some(DigitsValue(digits))
  {
    var v := pre + digits + post;
    assert v == pre + (digits + post);
    TrimStartSkipsBlank(pre, digits + post);
    TrimEndSkipsBlank(digits, post);
    assert Trim(v) == digits;
    if AllDigits(v) {
      DigitsNeedNoTrim(v);
    }
  }

  /** `toLocaleString()` of a number in a Korean locale: digits grouped by commas; NaN prints as "NaN". */
  function LocaleString(n: Option<nat>): string {
    match n
    case None => "NaN"
    case Some(k) => Group(NatToString(k))
  }

  /** A printed amount holds exactly the decimal digits of the number, with commas between them. */
  lemma LocaleStringDigits(n: nat)
    ensures DigitsOnly(LocaleString(Some(n))) == NatToString(n)
  {
    GroupKeepsDigits(NatToString(n));
  }

  /** Re-reading the digits of a printed amount gives back the number. */
  lemma PrintedAmountReadsBack(n: nat)
    ensures NumberOf(DigitsOnly(LocaleString(Some(n)))) == Some(n)
  {
    LocaleStringDigits(n);
    NatToStringRoundTrip(n);
  }
}
