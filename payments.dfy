/**
 * The payment terms of a quotation or contract in the company form
 * (client/src/components.tsx:408-417, 466-535, 617-628, 639-645): editing
 * the advance, the interim payments and the balance, their sum, the
 * one-line summary, and the planned tax-invoice date shown under the
 * signing date.
 */
module Payments {
  import opened Wrappers
  import opened Lists
  import opened Text
  import opened Dates
  import opened Domain
  import opened Amounts
  import opened Dashboard

  // --------------------------------------------------------------- editing

  /**
   * The object an edit spreads `prev.paymentTerms` into: a structured value
   * as it is, and an empty, missing or plain value as one without amounts.
   */
  function AsStructured(pt: Option<PaymentTerms>): (r: PaymentTerms)
    ensures r.Structured?
  {
    match pt
    case Some(Structured(a, i, b)) => Structured(a, i, b)
    case _ => Structured("", None, "")
  }

  /** The advance input: only its digits are stored. */
  function SetAdvance(pt: Option<PaymentTerms>, input: string): PaymentTerms {
    var s := AsStructured(pt);
    Structured(DigitsOnly(input), s.interims, s.balance)
  }

  /** The balance input: only its digits are stored. */
  function SetBalance(pt: Option<PaymentTerms>, input: string): PaymentTerms {
    var s := AsStructured(pt);
    Structured(s.advance, s.interims, DigitsOnly(input))
  }

  /** "+ 중도금 추가": an empty interim payment goes at the end. */
  function AddInterim(pt: Option<PaymentTerms>): PaymentTerms {
    var s := AsStructured(pt);
    Structured(s.advance, Some(s.interims.GetOr([]) + [""]), s.balance)
  }

  /** The interim input fields exist only while the interims are a list. */
  predicate HasInterims(pt: Option<PaymentTerms>) {
    pt.Some? && pt.value.Structured? && pt.value.interims.Some?
  }

  function InterimsOf(pt: Option<PaymentTerms>): seq<string> {
    match pt
    case Some(Structured(_, Some(xs), _)) => xs
    case _ => []
  }

  /** Typing into interim input `idx`: that entry becomes the digits typed, the others stay. */
  function EditInterim(pt: Option<PaymentTerms>, idx: int, input: string): (r: PaymentTerms)
    requires HasInterims(pt)
    ensures r.Structured? && r.advance == pt.value.advance && r.balance == pt.value.balance
    ensures r.interims.Some? && |r.interims.value| == |InterimsOf(pt)|
    ensures 0 <= idx < |InterimsOf(pt)| ==> r.interims.value == InterimsOf(pt)[idx := DigitsOnly(input)]
    ensures !(0 <= idx < |InterimsOf(pt)|) ==> r.interims.value == InterimsOf(pt)
  {
    var xs := InterimsOf(pt);
    Structured(pt.value.advance, Some(seq(|xs|, i requires 0 <= i < |xs| => if i == idx then DigitsOnly(input) else xs[i])), pt.value.balance)
  }

  /** The remove button of interim `idx`: `filter((_, i) => i !== idx)`. */
  function RemoveInterim(pt: Option<PaymentTerms>, idx: int): (r: PaymentTerms)
    requires HasInterims(pt)
    ensures r.Structured? && r.advance == pt.value.advance && r.balance == pt.value.balance
    ensures r.interims.Some?
    ensures 0 <= idx < |InterimsOf(pt)| ==> r.interims.value == InterimsOf(pt)[..idx] + InterimsOf(pt)[idx + 1..]
    ensures !(0 <= idx < |InterimsOf(pt)|) ==> r.interims.value == InterimsOf(pt)
  {
    var xs := InterimsOf(pt);
    var ys := if 0 <= idx < |xs| then RemoveAt(xs, idx) else xs;
    assert 0 <= idx < |xs| ==> ys == ys[..idx] + ys[idx..];
    Structured(pt.value.advance, Some(ys), pt.value.balance)
  }

  /** Every stored amount, advance, interims and balance, is digits only, as the inputs leave them. */
  predicate Clean(pt: Option<PaymentTerms>) {
    match pt
    case Some(Structured(a, i, b)) =>
      AllDigits(a) && AllDigits(b) && forall k :: 0 <= k < |i.GetOr([])| ==> AllDigits(i.GetOr([])[k])
    case _ => true
  }

  /** Starting from stored amounts that are digits only, every edit keeps them so. */
  lemma EditsKeepClean(pt: Option<PaymentTerms>, idx: int, input: string)
    requires Clean(pt)
    ensures Clean(Some(SetAdvance(pt, input)))
    ensures Clean(Some(SetBalance(pt, input)))
    ensures Clean(Some(AddInterim(pt)))
    ensures HasInterims(pt) ==> Clean(Some(EditInterim(pt, idx, input)))
    ensures HasInterims(pt) ==> Clean(Some(RemoveInterim(pt, idx)))
  {
    var xs := AsStructured(pt).interims.GetOr([]);
    assert forall k :: 0 <= k < |xs| ==> AllDigits(xs[k]);
    assert AllDigits("");
    var ys := xs + [""];
    assert forall k :: 0 <= k < |ys| ==> AllDigits(ys[k]);
    if HasInterims(pt) && 0 <= idx < |xs| {
      var zs := RemoveAt(xs, idx);
      forall k | 0 <= k < |zs|
        ensures AllDigits(zs[k])
      {
        if k < idx {
          assert zs[k] == zs[..idx][k] == xs[..idx][k];
        } else {
          assert zs[k] == zs[idx..][k - idx] == xs[idx + 1..][k - idx];
        }
      }
    }
  }

  // --------------------------------------------------------------- the sum

  function Plus(a: Option<nat>, b: Option<nat>): (r: Option<nat>)
    ensures r.Some? <==> a.Some? && b.Some?
  {
    if a.Some? && b.Some? then Some(a.value + b.value) else None
  }

  /** `Number(x || 0)` of each amount; `None` is NaN. */
  function Numbers(xs: seq<string>): (r: seq<Option<nat>>)
    ensures |r| == |xs| && forall i :: 0 <= i < |xs| ==> r[i] == NumberOf(xs[i])
  {
    seq(|xs|, i requires 0 <= i < |xs| => NumberOf(xs[i]))
  }

  /** A running sum from the left, as `reduce` computes it; one NaN makes the whole sum NaN. */
  function SumOf(ns: seq<Option<nat>>): Option<nat>
    decreases |ns|
  {
    if ns == [] then Some(0) else Plus(SumOf(ns[..|ns| - 1]), ns[|ns| - 1])
  }

  /** `interims.reduce((a, b) => a + Number(b || 0), 0)`. */
  function SumAmounts(xs: seq<string>): Option<nat> {
    SumOf(Numbers(xs))
  }

  /** "지급 조건 합계": advance plus interims plus balance, each `Number(x || 0)`; NaN is `None`. */
  function PaymentSum(pt: Option<PaymentTerms>): Option<nat> {
    match pt
    case Some(Structured(a, i, b)) => Plus(Plus(NumberOf(a), SumAmounts(i.GetOr([]))), NumberOf(b))
    case _ => Some(0)
  }

  lemma {:induction false} SumOfConcat(a: seq<Option<nat>>, b: seq<Option<nat>>)
    ensures SumOf(a + b) == Plus(SumOf(a), SumOf(b))
    decreases |b|
  {
    if b == [] {
      assert a + b == a;
    } else {
      var b' := b[..|b| - 1];
      assert (a + b)[..|a + b| - 1] == a + b';
      assert (a + b)[|a + b| - 1] == b[|b| - 1];
      SumOfConcat(a, b');
    }
  }

  /** The sum of a concatenation is the sum of the sums; a NaN on either side makes it NaN. */
  lemma SumAmountsConcat(a: seq<string>, b: seq<string>)
    ensures SumAmounts(a + b) == Plus(SumAmounts(a), SumAmounts(b))
  {
    assert Numbers(a + b) == Numbers(a) + Numbers(b);
    SumOfConcat(Numbers(a), Numbers(b));
  }

  /** The sum of one amount is its number. */
  lemma SumAmountsSingle(x: string)
    ensures SumAmounts([x]) == NumberOf(x)
  {
    var ns := Numbers([x]);
    assert ns == [NumberOf(x)];
    assert ns[..0] == [];
    assert SumOf(ns) == Plus(SumOf([]), NumberOf(x));
  }

  lemma {:induction false} SumOfDefined(ns: seq<Option<nat>>)
    requires forall k :: 0 <= k < |ns| ==> ns[k].Some?
    ensures SumOf(ns).Some?
    decreases |ns|
  {
    if ns != [] {
      var init := ns[..|ns| - 1];
      assert forall k :: 0 <= k < |init| ==> init[k].Some? by {
        forall k | 0 <= k < |init|
          ensures init[k].Some?
        {
          assert init[k] == ns[k];
        }
      }
      SumOfDefined(init);
    }
  }

  /** Amounts that are digits only never sum to NaN. */
  lemma SumAmountsOfDigits(xs: seq<string>)
    requires forall k :: 0 <= k < |xs| ==> AllDigits(xs[k])
    ensures SumAmounts(xs).Some?
  {
    SumOfDefined(Numbers(xs));
  }

  /** With digits-only amounts the sum is never NaN. */
  lemma CleanSumDefined(pt: Option<PaymentTerms>)
    requires Clean(pt)
    ensures PaymentSum(pt).Some?
  {
    if pt.Some? && pt.value.Structured? {
      SumAmountsOfDigits(pt.value.interims.GetOr([]));
    }
  }

  /** Adding an empty interim payment leaves the sum as it was. */
  lemma AddInterimKeepsSum(pt: Option<PaymentTerms>)
    ensures PaymentSum(Some(AddInterim(pt))) == PaymentSum(Some(AsStructured(pt)))
    ensures !(pt.Some? && pt.value.Structured?) ==> PaymentSum(Some(AddInterim(pt))) == Some(0)
  {
    var xs := AsStructured(pt).interims.GetOr([]);
    SumAmountsConcat(xs, [""]);
    SumAmountsSingle("");
    assert NumberOf("") == Some(0);
  }

  /** The interims around position `idx`, split so that each part is digits only. */
  lemma SplitAt(xs: seq<string>, idx: int)
    requires forall k :: 0 <= k < |xs| ==> AllDigits(xs[k])
    requires 0 <= idx < |xs|
    ensures xs == xs[..idx] + [xs[idx]] + xs[idx + 1..]
    ensures SumAmounts(xs[..idx]).Some? && SumAmounts(xs[idx + 1..]).Some?
    ensures SumAmounts(xs) == Plus(Plus(SumAmounts(xs[..idx]), NumberOf(xs[idx])), SumAmounts(xs[idx + 1..]))
  {
    var pre, post := xs[..idx], xs[idx + 1..];
    assert xs == pre + [xs[idx]] + post;
    assert forall k :: 0 <= k < |pre| ==> AllDigits(pre[k]) by {
      forall k | 0 <= k < |pre|
        ensures AllDigits(pre[k])
      {
        assert pre[k] == xs[k];
      }
    }
    assert forall k :: 0 <= k < |post| ==> AllDigits(post[k]) by {
      forall k | 0 <= k < |post|
        ensures AllDigits(post[k])
      {
        assert post[k] == xs[idx + 1 + k];
      }
    }
    SumAmountsOfDigits(pre);
    SumAmountsOfDigits(post);
    SumAmountsConcat(pre + [xs[idx]], post);
    SumAmountsConcat(pre, [xs[idx]]);
    SumAmountsSingle(xs[idx]);
  }

  /** The sum of a structured value whose advance and balance are digits only and whose interims do not sum to NaN. */
  lemma PaymentSumOf(advance: string, xs: seq<string>, balance: string)
    requires AllDigits(advance) && AllDigits(balance) && SumAmounts(xs).Some?
    ensures PaymentSum(Some(Structured(advance, Some(xs), balance))) ==
      Some(DigitsValue(advance) + SumAmounts(xs).value + DigitsValue(balance))
  {
    assert Some(xs).GetOr([]) == xs;
    assert PaymentSum(Some(Structured(advance, Some(xs), balance))) ==
      Plus(Plus(NumberOf(advance), SumAmounts(xs)), NumberOf(balance));
    PlusThree(NumberOf(advance), SumAmounts(xs), NumberOf(balance));
  }

  lemma PlusThree(a: Option<nat>, m: Option<nat>, b: Option<nat>)
    requires a.Some? && m.Some? && b.Some?
    ensures Plus(Plus(a, m), b) == Some(a.value + m.value + b.value)
  {
  }

  /** The stored amounts of a clean structured value are digits only. */
  lemma CleanParts(pt: Option<PaymentTerms>)
    requires HasInterims(pt) && Clean(pt)
    ensures pt == Some(Structured(pt.value.advance, Some(InterimsOf(pt)), pt.value.balance))
    ensures AllDigits(pt.value.advance) && AllDigits(pt.value.balance)
    ensures forall k :: 0 <= k < |InterimsOf(pt)| ==> AllDigits(InterimsOf(pt)[k])
  {
    assert InterimsOf(pt) == pt.value.interims.GetOr([]);
  }

  /** Removing interim `idx` of digits-only amounts takes exactly that amount off the sum. */
  lemma RemoveInterimSubtracts(pt: Option<PaymentTerms>, idx: int)
    requires HasInterims(pt) && Clean(pt) && 0 <= idx < |InterimsOf(pt)|
    ensures var before := PaymentSum(pt);
      var after := PaymentSum(Some(RemoveInterim(pt, idx)));
      before.Some? && after.Some? && before.value == after.value + DigitsValue(InterimsOf(pt)[idx])
  {
    CleanParts(pt);
    var adv, xs, bal := pt.value.advance, InterimsOf(pt), pt.value.balance;
    SplitAt(xs, idx);
    var ys := RemoveAt(xs, idx);
    assert RemoveInterim(pt, idx) == Structured(adv, Some(ys), bal);
    assert ys == xs[..idx] + xs[idx + 1..];
    SumAmountsConcat(xs[..idx], xs[idx + 1..]);
    assert NumberOf(xs[idx]) == Some(DigitsValue(xs[idx]));
    PaymentSumOf(adv, xs, bal);
    PaymentSumOf(adv, ys, bal);
  }

  /** Swapping entry `idx` of digits-only amounts swaps its number in the sum. */
  lemma ReplaceSum(xs: seq<string>, ys: seq<string>, idx: int)
    requires forall k :: 0 <= k < |xs| ==> AllDigits(xs[k])
    requires forall k :: 0 <= k < |ys| ==> AllDigits(ys[k])
    requires |xs| == |ys| && 0 <= idx < |xs|
    requires ys[..idx] == xs[..idx] && ys[idx + 1..] == xs[idx + 1..]
    ensures SumAmounts(xs).Some? && SumAmounts(ys).Some?
    ensures SumAmounts(ys).value + DigitsValue(xs[idx]) == SumAmounts(xs).value + DigitsValue(ys[idx])
  {
    SplitAt(xs, idx);
    SplitAt(ys, idx);
    assert NumberOf(xs[idx]) == Some(DigitsValue(xs[idx]));
    assert NumberOf(ys[idx]) == Some(DigitsValue(ys[idx]));
  }

  /** Retyping interim `idx` of digits-only amounts swaps its old amount for the digits typed. */
  lemma EditInterimReplaces(pt: Option<PaymentTerms>, idx: int, input: string)
    requires HasInterims(pt) && Clean(pt) && 0 <= idx < |InterimsOf(pt)|
    ensures var before := PaymentSum(pt);
      var after := PaymentSum(Some(EditInterim(pt, idx, input)));
      before.Some? && after.Some? &&
      after.value + DigitsValue(InterimsOf(pt)[idx]) == before.value + DigitsValue(DigitsOnly(input))
  {
    CleanParts(pt);
    var adv, xs, bal := pt.value.advance, InterimsOf(pt), pt.value.balance;
    var ys := EditInterim(pt, idx, input).interims.value;
    assert EditInterim(pt, idx, input) == Structured(adv, Some(ys), bal);
    EditsKeepClean(pt, idx, input);
    assert forall k :: 0 <= k < |ys| ==> AllDigits(ys[k]);
    assert ys[..idx] == xs[..idx] && ys[idx + 1..] == xs[idx + 1..] && ys[idx] == DigitsOnly(input);
    ReplaceSum(xs, ys, idx);
    PaymentSumOf(adv, xs, bal);
    PaymentSumOf(adv, ys, bal);
  }

  // ----------------------------------------------------------- the summary

  const Won: char := '원'

  /** `${prefix}: ${Number(v).toLocaleString()}원`. */
  function Labelled(prefix: string, v: string): (r: string)
    ensures |r| > 0 && r[|r| - 1] == Won
  {
    prefix + ": " + LocaleString(NumberOf(v)) + [Won]
  }

  function AdvancePart(advance: string): string {
    if advance != "" then Labelled("선금", advance) else ""
  }

  function BalancePart(balance: string): string {
    if balance != "" then Labelled("잔금", balance) else ""
  }

  /** Interim `i` is labelled by its position counted from one; an empty entry gives an empty piece. */
  function InterimLabel(i: nat, v: string): string {
    if v != "" then Labelled("중도금" + NatToString(i + 1), v) else ""
  }

  function InterimLabels(xs: seq<string>): (r: seq<string>)
    ensures |r| == |xs|
    ensures forall i :: 0 <= i < |xs| ==> r[i] == InterimLabel(i, xs[i])
  {
    seq(|xs|, i requires 0 <= i < |xs| => InterimLabel(i, xs[i]))
  }

  /** `filter(Boolean)` on strings: the non-empty pieces, in order. */
  function Kept(pieces: seq<string>): seq<string>
    decreases |pieces|
  {
    if pieces == [] then []
    else (if pieces[0] != "" then [pieces[0]] else []) + Kept(pieces[1..])
  }

  /** The interims block as written: the pieces of empty entries are joined too. */
  function InterimsPartAsWritten(interims: Option<seq<string>>): string {
    if interims.Some? && |interims.value| > 0 then Join(InterimLabels(interims.value), ", ") else ""
  }

  /** The interims block with the pieces of empty entries dropped before joining. */
  function InterimsPart(interims: Option<seq<string>>): string {
    if interims.Some? && |interims.value| > 0 then Join(Kept(InterimLabels(interims.value)), ", ") else ""
  }

  /** `[adv, ints, bal].filter(Boolean).join(', ')`. */
  function JoinPieces(a: string, m: string, b: string): string {
    Join(Kept([a, m, b]), ", ")
  }

  /** The three blocks of a summary over a given interims block. */
  function JoinParts(advance: string, interimsPart: string, balance: string): string {
    JoinPieces(AdvancePart(advance), interimsPart, BalancePart(balance))
  }

  function StructuredSummaryAsWritten(advance: string, interims: Option<seq<string>>, balance: string): string {
    JoinParts(advance, InterimsPartAsWritten(interims), balance)
  }

  function StructuredSummary(advance: string, interims: Option<seq<string>>, balance: string): string {
    JoinParts(advance, InterimsPart(interims), balance)
  }

  /** Every interim in the list has an amount. */
  predicate Filled(interims: Option<seq<string>>) {
    forall i :: 0 <= i < |interims.GetOr([])| ==> interims.GetOr([])[i] != ""
  }

  /**
   * The quotation's "지급 조건" line: '-' when absent or empty, a plain text
   * as it is, a structured value summarised as written; with every interim
   * filled in, that summary is the corrected one.
   */
  function QuotationTermsSummary(pt: Option<PaymentTerms>): (r: string)
    ensures pt.None? || pt == Some(Plain("")) ==> r == "-"
    ensures pt.Some? && pt.value.Plain? && pt.value.text != "" ==> r == pt.value.text
    ensures pt.Some? && pt.value.Structured? ==>
      r == StructuredSummaryAsWritten(pt.value.advance, pt.value.interims, pt.value.balance)
    ensures pt.Some? && pt.value.Structured? && Filled(pt.value.interims) ==>
      r == StructuredSummary(pt.value.advance, pt.value.interims, pt.value.balance) && (r == "" || r[|r| - 1] == Won)
  {
    match pt
    case None => "-"
    case Some(Plain(t)) => if t == "" then "-" else t
    case Some(Structured(a, i, b)) =>
      if Filled(i) then
        FilledSummaryAgrees(a, i, b);
        StructuredSummaryShape(a, i, b);
        StructuredSummaryAsWritten(a, i, b)
      else
        StructuredSummaryAsWritten(a, i, b)
  }

  /** The contract's read-only line: as for quotations, except that a structured value without an interims list shows '-'. */
  function ContractTermsSummary(pt: Option<PaymentTerms>): (r: string)
    ensures pt.None? || pt == Some(Plain("")) ==> r == "-"
    ensures pt.Some? && pt.value.Structured? && pt.value.interims.None? ==> r == "-"
    ensures pt.Some? && pt.value.Structured? && pt.value.interims.Some? ==> r == QuotationTermsSummary(pt)
  {
    match pt
    case None => "-"
    case Some(Plain(t)) => if t == "" then "-" else t
    case Some(Structured(a, i, b)) => if i.Some? then StructuredSummaryAsWritten(a, i, b) else "-"
  }

  /** A list of non-empty pieces is kept whole. */
  lemma {:induction false} KeptAllNonEmpty(pieces: seq<string>)
    requires forall i :: 0 <= i < |pieces| ==> pieces[i] != ""
    ensures Kept(pieces) == pieces
    decreases |pieces|
  {
    if pieces != [] {
      assert forall i :: 0 <= i < |pieces[1..]| ==> pieces[1..][i] == pieces[i + 1];
      KeptAllNonEmpty(pieces[1..]);
      assert pieces == [pieces[0]] + pieces[1..];
    }
  }

  /** With every interim filled in, the summary as written and the corrected summary coincide. */
  lemma FilledSummaryAgrees(advance: string, interims: Option<seq<string>>, balance: string)
    requires Filled(interims)
    ensures StructuredSummaryAsWritten(advance, interims, balance) == StructuredSummary(advance, interims, balance)
  {
    if interims.Some? && |interims.value| > 0 {
      var xs := interims.value;
      var labels := InterimLabels(xs);
      InterimLabelsShape(xs);
      assert forall i :: 0 <= i < |xs| ==> xs[i] != "" by {
        assert interims.GetOr([]) == xs;
      }
      KeptAllNonEmpty(labels);
    }
  }

  /** Joining non-empty pieces that each end in `c` gives a text that is empty exactly when there are no pieces, and ends in `c` otherwise. */
  lemma {:induction false} JoinEndsWith(parts: seq<string>, sep: string, c: char)
    requires forall i :: 0 <= i < |parts| ==> |parts[i]| > 0 && parts[i][|parts[i]| - 1] == c
    ensures Join(parts, sep) == "" <==> parts == []
    ensures parts != [] ==> |Join(parts, sep)| > 0 && Join(parts, sep)[|Join(parts, sep)| - 1] == c
    decreases |parts|
  {
    if |parts| > 1 {
      JoinEndsWith(parts[1..], sep, c);
      var rest := Join(parts[1..], sep);
      assert Join(parts, sep) == (parts[0] + sep) + rest;
    }
  }

  /** Each piece is empty or ends in '원'. */
  predicate PiecesEndInWon(pieces: seq<string>) {
    forall i :: 0 <= i < |pieces| ==> pieces[i] == "" || pieces[i][|pieces[i]| - 1] == Won
  }

  /** The kept pieces are the non-empty ones, so each ends in '원'. */
  lemma {:induction false} KeptEndInWon(pieces: seq<string>)
    requires PiecesEndInWon(pieces)
    ensures forall i :: 0 <= i < |Kept(pieces)| ==> |Kept(pieces)[i]| > 0 && Kept(pieces)[i][|Kept(pieces)[i]| - 1] == Won
    decreases |pieces|
  {
    if pieces != [] {
      var rest := pieces[1..];
      assert PiecesEndInWon(rest) by {
        forall i | 0 <= i < |rest|
          ensures rest[i] == "" || rest[i][|rest[i]| - 1] == Won
        {
          assert rest[i] == pieces[i + 1];
        }
      }
      KeptEndInWon(rest);
      var head := if pieces[0] != "" then [pieces[0]] else [];
      assert Kept(pieces) == head + Kept(rest);
    }
  }

  /** Nothing is kept exactly when every piece is empty. */
  lemma {:induction false} KeptEmptyIff(pieces: seq<string>)
    ensures Kept(pieces) == [] <==> forall i :: 0 <= i < |pieces| ==> pieces[i] == ""
    decreases |pieces|
  {
    if pieces != [] {
      var rest := pieces[1..];
      KeptEmptyIff(rest);
      if Kept(pieces) == [] {
        assert pieces[0] == "" && Kept(rest) == [];
        forall i | 0 <= i < |pieces|
          ensures pieces[i] == ""
        {
          if i > 0 {
            assert pieces[i] == rest[i - 1];
          }
        }
      } else if pieces[0] == "" {
        assert Kept(rest) != [];
        var j :| 0 <= j < |rest| && rest[j] != "";
        assert pieces[j + 1] != "";
      }
    }
  }

  /**
   * Joining the non-empty pieces, each ending in '원', gives a text that is
   * empty exactly when every piece is, and ends in '원' otherwise.
   */
  lemma KeptShape(pieces: seq<string>)
    requires PiecesEndInWon(pieces)
    ensures var s := Join(Kept(pieces), ", ");
      (s == "" <==> forall i :: 0 <= i < |pieces| ==> pieces[i] == "") &&
      (s != "" ==> s[|s| - 1] == Won)
  {
    KeptEndInWon(pieces);
    KeptEmptyIff(pieces);
    JoinEndsWith(Kept(pieces), ", ", Won);
  }

  /** The piece of interim `i` is empty exactly when its amount is, and ends in '원' otherwise. */
  lemma InterimLabelsShape(xs: seq<string>)
    ensures PiecesEndInWon(InterimLabels(xs))
    ensures forall i :: 0 <= i < |xs| ==> (InterimLabels(xs)[i] == "" <==> xs[i] == "")
  {
  }

  /**
   * The interims block lists the entered interims only: it is empty
   * exactly when no interim has an amount, and otherwise ends with the
   * last entered amount's '원', never with a separator.
   */
  lemma InterimsPartShape(interims: Option<seq<string>>)
    ensures InterimsPart(interims) == "" <==>
      forall i :: 0 <= i < |interims.GetOr([])| ==> interims.GetOr([])[i] == ""
    ensures InterimsPart(interims) != "" ==> InterimsPart(interims)[|InterimsPart(interims)| - 1] == Won
  {
    var xs := interims.GetOr([]);
    if interims.Some? && |interims.value| > 0 {
      var labels := InterimLabels(xs);
      assert InterimsPart(interims) == Join(Kept(labels), ", ");
      InterimLabelsShape(xs);
      KeptShape(labels);
      assert (forall i :: 0 <= i < |labels| ==> labels[i] == "") <==> (forall i :: 0 <= i < |xs| ==> xs[i] == "");
    } else {
      assert xs == [] && InterimsPart(interims) == "";
    }
  }

  /** Which of three pieces `filter(Boolean)` keeps. */
  lemma KeptThree(a: string, b: string, c: string)
    ensures Kept([a, b, c]) ==
      (if a != "" then [a] else []) + (if b != "" then [b] else []) + (if c != "" then [c] else [])
  {
    assert [c][1..] == [];
    assert Kept([c]) == (if c != "" then [c] else []) + Kept([]);
    assert [b, c][1..] == [c];
    assert Kept([b, c]) == (if b != "" then [b] else []) + Kept([c]);
    assert [a, b, c][1..] == [b, c];
    assert Kept([a, b, c]) == (if a != "" then [a] else []) + Kept([b, c]);
  }

  /** Three blocks, each empty or ending in '원', join to a text that is empty exactly when all three are, and ends in '원' otherwise. */
  lemma JoinPiecesShape(a: string, m: string, b: string)
    requires a == "" || a[|a| - 1] == Won
    requires m == "" || m[|m| - 1] == Won
    requires b == "" || b[|b| - 1] == Won
    ensures var s := JoinPieces(a, m, b);
      (s == "" <==> a == "" && m == "" && b == "") && (s != "" ==> s[|s| - 1] == Won)
  {
    var pieces := [a, m, b];
    assert PiecesEndInWon(pieces) by {
      assert pieces[0] == a && pieces[1] == m && pieces[2] == b;
    }
    KeptShape(pieces);
    assert (forall i :: 0 <= i < |pieces| ==> pieces[i] == "") <==> a == "" && m == "" && b == "" by {
      assert pieces[0] == a && pieces[1] == m && pieces[2] == b;
    }
  }

  /** A non-empty first block opens the joined text. */
  lemma JoinPiecesHead(a: string, m: string, b: string)
    requires a != ""
    ensures |JoinPieces(a, m, b)| >= |a| && JoinPieces(a, m, b)[..|a|] == a
  {
    KeptThree(a, m, b);
    JoinHead(Kept([a, m, b]), ", ");
  }

  /** The advance block is empty exactly when its amount is, and ends in '원' otherwise. */
  lemma AdvancePartShape(advance: string)
    ensures var a := AdvancePart(advance);
      (a == "" <==> advance == "") && (a == "" || a[|a| - 1] == Won)
  {
  }

  /** The balance block is empty exactly when its amount is, and ends in '원' otherwise. */
  lemma BalancePartShape(balance: string)
    ensures var b := BalancePart(balance);
      (b == "" <==> balance == "") && (b == "" || b[|b| - 1] == Won)
  {
  }

  /** A summary of a structured value is empty or ends with '원', never with a separator. */
  lemma StructuredSummaryShape(advance: string, interims: Option<seq<string>>, balance: string)
    ensures var s := StructuredSummary(advance, interims, balance);
      s == "" || s[|s| - 1] == Won
    ensures StructuredSummary(advance, interims, balance) == "" <==>
      advance == "" && balance == "" && forall i :: 0 <= i < |interims.GetOr([])| ==> interims.GetOr([])[i] == ""
  {
    var a, m, b := AdvancePart(advance), InterimsPart(interims), BalancePart(balance);
    assert StructuredSummary(advance, interims, balance) == JoinPieces(a, m, b);
    AdvancePartShape(advance);
    BalancePartShape(balance);
    InterimsPartShape(interims);
    JoinPiecesShape(a, m, b);
  }

  /** The advance comes first: an entered advance opens the summary. */
  lemma AdvanceComesFirst(advance: string, interims: Option<seq<string>>, balance: string)
    requires advance != ""
    ensures var s := StructuredSummary(advance, interims, balance);
      var head := AdvancePart(advance);
      |s| >= |head| && s[..|head|] == head
  {
    JoinPiecesHead(AdvancePart(advance), InterimsPart(interims), BalancePart(balance));
  }

  lemma JoinHead(parts: seq<string>, sep: string)
    requires parts != []
    ensures |Join(parts, sep)| >= |parts[0]| && Join(parts, sep)[..|parts[0]|] == parts[0]
  {
    if |parts| > 1 {
      assert Join(parts, sep) == parts[0] + (sep + Join(parts[1..], sep));
    }
  }

  /** With no advance and no balance, the summary is the interims block alone. */
  lemma JoinPiecesMiddle(m: string)
    ensures JoinPieces("", m, "") == m
  {
    KeptThree("", m, "");
  }

  /** An amount of 100 is printed as "100". */
  lemma PrintedHundred()
    ensures NumberOf("100") == Some(100) && LocaleString(Some(100)) == "100"
  {
    assert NatToString(100) == "100" by {
      assert NatToString(10) == "10";
    }
    NatToStringRoundTrip(100);
    GroupFromTheRight("100");
  }

  /** The first interim, of 100, is labelled "중도금1: 100원". */
  lemma FirstInterimOfHundred()
    ensures InterimLabel(0, "100") == "중도금1: 100원"
  {
    FirstInterimName();
    assert InterimLabel(0, "100") == Labelled("중도금" + NatToString(1), "100");
    HundredLabelled("중도금1");
    FirstInterimText();
  }

  /** The first interim is called "중도금1". */
  lemma FirstInterimName()
    ensures "중도금" + NatToString(1) == "중도금1"
  {
    assert NatToString(1) == "1";
  }

  lemma FirstInterimText()
    ensures "중도금1" + ": " + "100" + [Won] == "중도금1: 100원"
  {
  }

  /** An amount of 100 under any label reads "label: 100원". */
  lemma HundredLabelled(prefix: string)
    ensures Labelled(prefix, "100") == prefix + ": " + "100" + [Won]
  {
    PrintedHundred();
  }

  /**
   * One interim of 100 and a second one not yet filled in: the summary as
   * written ends with a dangling ", ", while the corrected one ends with
   * the amount.
   */
  lemma EmptyInterimLeavesSeparator()
    ensures StructuredSummaryAsWritten("", Some(["100", ""]), "") == "중도금1: 100원, "
    ensures StructuredSummary("", Some(["100", ""]), "") == "중도금1: 100원"
  {
    var piece := "중도금1: 100원";
    ExampleInterimBlockAsWritten();
    ExampleInterimBlock();
    assert AdvancePart("") == "" && BalancePart("") == "";
    JoinPiecesMiddle(piece + ", ");
    JoinPiecesMiddle(piece);
  }

  lemma ExampleLabels()
    ensures InterimLabels(["100", ""]) == ["중도금1: 100원", ""]
  {
    FirstInterimOfHundred();
  }

  lemma ExampleInterimBlockAsWritten()
    ensures InterimsPartAsWritten(Some(["100", ""])) == "중도금1: 100원, "
  {
    ExampleLabels();
    var labels := ["중도금1: 100원", ""];
    assert labels[1..] == [""];
  }

  lemma ExampleInterimBlock()
    ensures InterimsPart(Some(["100", ""])) == "중도금1: 100원"
  {
    ExampleLabels();
    var labels := ["중도금1: 100원", ""];
    assert labels[1..] == [""] && labels[1..][1..] == [];
    assert Kept(labels) == ["중도금1: 100원"];
  }


  // -------------------------------------------------------- invoice date

  const PendingLabel: string := "(계약체결일 입력 시 자동 계산)"

  /**
   * "세금계산서 발행 예정일": thirty days after the signing date, as
   * `toISOString().slice(0, 10)`; a placeholder while no date is entered;
   * `None` for the `RangeError` a date that does not parse raises.
   */
  function InvoiceDateLabel(signing: string): (r: Option<string>)
    ensures signing == "" ==> r == Some(PendingLabel)
    ensures signing != "" ==> (r.None? <==> ParseInstant(signing).None?)
  {
    if signing == "" then Some(PendingLabel)
    else match ParseInstant(signing)
      case None => None
      case Some(t) => Some(IsoDate(AddDays(t, 30)))
  }

  /** The date the form announces is the one the dashboard and the calendar treat as the planned invoice. */
  lemma InvoiceLabelMatchesDashboard(ct: Contract)
    requires IsValidDate(ct.contractSigningDate)
    ensures InvoiceDateLabel(ct.contractSigningDate.value) == Some(InvoiceDateText(ct))
  {
  }

  lemma FourDigitYear()
    ensures NatToString(2024) == "2024" && DigitsValue("2024") == 2024
  {
    assert NatToString(2) == "2";
    assert NatToString(20) == "20";
    assert NatToString(202) == "202";
    NatToStringRoundTrip(2024);
  }

  lemma TwoDigits(s: string, n: nat)
    requires |s| == 2 && IsDigit(s[0]) && IsDigit(s[1]) && n == DigitValue(s[0]) * 10 + DigitValue(s[1])
    ensures AllDigits(s) && DigitsValue(s) == n
  {
    assert s[..1][..0] == [] && s[..1][0] == s[0];
    assert DigitsValue(s[..1]) == DigitValue(s[0]);
  }

  lemma PadTwo(n: nat)
    requires n < 100
    ensures Pad(n, 2) == [DigitChar(n / 10), DigitChar(n % 10)]
  {
    if n < 10 {
      assert NatToString(n) == [DigitChar(n)];
    } else {
      assert NatToString(n / 10) == [DigitChar(n / 10)];
    }
  }

  lemma ParseNewYear()
    ensures ParseInstant("2024-01-01") == Some(19723 * MsPerDay)
  {
    FourDigitYear();
    TwoDigits("01", 1);
    assert "2024" + "-" + "01" + "-" + "01" == "2024-01-01";
    ParseCalendarDate("2024", "01", "01");
    DayOfNewYear();
  }

  lemma ParseLeapFebruary()
    ensures ParseInstant("2024-02-15") == Some(19768 * MsPerDay)
  {
    FourDigitYear();
    TwoDigits("02", 2);
    TwoDigits("15", 15);
    assert "2024" + "-" + "02" + "-" + "15" == "2024-02-15";
    assert DaysInMonth(2024, 2) == 29;
    ParseCalendarDate("2024", "02", "15");
    DayOfFebruary15();
  }

  lemma DayOfNewYear()
    ensures DaysFromCivil(2024, 1, 1) == 19723
  {
    assert 2023 / 400 == 5 && (1 + 9) % 12 == 10;
    assert (153 * 10 + 2) / 5 == 306;
    assert 23 / 4 == 5 && 23 / 100 == 0;
  }

  lemma DayOfFebruary15()
    ensures DaysFromCivil(2024, 2, 15) == 19768
  {
    assert 2023 / 400 == 5 && (2 + 9) % 12 == 11;
    assert (153 * 11 + 2) / 5 == 337;
    assert 23 / 4 == 5 && 23 / 100 == 0;
  }

  /** Day 19753 after the epoch is 2024-01-31. */
  lemma CivilJanuary31()
    ensures CivilFromDays(19753) == (2024, 1, 31)
  {
    assert 739221 / 146097 == 5;
    assert 8736 / 1460 == 5 && 8736 / 36524 == 0 && 8736 / 146096 == 0;
    assert 8731 / 365 == 23;
    assert 23 / 4 == 5 && 23 / 100 == 0;
    assert 1682 / 153 == 10;
    assert 1532 / 5 == 306;
  }

  /** Day 19798 after the epoch is 2024-03-16. */
  lemma CivilMarch16()
    ensures CivilFromDays(19798) == (2024, 3, 16)
  {
    assert 739266 / 146097 == 5;
    assert 8781 / 1460 == 6 && 8781 / 36524 == 0 && 8781 / 146096 == 0;
    assert 8775 / 365 == 24;
    assert 24 / 4 == 6 && 24 / 100 == 0;
    assert 5 * 15 + 2 == 77 && 77 / 153 == 0;
    assert 2 / 5 == 0;
  }

  lemma IsoJanuary31()
    ensures IsoDate(19753 * MsPerDay) == "2024-01-31"
  {
    assert (19753 * MsPerDay) / MsPerDay == 19753;
    CivilJanuary31();
    FourDigitYear();
    PadTwo(1);
    PadTwo(31);
  }

  lemma IsoMarch16()
    ensures IsoDate(19798 * MsPerDay) == "2024-03-16"
  {
    assert (19798 * MsPerDay) / MsPerDay == 19798;
    CivilMarch16();
    FourDigitYear();
    PadTwo(3);
    PadTwo(16);
  }

  /** Signing on 2024-01-01 puts the invoice on 2024-01-31. */
  lemma InvoiceAfterNewYear()
    ensures InvoiceDateLabel("2024-01-01") == Some("2024-01-31")
  {
    ParseNewYear();
    assert AddDays(19723 * MsPerDay, 30) == 19753 * MsPerDay;
    IsoJanuary31();
  }

  /** Signing on 2024-02-15 of the leap year puts the invoice on 2024-03-16, February having 29 days. */
  lemma InvoiceAcrossLeapDay()
    ensures InvoiceDateLabel("2024-02-15") == Some("2024-03-16")
  {
    ParseLeapFebruary();
    assert AddDays(19768 * MsPerDay, 30) == 19798 * MsPerDay;
    IsoMarch16();
  }
}
