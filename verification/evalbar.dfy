/**
 * The evaluation bar: how a score (centipawns from White's side, or null)
 * and a forced-mate count become the White share of the bar and its label.
 * The smooth tanh curve and the `toFixed` pawn text are floating-point
 * code and stay symbolic: `Curve(cp)` stands for `50 + 50 * tanh(cp / 400)`
 * and the pawn text arrives as a parameter.
 */
module EvalBar {
  import opened Common
  import JsString

  /** A share of the bar in percent: an exact figure, or the tanh curve at a centipawn score. */
  datatype Share = Exact(percent: int) | Curve(cp: int)

  /** The bar's state: White's share and the label under it. */
  datatype Bar = Bar(white: Share, caption: string)

  /** `abs >= 100 ? toFixed(1) : toFixed(2)` of `abs / 100`, which stays floating-point. */
  type PawnText = nat -> string

  /**
   * The memoised branch logic: null score gives an even bar and "=";
   * a mate count gives 97 or 3 and "M" with the count's size; otherwise
   * the curve and a signed pawn figure, with "0.00" for exactly zero.
   */
  function Evaluate(score: Option<int>, mateIn: Option<int>, pawns: PawnText): (b: Bar)
    ensures |b.caption| > 0 && b.caption[0] in "=M0+-"
    ensures score.None? ==> b == Bar(Exact(50), "=")
    ensures score.Some? && mateIn.Some? ==>
      && b.white == Exact(if mateIn.value > 0 then 97 else 3)
      && b.caption == "M" + JsString.NatToString(if mateIn.value < 0 then -mateIn.value else mateIn.value)
    ensures score.Some? && mateIn.None? ==> b.white == Curve(score.value)
    ensures score == Some(0) && mateIn.None? ==> b.caption == "0.00"
    ensures score.Some? && score.value > 0 && mateIn.None? ==> b.caption == "+" + pawns(score.value)
    ensures score.Some? && score.value < 0 && mateIn.None? ==> b.caption == "-" + pawns(-score.value)
  {
    match score
    case None => Bar(Exact(50), "=")
    case Some(cp) =>
      match mateIn
      case Some(n) =>
        Bar(Exact(if n > 0 then 97 else 3), "M" + JsString.NatToString(if n < 0 then -n else n))
      case None =>
        var abs := if cp < 0 then -cp else cp;
        var sign := if cp > 0 then "+" else if cp < 0 then "-" else "";
        Bar(Curve(cp), if cp == 0 then "0.00" else sign + pawns(abs))
  }

  /** `100 - whitePercent`; for the curve this is the curve at the negated score, since tanh is odd. */
  function BlackShare(w: Share): (b: Share)
    ensures w.Exact? ==> b == Exact(100 - w.percent)
    ensures w.Curve? ==> b == Curve(-w.cp)
  {
    match w
    case Exact(p) => Exact(100 - p)
    case Curve(cp) => Curve(-cp)
  }

  /** Taking the other side's share twice gives the original share back. */
  lemma BlackShareInvolutive(w: Share)
    ensures BlackShare(BlackShare(w)) == w
  {
  }

  /** The label's first character tells the sign of a non-mate score. */
  lemma SignPrefixMatchesScore(cp: int, pawns: PawnText)
    requires cp != 0
    ensures var l := Evaluate(Some(cp), None, pawns).caption;
      (l[0] == '+' <==> cp > 0) && (l[0] == '-' <==> cp < 0)
  {
  }

  /** Mate shares stay near the ends and the two halves of the bar always add up to 100. */
  lemma MateShareBounds(cp: int, n: int, pawns: PawnText)
    ensures var w := Evaluate(Some(cp), Some(n), pawns).white;
      w.Exact? && (w.percent == 97 <==> n > 0) && w.percent + BlackShare(w).percent == 100
  {
  }

  /** The mate label reads back as the size of the count. */
  lemma MateLabelShowsCount(cp: int, n: int, pawns: PawnText)
    ensures var l := Evaluate(Some(cp), Some(n), pawns).caption;
      l[0] == 'M' && JsString.ParseDigits(l[1..]) == (if n < 0 then -n else n)
  {
    var size := if n < 0 then -n else n;
    JsString.ParseNatToString(size);
    assert Evaluate(Some(cp), Some(n), pawns).caption[1..] == JsString.NatToString(size);
  }

  /** The text under the bar: "..." while analysing with no score yet, otherwise the label. */
  function DisplayText(thinking: bool, score: Option<int>, mateIn: Option<int>, pawns: PawnText): (t: string)
    ensures t == "..." <==> thinking && score.None?
    ensures !(thinking && score.None?) ==> t == Evaluate(score, mateIn, pawns).caption
  {
    if thinking && score.None? then "..." else Evaluate(score, mateIn, pawns).caption
  }
}
