/**
 * The captured-pieces strip: pieces of each type and colour are counted on
 * the board (kings excluded), the shortfall against the starting army is
 * listed queen-first, and a weighted material balance decides which of the
 * two strips shows a "+n" label.
 */
module Captured {
  import opened Common
  import opened Chess
  import JsString

  /** The piece types that are counted and listed: every type but the king. */
  type Counted = k: Kind | k != King witness Pawn

  /** `PIECE_VALUES`. */
  function Value(k: Kind): (v: nat)
    ensures v == 0 <==> k == King
    ensures v <= 9
  {
    match k
    case Pawn => 1
    case Knight => 3
    case Bishop => 3
    case Rook => 5
    case Queen => 9
    case King => 0
  }

  /** `STARTING`: how many of each counted type one side begins with. */
  function Starting(k: Counted): (n: nat)
    ensures 1 <= n <= 8
    ensures n == 1 <==> k == Queen
  {
    match k
    case Pawn => 8
    case Knight => 2
    case Bishop => 2
    case Rook => 2
    case Queen => 1
  }

  /** `PIECE_ORDER`: the order in which captured pieces are listed. */
  const PieceOrder: seq<Counted> := [Queen, Rook, Bishop, Knight, Pawn]

  /** Position of a type in `PieceOrder`. */
  function Rank(k: Counted): nat {
    match k
    case Queen => 0
    case Rook => 1
    case Bishop => 2
    case Knight => 3
    case Pawn => 4
  }

  /**
   * `PIECE_ORDER` lists each counted type exactly once, at its rank, and
   * from the most valuable to the least.
   */
  lemma PieceOrderByValue()
    ensures |PieceOrder| == 5
    ensures forall k: Counted :: PieceOrder[Rank(k)] == k
    ensures forall i, j :: 0 <= i < j < |PieceOrder| ==> PieceOrder[i] != PieceOrder[j]
    ensures forall i, j :: 0 <= i < j < |PieceOrder| ==> Value(PieceOrder[i]) >= Value(PieceOrder[j])
  {
  }

  /** One colour's counts on the board, per counted type. */
  datatype Tally = Tally(pawns: nat, knights: nat, bishops: nat, rooks: nat, queens: nat) {
    function Get(k: Counted): nat {
      match k
      case Pawn => pawns
      case Knight => knights
      case Bishop => bishops
      case Rook => rooks
      case Queen => queens
    }

    function Bump(k: Counted): (t: Tally)
      ensures t.Get(k) == Get(k) + 1
      ensures forall j: Counted :: j != k ==> t.Get(j) == Get(j)
    {
      match k
      case Pawn => this.(pawns := pawns + 1)
      case Knight => this.(knights := knights + 1)
      case Bishop => this.(bishops := bishops + 1)
      case Rook => this.(rooks := rooks + 1)
      case Queen => this.(queens := queens + 1)
    }
  }

  const Empty := Tally(0, 0, 0, 0, 0)

  /** The squares of the board, rank by rank. */
  function Squares(board: Board): seq<Option<Piece>>
    decreases |board|
  {
    if board == [] then [] else board[0] + Squares(board[1..])
  }

  /**
   * The counting loop of `computeCaptured` for one colour: every square
   * holding a non-king piece of colour `c` adds one to its type.
   */
  function CountColor(squares: seq<Option<Piece>>, c: Color): (t: Tally)
    ensures forall k: Counted :: t.Get(k) == multiset(squares)[Some(Piece(c, k))]
    decreases |squares|
  {
    if squares == [] then Empty
    else
      var rest := CountColor(squares[..|squares| - 1], c);
      assert squares == squares[..|squares| - 1] + [squares[|squares| - 1]];
      match squares[|squares| - 1]
      case Some(p) => if p.color == c && p.kind != King then rest.Bump(p.kind) else rest
      case None => rest
  }

  /** `STARTING[type] - onBoard[type]`: may be negative after a promotion. */
  function Missing(t: Tally, k: Counted): int {
    Starting(k) - t.Get(k)
  }

  /** `n` copies of `k`; none when `n` is not positive, as the `for` loop gives. */
  function Repeat(k: Counted, n: int): (r: seq<Counted>)
    ensures |r| == Max(0, n)
    ensures forall i :: 0 <= i < |r| ==> r[i] == k
    decreases Max(0, n)
  {
    if n <= 0 then [] else Repeat(k, n - 1) + [k]
  }

  /** The list of missing pieces of a colour with tally `t`, type by type in `order`. */
  function Listing(t: Tally, order: seq<Counted>): seq<Counted>
    decreases |order|
  {
    if order == [] then []
    else Listing(t, order[..|order| - 1]) + Repeat(order[|order| - 1], Missing(t, order[|order| - 1]))
  }

  /** `materialAdvantage` accumulated over `order`: positive means White is ahead. */
  function Balance(white: Tally, black: Tally, order: seq<Counted>): int
    decreases |order|
  {
    if order == [] then 0
    else
      var k := order[|order| - 1];
      Balance(white, black, order[..|order| - 1]) + (Missing(black, k) - Missing(white, k)) * Value(k)
  }

  /**
   * `computeCaptured`: pieces captured by White (Black's missing pieces),
   * pieces captured by Black (White's missing pieces), and the material
   * balance, from the board of the position.
   */
  method ComputeCaptured(board: Board) returns (byWhite: seq<Counted>, byBlack: seq<Counted>, advantage: int)
    ensures byWhite == Listing(CountColor(Squares(board), Black), PieceOrder)
    ensures byBlack == Listing(CountColor(Squares(board), White), PieceOrder)
    ensures advantage == Balance(CountColor(Squares(board), White), CountColor(Squares(board), Black), PieceOrder)
  {
    var white := CountColor(Squares(board), White);
    var black := CountColor(Squares(board), Black);
    byWhite, byBlack, advantage := CapturedFrom(white, black);
  }

  /** The loop over `PIECE_ORDER` of `computeCaptured`, given the two tallies. */
  method CapturedFrom(white: Tally, black: Tally) returns (byWhite: seq<Counted>, byBlack: seq<Counted>, advantage: int)
    ensures byWhite == Listing(black, PieceOrder)
    ensures byBlack == Listing(white, PieceOrder)
    ensures advantage == Balance(white, black, PieceOrder)
  {
    byWhite := [];
    byBlack := [];
    advantage := 0;
    var t := 0;
    while t < |PieceOrder|
      invariant 0 <= t <= |PieceOrder|
      invariant byWhite == Listing(black, PieceOrder[..t])
      invariant byBlack == Listing(white, PieceOrder[..t])
      invariant advantage == Balance(white, black, PieceOrder[..t])
    {
      var kind := PieceOrder[t];
      ListingStep(black, PieceOrder, t);
      ListingStep(white, PieceOrder, t);
      BalanceStep(white, black, PieceOrder, t);
      byWhite := PushCopies(byWhite, kind, Starting(kind) - black.Get(kind));
      byBlack := PushCopies(byBlack, kind, Starting(kind) - white.Get(kind));
      advantage := advantage + ((Starting(kind) - black.Get(kind)) - (Starting(kind) - white.Get(kind))) * Value(kind);
      t := t + 1;
    }
    assert PieceOrder[..|PieceOrder|] == PieceOrder;
  }

  /** `for (let i = 0; i < n; i++) list.push(kind)`. */
  method PushCopies(list: seq<Counted>, kind: Counted, n: int) returns (r: seq<Counted>)
    ensures r == list + Repeat(kind, n)
  {
    r := list;
    var i := 0;
    while i < n
      invariant 0 <= i <= Max(0, n)
      invariant r == list + Repeat(kind, i)
    {
      r := r + [kind];
      i := i + 1;
    }
    assert Repeat(kind, i) == Repeat(kind, n);
  }

  /** Extending the order by one type appends that type's copies. */
  lemma ListingStep(t: Tally, order: seq<Counted>, i: nat)
    requires i < |order|
    ensures Listing(t, order[..i + 1]) == Listing(t, order[..i]) + Repeat(order[i], Missing(t, order[i]))
  {
    assert order[..i + 1][..i] == order[..i];
  }

  /** Extending the order by one type adds that type's weighted difference. */
  lemma BalanceStep(white: Tally, black: Tally, order: seq<Counted>, i: nat)
    requires i < |order|
    ensures Balance(white, black, order[..i + 1])
         == Balance(white, black, order[..i]) + (Missing(black, order[i]) - Missing(white, order[i])) * Value(order[i])
  {
    assert order[..i + 1][..i] == order[..i];
  }

  /** The listing in `PieceOrder`, group by group. */
  lemma ListingUnfolds(t: Tally)
    ensures Listing(t, PieceOrder)
         == Repeat(Queen, Missing(t, Queen)) + Repeat(Rook, Missing(t, Rook)) + Repeat(Bishop, Missing(t, Bishop))
          + Repeat(Knight, Missing(t, Knight)) + Repeat(Pawn, Missing(t, Pawn))
  {
    var p1: seq<Counted> := [Queen];
    var p2: seq<Counted> := [Queen, Rook];
    var p3: seq<Counted> := [Queen, Rook, Bishop];
    var p4: seq<Counted> := [Queen, Rook, Bishop, Knight];
    assert PieceOrder[..4] == p4 && p4[..3] == p3 && p3[..2] == p2 && p2[..1] == p1 && p1[..0] == [];
    assert Listing(t, p1) == Repeat(Queen, Missing(t, Queen));
  }

  /** The balance in `PieceOrder`, type by type. */
  lemma BalanceUnfolds(white: Tally, black: Tally)
    ensures Balance(white, black, PieceOrder)
         == 9 * (Missing(black, Queen) - Missing(white, Queen))
          + 5 * (Missing(black, Rook) - Missing(white, Rook))
          + 3 * (Missing(black, Bishop) - Missing(white, Bishop))
          + 3 * (Missing(black, Knight) - Missing(white, Knight))
          + (Missing(black, Pawn) - Missing(white, Pawn))
  {
    var p1: seq<Counted> := [Queen];
    var p2: seq<Counted> := [Queen, Rook];
    var p3: seq<Counted> := [Queen, Rook, Bishop];
    var p4: seq<Counted> := [Queen, Rook, Bishop, Knight];
    assert PieceOrder[..4] == p4 && p4[..3] == p3 && p3[..2] == p2 && p2[..1] == p1 && p1[..0] == [];
  }

  // ---------------------------------------------------------------------
  // What the lists and the balance mean

  /** The list holds exactly `max(0, missing)` copies of each type. */
  lemma ListingCounts(t: Tally)
    ensures forall k: Counted :: multiset(Listing(t, PieceOrder))[k] == Max(0, Missing(t, k))
  {
    forall k: Counted
      ensures multiset(Listing(t, PieceOrder))[k] == Max(0, Missing(t, k))
    {
      ListingCountOf(t, k);
    }
  }

  lemma ListingCountOf(t: Tally, k: Counted)
    ensures multiset(Listing(t, PieceOrder))[k] == Max(0, Missing(t, k))
  {
    ListingUnfolds(t);
    var l0 := Repeat(Queen, Missing(t, Queen));
    var l1 := Repeat(Rook, Missing(t, Rook));
    var l2 := Repeat(Bishop, Missing(t, Bishop));
    var l3 := Repeat(Knight, Missing(t, Knight));
    var l4 := Repeat(Pawn, Missing(t, Pawn));
    var m0: multiset<Counted>, m1: multiset<Counted>, m2: multiset<Counted> := multiset(l0), multiset(l1), multiset(l2);
    var m3: multiset<Counted>, m4: multiset<Counted> := multiset(l3), multiset(l4);
    assert multiset(Listing(t, PieceOrder)) == m0 + m1 + m2 + m3 + m4;
    GroupCount(Queen, Missing(t, Queen), k);
    GroupCount(Rook, Missing(t, Rook), k);
    GroupCount(Bishop, Missing(t, Bishop), k);
    GroupCount(Knight, Missing(t, Knight), k);
    GroupCount(Pawn, Missing(t, Pawn), k);
  }

  /** How often `j` occurs in a run of copies of `k`. */
  lemma GroupCount(k: Counted, n: int, j: Counted)
    ensures multiset(Repeat(k, n))[j] == if j == k then Max(0, n) else 0
  {
    RepeatMultiset(k, n);
  }

  /** The list is grouped by type, queens first and pawns last. */
  lemma ListingGrouped(t: Tally)
    ensures forall i, j :: 0 <= i < j < |Listing(t, PieceOrder)| ==>
      Rank(Listing(t, PieceOrder)[i]) <= Rank(Listing(t, PieceOrder)[j])
  {
    ListingUnfolds(t);
    var l0 := Repeat(Queen, Missing(t, Queen));
    var l1 := Repeat(Rook, Missing(t, Rook));
    var l2 := Repeat(Bishop, Missing(t, Bishop));
    var l3 := Repeat(Knight, Missing(t, Knight));
    var l4 := Repeat(Pawn, Missing(t, Pawn));
    var l := l0 + l1 + l2 + l3 + l4;
    forall i, j | 0 <= i < j < |l| ensures Rank(l[i]) <= Rank(l[j]) {
      RankOfConcat(l0, l1, l2, l3, l4, i);
      RankOfConcat(l0, l1, l2, l3, l4, j);
    }
  }

  /** Rank of an element of the five concatenated groups: the group it falls in. */
  lemma RankOfConcat(l0: seq<Counted>, l1: seq<Counted>, l2: seq<Counted>, l3: seq<Counted>, l4: seq<Counted>, i: int)
    requires forall x :: 0 <= x < |l0| ==> l0[x] == Queen
    requires forall x :: 0 <= x < |l1| ==> l1[x] == Rook
    requires forall x :: 0 <= x < |l2| ==> l2[x] == Bishop
    requires forall x :: 0 <= x < |l3| ==> l3[x] == Knight
    requires forall x :: 0 <= x < |l4| ==> l4[x] == Pawn
    requires 0 <= i < |l0 + l1 + l2 + l3 + l4|
    ensures var a := |l0|; var b := a + |l1|; var c := b + |l2|; var d := c + |l3|;
      Rank((l0 + l1 + l2 + l3 + l4)[i]) == if i < a then 0 else if i < b then 1 else if i < c then 2 else if i < d then 3 else 4
  {
  }

  lemma {:induction false} RepeatMultiset(k: Counted, n: int)
    ensures multiset(Repeat(k, n))[k] == Max(0, n)
    ensures forall j: Counted :: j != k ==> multiset(Repeat(k, n))[j] == 0
    decreases Max(0, n)
  {
    if n > 0 {
      RepeatMultiset(k, n - 1);
    }
  }

  /** The balance is the weighted difference of the material on the board. */
  lemma BalanceIsMaterialOnBoard(white: Tally, black: Tally)
    ensures Balance(white, black, PieceOrder)
         == 9 * (white.queens - black.queens) + 5 * (white.rooks - black.rooks)
          + 3 * (white.bishops - black.bishops) + 3 * (white.knights - black.knights)
          + (white.pawns - black.pawns)
  {
    BalanceUnfolds(white, black);
  }

  /** Exchanging the colours negates the balance. */
  lemma BalanceAntisymmetric(white: Tally, black: Tally)
    ensures Balance(black, white, PieceOrder) == -Balance(white, black, PieceOrder)
  {
    BalanceIsMaterialOnBoard(white, black);
    BalanceIsMaterialOnBoard(black, white);
  }

  /** The board with every piece handed to the other side. */
  function SwapColors(squares: seq<Option<Piece>>): (r: seq<Option<Piece>>)
    ensures |r| == |squares|
    ensures forall i :: 0 <= i < |r| ==>
      r[i] == (if squares[i].Some? then Some(Piece(Opponent(squares[i].value.color), squares[i].value.kind)) else None)
  {
    seq(|squares|, i requires 0 <= i < |squares| =>
      if squares[i].Some? then Some(Piece(Opponent(squares[i].value.color), squares[i].value.kind)) else None)
  }

  /** Swapping the colours on the board swaps the two tallies. */
  lemma {:induction false} SwapSwapsTallies(squares: seq<Option<Piece>>, c: Color)
    ensures CountColor(SwapColors(squares), c) == CountColor(squares, Opponent(c))
    decreases |squares|
  {
    if squares != [] {
      var init := squares[..|squares| - 1];
      var swapped := SwapColors(squares);
      SwapSwapsTallies(init, c);
      assert swapped[..|swapped| - 1] == SwapColors(init);
      var last := squares[|squares| - 1];
      assert swapped[|swapped| - 1] == if last.Some? then Some(Piece(Opponent(last.value.color), last.value.kind)) else None;
      if last.Some? {
        assert (Opponent(last.value.color) == c) == (last.value.color == Opponent(c));
      }
    }
  }

  /** Swapping the colours swaps the two captured lists and negates the balance. */
  lemma SwapColorsMirrorsResult(squares: seq<Option<Piece>>)
    ensures var w := CountColor(squares, White); var b := CountColor(squares, Black);
      var w' := CountColor(SwapColors(squares), White); var b' := CountColor(SwapColors(squares), Black);
      && Listing(b', PieceOrder) == Listing(w, PieceOrder)
      && Listing(w', PieceOrder) == Listing(b, PieceOrder)
      && Balance(w', b', PieceOrder) == -Balance(w, b, PieceOrder)
  {
    SwapSwapsTallies(squares, White);
    SwapSwapsTallies(squares, Black);
    BalanceAntisymmetric(CountColor(squares, White), CountColor(squares, Black));
  }

  /** The full starting army of one side. */
  const FullArmy := Tally(8, 2, 2, 2, 1)

  /** With both armies complete nothing is listed and the balance is level. */
  lemma FullArmiesShowNothing()
    ensures Listing(FullArmy, PieceOrder) == []
    ensures Balance(FullArmy, FullArmy, PieceOrder) == 0
  {
    ListingUnfolds(FullArmy);
    BalanceUnfolds(FullArmy, FullArmy);
  }

  /**
   * After Black promotes a pawn to a second queen, Black's strip lists
   * nothing (White lost no pieces) while the balance is -8, so the label
   * sits on the strip of the side whose list is empty.
   */
  lemma PromotionWitness()
    ensures Listing(FullArmy, PieceOrder) == []
    ensures Listing(Tally(7, 2, 2, 2, 2), PieceOrder) == [Pawn]
    ensures Balance(FullArmy, Tally(7, 2, 2, 2, 2), PieceOrder) == -8
  {
    ListingUnfolds(FullArmy);
    ListingUnfolds(Tally(7, 2, 2, 2, 2));
    assert Repeat(Pawn, 1) == [Pawn];
    BalanceUnfolds(FullArmy, Tally(7, 2, 2, 2, 2));
  }

  // ---------------------------------------------------------------------
  // The two strips

  /** "top" sits above the board, "bottom" below it. */
  datatype Side = Top | Bottom

  /** `showAdvantage`: "+n" under the board when White is ahead, above it when Black is. */
  function AdvantageLabel(side: Side, advantage: int): (r: Option<string>)
    ensures r.Some? <==> (side == Bottom && advantage > 0) || (side == Top && advantage < 0)
    ensures r.Some? ==> r.value == "+" + JsString.NatToString(if advantage < 0 then -advantage else advantage)
  {
    if side == Bottom && advantage > 0 then Some("+" + JsString.NatToString(advantage))
    else if side == Top && advantage < 0 then Some("+" + JsString.NatToString(-advantage))
    else None
  }

  /** At most one strip carries a label, and a level position shows none. */
  lemma AtMostOneLabel(advantage: int)
    ensures AdvantageLabel(Top, advantage).None? || AdvantageLabel(Bottom, advantage).None?
    ensures advantage == 0 ==> AdvantageLabel(Top, advantage).None? && AdvantageLabel(Bottom, advantage).None?
  {
  }

  /** The label's number is the size of the lead. */
  lemma LabelShowsLead(side: Side, advantage: int)
    requires AdvantageLabel(side, advantage).Some?
    ensures JsString.ParseDigits(AdvantageLabel(side, advantage).value[1..]) == if advantage < 0 then -advantage else advantage
  {
    var n := if advantage < 0 then -advantage else advantage;
    JsString.ParseNatToString(n);
    assert AdvantageLabel(side, advantage).value[1..] == JsString.NatToString(n);
  }

  /** `WHITE_SYMBOLS` and `BLACK_SYMBOLS`. */
  function Symbol(c: Color, k: Counted): (ch: char)
    ensures c == White ==> '♕' <= ch <= '♙'
    ensures c == Black ==> '♛' <= ch <= '♟'
  {
    match (c, k)
    case (White, Queen) => '♕'
    case (White, Rook) => '♖'
    case (White, Bishop) => '♗'
    case (White, Knight) => '♘'
    case (White, Pawn) => '♙'
    case (Black, Queen) => '♛'
    case (Black, Rook) => '♜'
    case (Black, Bishop) => '♝'
    case (Black, Knight) => '♞'
    case (Black, Pawn) => '♟'
  }

  /** Distinct pieces have distinct symbols. */
  lemma SymbolInjective(c1: Color, k1: Counted, c2: Color, k2: Counted)
    ensures Symbol(c1, k1) == Symbol(c2, k2) ==> c1 == c2 && k1 == k2
  {
  }

  /** Each Black glyph sits six code points after the White glyph of the same piece. */
  lemma BlackGlyphFollowsWhite(k: Counted)
    ensures Symbol(Black, k) as int == Symbol(White, k) as int + 6
  {
  }

  /**
   * The glyphs one strip shows: the top strip lists what Black captured,
   * drawn as White pieces; the bottom strip lists what White captured,
   * drawn as Black pieces.
   */
  function StripSymbols(side: Side, byWhite: seq<Counted>, byBlack: seq<Counted>): (r: string)
    ensures side == Top ==> |r| == |byBlack| && forall i :: 0 <= i < |r| ==> r[i] == Symbol(White, byBlack[i])
    ensures side == Bottom ==> |r| == |byWhite| && forall i :: 0 <= i < |r| ==> r[i] == Symbol(Black, byWhite[i])
  {
    var pieces := if side == Top then byBlack else byWhite;
    var color := if side == Top then White else Black;
    seq(|pieces|, i requires 0 <= i < |pieces| => Symbol(color, pieces[i]))
  }
}
