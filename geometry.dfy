/** The rectangle arithmetic of `crop_player_cards_1920_1080`: a 1200x550
    player list centred in the screenshot, tiled by a 3x2 grid of 600x180
    player cards. Pixels, decoding and saving are not modelled. */
module Geometry {
  import opened Results

  const ListWidth: nat := 1200
  const ListHeight: nat := 550
  const CardWidth: nat := 600
  const CardHeight: nat := 180
  const Rows: nat := 3
  const Cols: nat := 2
  /** Number of player cards, and so of OCR slots. */
  const CardCount: nat := 6

  const TwoTo32: int := 0x1_0000_0000
  /** Image dimensions are `u32` in the image library. */
  type U32 = x: int | 0 <= x < TwoTo32

  datatype Rect = Rect(x: nat, y: nat, width: nat, height: nat)

  predicate Contains(r: Rect, px: nat, py: nat) {
    r.x <= px < r.x + r.width && r.y <= py < r.y + r.height
  }

  /** `r` lies inside an image of the given size. */
  predicate Inside(r: Rect, width: nat, height: nat) {
    r.x + r.width <= width && r.y + r.height <= height
  }

  predicate Disjoint(a: Rect, b: Rect) {
    a.x + a.width <= b.x || b.x + b.width <= a.x ||
    a.y + a.height <= b.y || b.y + b.height <= a.y
  }

  /** `u32` subtraction with wrap-around (the release-build behaviour; a
      debug build panics instead when `b > a`). */
  function WrappingSub(a: U32, b: U32): (r: U32)
    ensures b <= a ==> r == a - b
    ensures a < b ==> r == TwoTo32 + a - b
  {
    (a - b) % TwoTo32
  }

  /** The player list's rectangle exactly as the code computes it, with no
      check that the screenshot is large enough. */
  function ListBoxAsWritten(width: U32, height: U32): Rect {
    Rect(WrappingSub(width, ListWidth) / 2, WrappingSub(height, ListHeight) / 2, ListWidth, ListHeight)
  }

  /** For any screenshot narrower or shorter than the list, the computed
      origin is already outside the image, so the list box is not inside it. */
  lemma ListBoxAsWrittenEscapes(width: U32, height: U32)
    requires width < ListWidth || height < ListHeight
    ensures width < ListWidth ==> ListBoxAsWritten(width, height).x >= width
    ensures height < ListHeight ==> ListBoxAsWritten(width, height).y >= height
    ensures !Inside(ListBoxAsWritten(width, height), width, height)
  {
  }

  /** A 1024x768 screenshot puts the list box at x = 2147483560. */
  lemma ListBoxAsWrittenExample()
    ensures ListBoxAsWritten(1024, 768).x == 2147483560
    ensures !Inside(ListBoxAsWritten(1024, 768), 1024, 768)
  {
  }

  /** The player list centred in a `width` x `height` screenshot, or an
      error when the screenshot cannot hold it. */
  function ListBox(width: nat, height: nat): (r: Result<Rect>)
    ensures r.Ok? <==> width >= ListWidth && height >= ListHeight
    ensures r.Ok? ==> r.value.width == ListWidth && r.value.height == ListHeight
    ensures r.Ok? ==> Inside(r.value, width, height)
    // centred: the margin after the box is the margin before it, or one more
    ensures r.Ok? ==> r.value.x <= width - (r.value.x + ListWidth) <= r.value.x + 1
    ensures r.Ok? ==> r.value.y <= height - (r.value.y + ListHeight) <= r.value.y + 1
  {
    if width < ListWidth || height < ListHeight then
      Err("Screenshot is smaller than the 1200x550 player list.")
    else
      Ok(Rect((width - ListWidth) / 2, (height - ListHeight) / 2, ListWidth, ListHeight))
  }

  /** Wherever the code's arithmetic cannot wrap, the checked box is the code's box. */
  lemma ListBoxAgreesWhenLargeEnough(width: U32, height: U32)
    requires width >= ListWidth && height >= ListHeight
    ensures ListBox(width, height) == Ok(ListBoxAsWritten(width, height))
  {
  }

  /** At the reference resolution the list starts at (360, 265). */
  lemma ListBoxAt1080p()
    ensures ListBox(1920, 1080) == Ok(Rect(360, 265, ListWidth, ListHeight))
  {
  }

  /** One player card: its slot index and its rectangle within the player list. */
  datatype Card = Card(index: nat, rect: Rect)

  /** The card in grid row `row` and column `col`. */
  function CardAt(row: nat, col: nat): Card {
    Card(row * Cols + col, Rect(col * CardWidth, row * CardHeight, CardWidth, CardHeight))
  }

  /** The cards in the order the nested row/column loops produce them. */
  function PlayerCards(): seq<Card> {
    [CardAt(0, 0), CardAt(0, 1), CardAt(1, 0), CardAt(1, 1), CardAt(2, 0), CardAt(2, 1)]
  }

  /** Six cards, row-major: slot `row*2+col` is the card of that row and column,
      so the indices are 0..5, each once, in order. */
  lemma PlayerCardsRowMajor()
    ensures |PlayerCards()| == CardCount == Rows * Cols
    ensures forall i :: 0 <= i < |PlayerCards()| ==> PlayerCards()[i].index == i
    ensures forall row, col :: 0 <= row < Rows && 0 <= col < Cols ==>
      PlayerCards()[row * Cols + col] == CardAt(row, col)
  {
  }

  /** Every card is a 600x180 rectangle inside the 1200x550 list, and no two overlap. */
  lemma PlayerCardsDisjointInside()
    ensures forall i :: 0 <= i < |PlayerCards()| ==>
      PlayerCards()[i].rect.width == CardWidth && PlayerCards()[i].rect.height == CardHeight &&
      Inside(PlayerCards()[i].rect, ListWidth, ListHeight)
    ensures forall i, j :: 0 <= i < j < |PlayerCards()| ==>
      Disjoint(PlayerCards()[i].rect, PlayerCards()[j].rect)
  {
  }

  /** The cards cover the top 1200x540 of the list exactly; the bottom ten
      rows of the 550-row list belong to no card. */
  lemma {:induction false} PlayerCardsCover(px: nat, py: nat)
    requires px < ListWidth && py < ListHeight
    ensures (exists i :: 0 <= i < |PlayerCards()| && Contains(PlayerCards()[i].rect, px, py))
        <==> py < Rows * CardHeight
  {
    if py < Rows * CardHeight {
      var row, col := py / CardHeight, px / CardWidth;
      PlayerCardsRowMajor();
      assert Contains(PlayerCards()[row * Cols + col].rect, px, py);
    }
  }

  /** The geometry of one crop: the list box in the screenshot, and the cards in the list box. */
  datatype CardLayout = CardLayout(listBox: Rect, cards: seq<Card>)

  /** Placing the cards: the centred list box, then one card per grid cell in
      row-major order. Fails instead of cropping when the screenshot is too small. */
  method CropPlayerCards(width: U32, height: U32) returns (r: Result<CardLayout>)
    ensures r.Err? <==> width < ListWidth || height < ListHeight
    ensures r.Err? ==> r.error == ListBox(width, height).error
    ensures r.Ok? ==> r.value.listBox == ListBox(width, height).value
    ensures r.Ok? ==> r.value.cards == PlayerCards()
  {
    var listBox := ListBox(width, height);
    if listBox.Err? {
      return Err(listBox.error);
    }
    var cards: seq<Card> := [];
    for row := 0 to Rows
      invariant cards == PlayerCards()[..row * Cols]
    {
      for col := 0 to Cols
        invariant cards == PlayerCards()[..row * Cols + col]
      {
        var startX := col * CardWidth;
        var startY := row * CardHeight;
        var index := row * Cols + col;
        cards := cards + [Card(index, Rect(startX, startY, CardWidth, CardHeight))];
      }
    }
    r := Ok(CardLayout(listBox.value, cards));
  }

  /** Every card, placed at the list box's origin, lies inside the screenshot. */
  lemma CardsInsideScreenshot(width: nat, height: nat, i: nat)
    requires ListBox(width, height).Ok? && i < |PlayerCards()|
    ensures Inside(
      Rect(ListBox(width, height).value.x + PlayerCards()[i].rect.x,
           ListBox(width, height).value.y + PlayerCards()[i].rect.y,
           CardWidth, CardHeight),
      width, height)
  {
    PlayerCardsDisjointInside();
  }
}
