/**
 * The client's book card: the stock badge, the description shortened for the
 * card, and the add-to-cart button with its sign-in check and its delayed add.
 */
module BookCard {
  import opened Wrappers
  import opened Utf16

  /** "...", three full stops. */
  const ELLIPSIS: JsString := [46, 46, 46]
  const LOGIN_TO_ADD := "Please login to add items to cart"
  /** The card shows at most this many code units of the description. */
  const DESCRIPTION_LENGTH := 100

  /** The corner badge; no badge at all is `None`. */
  datatype Badge = OutOfStock | LowStock | Limited

  /** `getStockBadge`: a stock count of exactly 0, below 5, below 10, or anything else. */
  function StockBadge(stock: real): (b: Option<Badge>)
    ensures b == Some(OutOfStock) <==> stock == 0.0
    ensures b == Some(LowStock) <==> stock < 5.0 && stock != 0.0
    ensures b == Some(Limited) <==> 5.0 <= stock < 10.0
    ensures b.None? <==> stock >= 10.0
  {
    if stock == 0.0 then Some(OutOfStock)
    else if stock < 5.0 then Some(LowStock)
    else if stock < 10.0 then Some(Limited)
    else None
  }

  /** How urgent a badge is: Out of Stock above Low Stock above Limited above none. */
  function Urgency(b: Option<Badge>): nat
  {
    match b
    case Some(OutOfStock) => 3
    case Some(LowStock) => 2
    case Some(Limited) => 1
    case None => 0
  }

  /**
   * Among counts that are not negative, more stock never makes the badge more
   * urgent. Negative counts are the exception: they show Low Stock, less urgent
   * than the Out of Stock shown at 0.
   */
  lemma BadgeEasesWithStock(s: real, t: real)
    requires 0.0 <= s <= t
    ensures Urgency(StockBadge(t)) <= Urgency(StockBadge(s))
  {
  }

  /** A negative count shows Low Stock, not Out of Stock. */
  lemma NegativeStockIsLow(s: real)
    requires s < 0.0
    ensures StockBadge(s) == Some(LowStock)
  {
  }

  /**
   * `truncateText`: '' for a missing or empty text; the text itself when it fits;
   * otherwise its first `maxLength` code units (none when `maxLength` is negative,
   * as `substring` clamps) followed by "...". Lengths are `.length`, in code units.
   */
  function TruncateText(text: Option<JsString>, maxLength: int): (r: JsString)
    ensures (text.None? || text.value == []) ==> r == []
    ensures text.Some? && |text.value| <= maxLength ==> r == text.value
    ensures text.Some? && text.value != [] && |text.value| > maxLength ==>
      var keep := if maxLength < 0 then 0 else maxLength;
      r == text.value[..keep] + ELLIPSIS
    ensures |r| <= (if maxLength < 0 then 0 else maxLength) + 3
  {
    match text
    case None => []
    case Some(t) =>
      if t == [] then []
      else if |t| > maxLength then t[..if maxLength < 0 then 0 else maxLength] + ELLIPSIS
      else t
  }

  /** A shortened text starts with a prefix of the original, and shortening it again changes nothing. */
  lemma TruncateIsPrefixAndStable(t: JsString, maxLength: nat)
    ensures var r := TruncateText(Some(t), maxLength);
      (r == t || (r[..|r| - 3] <= t && r[|r| - 3..] == ELLIPSIS))
    ensures TruncateText(Some(TruncateText(Some(t), maxLength)), maxLength) == TruncateText(Some(t), maxLength)
  {
  }

  /** The part of a book the card reads. */
  datatype CardBook = CardBook(title: JsString, description: Option<JsString>, stock: real)

  /** The description as the card prints it: at most 100 code units and an ellipsis. */
  function CardDescription(b: CardBook): (r: JsString)
    ensures |r| <= DESCRIPTION_LENGTH + |ELLIPSIS|
    ensures b.description.Some? && |b.description.value| <= DESCRIPTION_LENGTH ==> r == b.description.value
    ensures b.description.Some? && |b.description.value| > DESCRIPTION_LENGTH ==>
      r == b.description.value[..DESCRIPTION_LENGTH] + ELLIPSIS
  {
    TruncateText(b.description, DESCRIPTION_LENGTH)
  }

  /**
   * A description of 51 to 100 emoji, short enough in characters, is more than 100
   * code units long: the card cuts it to its first 50 emoji and adds "...".
   */
  lemma EmojiDescriptionIsCut(b: CardBook, text: string)
    requires b.description == Some(Encode(text))
    requires 50 < |text| <= DESCRIPTION_LENGTH
    requires forall i :: 0 <= i < |text| ==> text[i] as int >= ASTRAL
    ensures |CardDescription(b)| == DESCRIPTION_LENGTH + |ELLIPSIS|
    ensures CardDescription(b) == Encode(text)[..DESCRIPTION_LENGTH] + ELLIPSIS
  {
  }

  /** One rendered card: its book, the signed-in flag, and its own state. */
  class BookCardState {
    const book: CardBook
    const isAuthenticated: bool
    var isAdding: bool
    var showToast: bool
    /** Adds scheduled by the 500 ms timer and not yet run. */
    var pendingAdds: nat
    /** The books this card has handed to the cart, in order. */
    var added: seq<CardBook>
    /** The alerts this card has raised, in order. */
    var alerts: seq<string>

    constructor (book: CardBook, isAuthenticated: bool)
      ensures this.book == book && this.isAuthenticated == isAuthenticated
      ensures !isAdding && !showToast && pendingAdds == 0 && added == [] && alerts == []
    {
      this.book := book;
      this.isAuthenticated := isAuthenticated;
      isAdding, showToast := false, false;
      pendingAdds, added, alerts := 0, [], [];
    }

    /**
     * `disabled={book.stock === 0 || isAdding}`: a card without stock is never
     * clickable, and one with stock only while no add is in progress.
     */
    predicate ButtonDisabled(): (d: bool)
      reads this
      ensures book.stock == 0.0 ==> d
      ensures book.stock != 0.0 ==> (d <==> isAdding)
    {
      book.stock == 0.0 || isAdding
    }

    /**
     * `handleAddToCart`: signed out, it only raises the sign-in alert; signed in, it
     * marks the card as adding and schedules the add.
     */
    method HandleAddToCart()
      modifies this`isAdding, this`pendingAdds, this`alerts
      ensures !isAuthenticated ==>
        alerts == old(alerts) + [LOGIN_TO_ADD] && isAdding == old(isAdding) && pendingAdds == old(pendingAdds)
      ensures isAuthenticated ==>
        alerts == old(alerts) && isAdding && pendingAdds == old(pendingAdds) + 1
    {
      if !isAuthenticated {
        alerts := alerts + [LOGIN_TO_ADD];
        return;
      }
      isAdding := true;
      pendingAdds := pendingAdds + 1;
    }

    /** The scheduled callback: hand the book to the cart, show the toast, stop adding. */
    method TimerFires()
      requires pendingAdds > 0
      modifies this`isAdding, this`showToast, this`pendingAdds, this`added
      ensures added == old(added) + [book]
      ensures showToast && !isAdding && pendingAdds == old(pendingAdds) - 1
    {
      added := added + [book];
      showToast := true;
      isAdding := false;
      pendingAdds := pendingAdds - 1;
    }

    /** A click reaches `handleAddToCart` only while the button is enabled. */
    method Click()
      modifies this`isAdding, this`pendingAdds, this`alerts
      ensures old(ButtonDisabled()) ==>
        isAdding == old(isAdding) && pendingAdds == old(pendingAdds) && alerts == old(alerts)
      ensures !old(ButtonDisabled()) && !isAuthenticated ==>
        alerts == old(alerts) + [LOGIN_TO_ADD] && isAdding == old(isAdding) && pendingAdds == old(pendingAdds)
      ensures !old(ButtonDisabled()) && isAuthenticated ==>
        alerts == old(alerts) && isAdding && pendingAdds == old(pendingAdds) + 1 && ButtonDisabled()
    {
      if !ButtonDisabled() {
        HandleAddToCart();
      }
    }
  }

  /**
   * Signed in, a card with stock takes one add per click: the second click meets a
   * disabled button, and only the timer hands the book over, once.
   */
  method DoubleClickAddsOnce(book: CardBook) returns (card: BookCardState)
    requires book.stock != 0.0
    ensures card.added == [book] && card.alerts == []
    ensures card.pendingAdds == 0 && card.showToast && !card.ButtonDisabled()
  {
    card := new BookCardState(book, true);
    card.Click();
    card.Click();
    card.TimerFires();
  }

  /**
   * Signed out, clicking never schedules an add and never reaches the cart; each
   * click on a card with stock raises the sign-in alert, and one without stock
   * cannot be clicked at all.
   */
  method SignedOutNeverAdds(book: CardBook) returns (card: BookCardState)
    ensures card.pendingAdds == 0 && card.added == [] && !card.isAdding
    ensures card.alerts == if book.stock == 0.0 then [] else [LOGIN_TO_ADD, LOGIN_TO_ADD]
  {
    card := new BookCardState(book, false);
    card.Click();
    card.Click();
  }
}
