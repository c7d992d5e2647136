/** The `Sweet` entity and its two stock operations. Timestamps are not modelled. */
module Sweets {
  import opened JavaLang
  import opened Wrappers
  import opened Exceptions

  datatype Sweet = Sweet(
    id: int,
    name: string,
    category: string,
    price: real,
    quantity: Int32,
    description: string)

  const INSUFFICIENT_QUANTITY: string := "Insufficient quantity available"

  /** Everything but the stock level agrees. */
  predicate SameExceptQuantity(a: Sweet, b: Sweet) {
    a.id == b.id && a.name == b.name && a.category == b.category
    && a.price == b.price && a.description == b.description
  }

  /** `Sweet.purchase(q)`: refused when the stock is strictly below `q`,
      otherwise the stock drops by `q` in Java `int` arithmetic. */
  function Purchase(s: Sweet, q: Int32): (r: Result<Sweet, Exception>)
    ensures r.Success? <==> q <= s.quantity
    ensures r.Failure? ==> r.error == IllegalArgument(INSUFFICIENT_QUANTITY)
    ensures r.Success? ==> SameExceptQuantity(r.value, s)
    ensures r.Success? && 0 <= q ==> r.value.quantity == s.quantity - q
    ensures r.Success? && 0 <= q ==> 0 <= r.value.quantity <= s.quantity
  {
    if s.quantity < q then Failure(IllegalArgument(INSUFFICIENT_QUANTITY))
    else Success(s.(quantity := Wrap32(s.quantity - q)))
  }

  /** `Sweet.restock(q)`: no guard at all; the stock grows by `q`, wrapping
      around past the `int` range as Java does. */
  function Restock(s: Sweet, q: Int32): (r: Sweet)
    ensures SameExceptQuantity(r, s)
    ensures InInt32Range(s.quantity + q) ==> r.quantity == s.quantity + q
    ensures s.quantity + q > INT_MAX ==> r.quantity == s.quantity + q - TWO_TO_32
    ensures s.quantity + q < INT_MIN ==> r.quantity == s.quantity + q + TWO_TO_32
  {
    s.(quantity := Wrap32(s.quantity + q))
  }

  /** Buying the whole stock is allowed and leaves nothing. */
  lemma PurchaseWholeStock(s: Sweet)
    ensures Purchase(s, s.quantity) == Success(s.(quantity := 0))
  {
  }

  /** A purchase of a non-negative amount never drives a non-negative stock negative. */
  lemma PurchaseKeepsStockNonNegative(s: Sweet, q: Int32)
    requires 0 <= s.quantity && 0 <= q
    ensures Purchase(s, q).Success? ==> Purchase(s, q).value.quantity >= 0
  {
  }

  /** The entity itself does not reject a negative amount: "buying" -1 of a
      full stock wraps it around to the most negative `int`. */
  lemma NegativePurchaseCanWrap(s: Sweet)
    requires s.quantity == INT_MAX
    ensures Purchase(s, -1) == Success(s.(quantity := INT_MIN))
  {
  }

  /** Restocking `q` and then buying `q` always succeeds and gives back the
      original record, as long as the restock does not overflow. */
  lemma RestockThenPurchase(s: Sweet, q: Int32)
    requires 0 <= s.quantity
    requires InInt32Range(s.quantity + q)
    ensures Purchase(Restock(s, q), q) == Success(s)
  {
  }

  /** The unguarded restock can wrap a full stock around to a negative one. */
  lemma RestockCanWrapNegative(s: Sweet)
    requires s.quantity == INT_MAX
    ensures Restock(s, 1).quantity == INT_MIN
  {
  }
}
