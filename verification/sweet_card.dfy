/** `SweetCard`: what one catalogue card offers to whom, the quantity picker,
    and what a purchase from the card does. */
module SweetCard {
  import opened Wrappers
  import opened Dto
  import UseAuth
  import AuthStore
  import SweetStore

  /** `sweet.quantity === 0`: a negative stock is not "out of stock". */
  predicate IsOutOfStock(sweet: SweetResponse) {
    sweet.quantity == 0
  }

  /** The "Edit" button: administrators only. */
  predicate ShowEdit(v: UseAuth.View) {
    v.isAdmin
  }

  /** The quantity picker and "Purchase" button: signed-in non-admins, and
      only while the item is in stock. */
  predicate ShowPurchaseControls(v: UseAuth.View, sweet: SweetResponse) {
    v.isAuthenticated && !v.isAdmin && !IsOutOfStock(sweet)
  }

  /** "Login to purchase": anonymous visitors, while the item is in stock. */
  predicate ShowLoginHint(v: UseAuth.View, sweet: SweetResponse) {
    !v.isAuthenticated && !IsOutOfStock(sweet)
  }

  /** A card never offers both purchasing and the login hint; an item out of
      stock offers neither; an item in stock always offers one of them to
      anyone who is not an administrator. */
  lemma CardOffersOneWayToBuy(v: UseAuth.View, sweet: SweetResponse)
    ensures !(ShowPurchaseControls(v, sweet) && ShowLoginHint(v, sweet))
    ensures IsOutOfStock(sweet) ==> !ShowPurchaseControls(v, sweet) && !ShowLoginHint(v, sweet)
    ensures !IsOutOfStock(sweet) && !v.isAdmin ==> ShowPurchaseControls(v, sweet) || ShowLoginHint(v, sweet)
    ensures ShowEdit(v) ==> !ShowPurchaseControls(v, sweet)
  {
  }

  /** What a card offers follows the session in the auth store: a signed-in
      administrator may edit and cannot buy; after logging out nobody may edit
      or buy, and an item in stock shows the login hint. */
  lemma CardFollowsSession(s: AuthStore.State, sweet: SweetResponse)
    ensures AuthStore.IsAdmin(s) ==> ShowEdit(UseAuth.HookView(s)) && !ShowPurchaseControls(UseAuth.HookView(s), sweet)
    ensures !AuthStore.IsAdmin(s) ==> !ShowEdit(UseAuth.HookView(s))
    ensures var v := UseAuth.HookView(AuthStore.Logout(s));
      && !ShowEdit(v) && !ShowPurchaseControls(v, sweet)
      && (ShowLoginHint(v, sweet) <==> !IsOutOfStock(sweet))
  {
  }

  /** The picker's `onChange`: `Math.min(parseInt(input) || 1, stock)`, with
      `parseInt` already applied (`None` is `NaN`). `NaN` and 0 are falsy and
      become 1; a negative number is truthy and is kept. */
  function ClampQuantity(parsed: Option<int>, stock: int): (q: int)
    ensures q <= stock
    ensures q == stock || (parsed.Some? && parsed.value != 0 && q == parsed.value) || ((parsed.None? || parsed.value == 0) && q == 1)
    ensures 1 <= stock && (parsed.None? || parsed.value == 0) ==> q == 1
    ensures parsed.Some? && parsed.value != 0 && parsed.value <= stock ==> q == parsed.value
  {
    var n := if parsed.Some? && parsed.value != 0 then parsed.value else 1;
    if n < stock then n else stock
  }

  /** The picker offers 1..stock for sane input, but a negative entry reaches
      the purchase call unchanged (the server then refuses it). */
  lemma ClampedQuantityRange(parsed: Option<int>, stock: int)
    requires 1 <= stock
    ensures parsed.None? || parsed.value >= 0 ==> 1 <= ClampQuantity(parsed, stock) <= stock
    ensures parsed.Some? && parsed.value < 0 ==> ClampQuantity(parsed, stock) == parsed.value < 1
  {
  }

  /** What the card shows the user after a purchase attempt (`alert`). */
  datatype Alert = PurchaseSuccessful | PurchaseFailed

  datatype Purchased = Purchased(store: SweetStore.State, quantity: int, alert: Alert)

  /** `handlePurchase`: calls the store with the picked quantity; success
      resets the picker to 1, failure leaves it as it was. */
  function HandlePurchase(store: SweetStore.State, sweet: SweetResponse, quantity: int,
                          o: SweetStore.Outcome<SweetResponse>): (p: Purchased)
    ensures p.store == SweetStore.PurchaseSweet(store, sweet.id, quantity, o).state
    ensures p.alert == PurchaseSuccessful <==> o.Success?
    ensures o.Success? ==> p.quantity == 1
    ensures o.Failure? ==> p.quantity == quantity && p.store.sweets == store.sweets
  {
    var r := SweetStore.PurchaseSweet(store, sweet.id, quantity, o);
    if r.returned.Success? then Purchased(r.state, 1, PurchaseSuccessful)
    else Purchased(r.state, quantity, PurchaseFailed)
  }
}
