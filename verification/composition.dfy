/** The client and the server put together: a purchase made from the client
    cache travels through the purchase endpoint, and the cache settles on the
    answer. */
module Composition {
  import opened Wrappers
  import opened JavaLang
  import opened Dto
  import opened Http
  import opened Sweets
  import opened SweetRepository
  import SweetController
  import SweetStore

  datatype Round = Round(repo: Repo, response: Response, store: SweetStore.State)

  /** `purchaseSweet(id, q)` in the store, answered by the server. */
  function ClientPurchase(store: SweetStore.State, repo: Repo, auth: Option<SweetController.Authentication>,
                          id: int, q: Int32): (r: Round)
    ensures r.response == SweetController.PurchaseSweet(repo, auth, id, PurchaseRequest(Some(q))).response
    ensures r.repo == SweetController.PurchaseSweet(repo, auth, id, PurchaseRequest(Some(q))).repo
    ensures r.store == SweetStore.PurchaseSweet(store, id, q, SweetOutcome(r.response)).state
  {
    var served := SweetController.PurchaseSweet(repo, auth, id, PurchaseRequest(Some(q)));
    Round(served.repo, served.response, SweetStore.PurchaseSweet(store, id, q, SweetOutcome(served.response)).state)
  }

  /** Buying at most the stock lowers it on the server by exactly `q`, and
      every cached copy of that record shows the new stock while the other
      cached records stay as they were. */
  lemma PurchaseWithinStock(store: SweetStore.State, repo: Repo, auth: Option<SweetController.Authentication>,
                            id: int, q: Int32)
    requires SweetController.IsAuthenticated(auth)
    requires 1 <= q && id in repo.rows && q <= repo.rows[id].quantity
    ensures var r := ClientPurchase(store, repo, auth, id, q);
      && id in r.repo.rows && r.repo.rows[id].quantity == repo.rows[id].quantity - q
      && r.store.error.None? && |r.store.sweets| == |store.sweets|
      && (forall i :: 0 <= i < |store.sweets| && store.sweets[i].id == id ==>
            r.store.sweets[i].quantity == repo.rows[id].quantity - q)
      && (forall i :: 0 <= i < |store.sweets| && store.sweets[i].id != id ==>
            r.store.sweets[i] == store.sweets[i])
  {
  }

  /** Asking for more than the stock changes nothing on either side, and the
      cache records the server's own message. */
  lemma PurchaseBeyondStock(store: SweetStore.State, repo: Repo, auth: Option<SweetController.Authentication>,
                            id: int, q: Int32)
    requires SweetController.IsAuthenticated(auth)
    requires 1 <= q && id in repo.rows && q > repo.rows[id].quantity
    ensures var r := ClientPurchase(store, repo, auth, id, q);
      && r.repo == repo && r.response.status == BAD_REQUEST
      && r.store.sweets == store.sweets
      && r.store.error == Some(INSUFFICIENT_QUANTITY)
  {
  }

  /** An unknown id is reported with the server's not-found message. */
  lemma PurchaseOfUnknownId(store: SweetStore.State, repo: Repo, auth: Option<SweetController.Authentication>,
                            id: int, q: Int32)
    requires SweetController.IsAuthenticated(auth)
    requires 1 <= q && id !in repo.rows
    ensures var r := ClientPurchase(store, repo, auth, id, q);
      && r.repo == repo && r.response.status == NOT_FOUND
      && r.store.sweets == store.sweets
      && r.store.error == Some("Sweet not found with id: " + IntToString(id))
  {
  }

  /** A quantity below 1, or a caller who is not signed in, is refused before
      the service runs; neither answer carries an `error` field, so the cache
      records the client's own fallback message. */
  lemma RefusedPurchaseFallsBack(store: SweetStore.State, repo: Repo, auth: Option<SweetController.Authentication>,
                                 id: int, q: Int32)
    requires q < 1 || !SweetController.IsAuthenticated(auth)
    ensures var r := ClientPurchase(store, repo, auth, id, q);
      && r.repo == repo
      && (r.response.status == BAD_REQUEST || r.response.status == UNAUTHORIZED)
      && r.store.sweets == store.sweets
      && r.store.error == Some(SweetStore.PURCHASE_FAILED)
  {
  }
}
