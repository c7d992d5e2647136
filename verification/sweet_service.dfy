/** `SweetService`: the inventory operations over the repository. Each
    operation returns the new repository together with its value or the
    exception it throws; a thrown exception leaves the repository as it was. */
module SweetService {
  import opened Wrappers
  import opened JavaLang
  import opened Exceptions
  import opened Sweets
  import opened Dto
  import opened SweetRepository

  datatype Step<T> = Step(repo: Repo, result: Result<T, Exception>)

  function NotFound(id: int): Exception {
    ResourceNotFound("Sweet not found with id: " + IntToString(id))
  }

  /** The five request fields agree with the record's. */
  predicate HasFields(s: Sweet, req: SweetRequest) {
    && req.name == Some(s.name)
    && req.category == Some(s.category)
    && req.price == Some(s.price)
    && req.quantity == Some(s.quantity)
    && req.description == Some(s.description)
  }

  /** `b` differs from `a` at most in the row stored under `id`. */
  predicate OnlyRowChanged(a: Repo, b: Repo, id: int) {
    && b.rows.Keys == a.rows.Keys
    && b.nextId == a.nextId
    && forall k :: k in a.rows && k != id ==> b.rows[k] == a.rows[k]
  }

  /** Every stored stock level is non-negative. */
  predicate StockNonNegative(r: Repo) {
    forall k :: k in r.rows ==> r.rows[k].quantity >= 0
  }

  /** `getAllSweets`: the list an unfiltered search gives, holding exactly the
      records `getSweetById` finds, each under its own id. */
  function GetAllSweets(r: Repo): (m: map<int, Sweet>)
    ensures m == SearchSweets(r, None, None, None, None)
    ensures forall k :: k in m <==> GetSweetById(r, k).Success?
    ensures forall k :: k in m ==> GetSweetById(r, k) == Success(m[k])
    ensures Valid(r) ==> forall k :: k in m ==> m[k].id == k
  {
    SearchWithoutFiltersIsFindAll(r);
    r.rows
  }

  function GetSweetById(r: Repo, id: int): (res: Result<Sweet, Exception>)
    ensures res.Success? <==> id in r.rows
    ensures res.Success? ==> res.value == r.rows[id]
    ensures res.Failure? ==> res.error == NotFound(id)
  {
    match FindById(r, id)
    case Some(s) => Success(s)
    case None => Failure(NotFound(id))
  }

  /** `addSweet`: build an entity from the request and save it. */
  function AddSweet(r: Repo, req: SweetRequest): (st: Step<Sweet>)
    requires IsComplete(req)
    ensures st.result.Success?
    ensures HasFields(st.result.value, req)
    ensures st.result.value.id == r.nextId
    ensures st.repo.rows == r.rows[st.result.value.id := st.result.value]
    ensures Valid(r) ==> Valid(st.repo) && st.result.value.id !in r.rows
  {
    var sweet := Sweet(0, req.name.value, req.category.value, req.price.value,
                       req.quantity.value, req.description.value);
    var (repo', stored) := Insert(r, sweet);
    Step(repo', Success(stored))
  }

  /** `updateSweet`: overwrite all five fields of an existing record. */
  function UpdateSweet(r: Repo, id: int, req: SweetRequest): (st: Step<Sweet>)
    requires IsComplete(req)
    ensures st.result.Success? <==> id in r.rows
    ensures st.result.Failure? ==> st.result.error == NotFound(id) && st.repo == r
    ensures st.result.Success? ==>
      && st.result.value.id == r.rows[id].id
      && HasFields(st.result.value, req)
      && id in st.repo.rows && st.repo.rows[id] == st.result.value
      && OnlyRowChanged(r, st.repo, id)
    ensures Valid(r) ==> Valid(st.repo)
  {
    match GetSweetById(r, id)
    case Failure(ex) => Step(r, Failure(ex))
    case Success(s) =>
      var s' := s.(name := req.name.value, category := req.category.value, price := req.price.value,
                   quantity := req.quantity.value, description := req.description.value);
      Step(Repo(r.rows[id := s'], r.nextId), Success(s'))
  }

  /** `deleteSweet`: `existsById`, then `deleteById`. */
  function DeleteSweet(r: Repo, id: int): (st: Step<()>)
    ensures st.result.Success? <==> id in r.rows
    ensures st.result.Failure? ==> st.result.error == NotFound(id) && st.repo == r
    ensures st.result.Success? ==>
      && st.repo.rows.Keys == r.rows.Keys - {id}
      && (forall k :: k in st.repo.rows ==> st.repo.rows[k] == r.rows[k])
      && st.repo.nextId == r.nextId
    ensures Valid(r) ==> Valid(st.repo)
  {
    if id !in r.rows then Step(r, Failure(NotFound(id)))
    else Step(Repo(r.rows - {id}, r.nextId), Success(()))
  }

  /** `purchaseSweet`: look the record up, let the entity check and lower the
      stock, save it. */
  function PurchaseSweet(r: Repo, id: int, q: Int32): (st: Step<Sweet>)
    ensures st.result.Success? <==> id in r.rows && q <= r.rows[id].quantity
    ensures st.result.Failure? ==> st.repo == r
    ensures id !in r.rows ==> st.result == Failure(NotFound(id))
    ensures id in r.rows && q > r.rows[id].quantity ==>
      st.result == Failure(IllegalArgument(INSUFFICIENT_QUANTITY))
    ensures st.result.Success? ==>
      && SameExceptQuantity(st.result.value, r.rows[id])
      && id in st.repo.rows && st.repo.rows[id] == st.result.value
      && OnlyRowChanged(r, st.repo, id)
    ensures st.result.Success? && q >= 0 ==> st.result.value.quantity == r.rows[id].quantity - q
    ensures Valid(r) ==> Valid(st.repo)
  {
    match GetSweetById(r, id)
    case Failure(ex) => Step(r, Failure(ex))
    case Success(s) =>
      match Purchase(s, q)
      case Failure(ex) => Step(r, Failure(ex))
      case Success(s') => Step(Repo(r.rows[id := s'], r.nextId), Success(s'))
  }

  /** `restockSweet`: look the record up, raise the stock, save it. */
  function RestockSweet(r: Repo, id: int, q: Int32): (st: Step<Sweet>)
    ensures st.result.Success? <==> id in r.rows
    ensures st.result.Failure? ==> st.result.error == NotFound(id) && st.repo == r
    ensures st.result.Success? ==>
      && SameExceptQuantity(st.result.value, r.rows[id])
      && id in st.repo.rows && st.repo.rows[id] == st.result.value
      && OnlyRowChanged(r, st.repo, id)
    ensures st.result.Success? && InInt32Range(r.rows[id].quantity + q) ==>
      st.result.value.quantity == r.rows[id].quantity + q
    ensures Valid(r) ==> Valid(st.repo)
  {
    match GetSweetById(r, id)
    case Failure(ex) => Step(r, Failure(ex))
    case Success(s) =>
      var s' := Restock(s, q);
      Step(Repo(r.rows[id := s'], r.nextId), Success(s'))
  }

  /** `searchSweets`: exactly the repository's `search` for the same arguments. */
  function SearchSweets(r: Repo, name: Option<string>, category: Option<string>,
                        minPrice: Option<real>, maxPrice: Option<real>): (m: map<int, Sweet>)
    ensures m.Keys <= r.rows.Keys && forall k :: k in m ==> m[k] == r.rows[k]
    ensures forall k :: k in m <==> k in r.rows && Matches(r.rows[k], name, category, minPrice, maxPrice)
  {
    Search(r, name, category, minPrice, maxPrice)
  }

  // ---- properties across operations ----

  /** Adding a sweet and deleting it under the id it was given restores the
      stored rows (the identity counter stays advanced). */
  lemma AddThenDeleteRestores(r: Repo, req: SweetRequest)
    requires Valid(r) && IsComplete(req)
    ensures var added := AddSweet(r, req);
      var deleted := DeleteSweet(added.repo, added.result.value.id);
      deleted.result.Success? && deleted.repo.rows == r.rows
  {
  }

  /** Deleting twice: the second call reports not-found and changes nothing. */
  lemma DeleteTwice(r: Repo, id: int)
    requires id in r.rows
    ensures var once := DeleteSweet(r, id);
      DeleteSweet(once.repo, id) == Step(once.repo, Failure(NotFound(id)))
  {
  }

  /** Purchases of a non-negative amount, restocks of a non-negative amount
      that do not overflow, updates and additions with validated requests,
      and deletions all keep every stock level non-negative. The restock case
      assumes `q >= 0`: the service does not check it, and whether the
      restock request body does is not part of this model (see
      `NegativeRestockDrivesStockNegative`). */
  lemma StockStaysNonNegative(r: Repo, id: int, q: Int32, req: SweetRequest)
    requires StockNonNegative(r)
    requires 0 <= q
    ensures StockNonNegative(PurchaseSweet(r, id, q).repo)
    ensures StockNonNegative(DeleteSweet(r, id).repo)
    ensures id in r.rows && InInt32Range(r.rows[id].quantity + q) ==>
      StockNonNegative(RestockSweet(r, id, q).repo)
    ensures IsValid(req) ==> StockNonNegative(AddSweet(r, req).repo)
    ensures IsValid(req) ==> StockNonNegative(UpdateSweet(r, id, req).repo)
  {
  }

  /** Nothing in the service stops a negative restock: taking away one more
      than the stock leaves a stored stock of -1. */
  lemma NegativeRestockDrivesStockNegative(r: Repo, id: int)
    requires id in r.rows && r.rows[id].quantity >= 0
    ensures var st := RestockSweet(r, id, -1 - r.rows[id].quantity);
      st.result.Success? && st.repo.rows[id].quantity == -1 && !StockNonNegative(st.repo)
  {
  }

  /** A validated purchase (quantity at least 1) that succeeds strictly
      lowers the stock. */
  lemma ValidatedPurchaseLowersStock(r: Repo, id: int, q: Int32)
    requires PurchaseRequestViolations(PurchaseRequest(Some(q))) == []
    requires PurchaseSweet(r, id, q).result.Success?
    ensures PurchaseSweet(r, id, q).repo.rows[id].quantity < r.rows[id].quantity
  {
  }
}
