/** `SweetController`: the `/sweets` endpoints. Each endpoint validates its
    `@Valid` body first (argument resolution happens before the method
    runs), then applies its role check, then calls the service; every
    exception on the way is turned into a response by the global handler.
    An endpoint answers with the new repository and the HTTP response. */
module SweetController {
  import opened Wrappers
  import opened JavaLang
  import opened Exceptions
  import opened Sweets
  import opened Dto
  import opened Http
  import opened SweetRepository
  import Service = SweetService
  import opened UserService
  import opened GlobalExceptionHandler

  /** The Spring Security principal: absent for an anonymous request. */
  datatype Authentication = Authentication(name: string, authenticated: bool)

  datatype Served = Served(repo: Repo, response: Response)

  const MUST_AUTHENTICATE: string := "User must be authenticated"
  const ONLY_ADMINS: string := "Only admins can perform this action"

  predicate IsAuthenticated(auth: Option<Authentication>) {
    auth.Some? && auth.value.authenticated
  }

  /** The caller is authenticated and the user store records it as ADMIN. */
  predicate IsAdminCaller(auth: Option<Authentication>, users: Users) {
    IsAuthenticated(auth) && auth.value.name in users && users[auth.value.name].role == ADMIN
  }

  /** `mapToResponse`: the record as it goes on the wire. */
  function MapToResponse(s: Sweet): (r: SweetResponse)
    ensures r.id == s.id && r.name == s.name && r.category == s.category
    ensures r.price == s.price && r.quantity == s.quantity && r.description == s.description
  {
    SweetResponse(s.id, s.name, s.category, s.price, s.quantity, s.description)
  }

  /** No two records share a response: nothing is lost on the way out. */
  lemma MapToResponseInjective(a: Sweet, b: Sweet)
    ensures MapToResponse(a) == MapToResponse(b) ==> a == b
  {
  }

  function MapAll(m: map<int, Sweet>): map<int, SweetResponse> {
    map k | k in m :: MapToResponse(m[k])
  }

  /** `verifyAdminRole`: the exception it throws, or `None` when it passes. */
  function VerifyAdminRole(auth: Option<Authentication>, users: Users): (r: Option<Exception>)
    ensures r.None? <==> IsAdminCaller(auth, users)
    ensures !IsAuthenticated(auth) ==> r == Some(IllegalArgument(MUST_AUTHENTICATE))
    ensures IsAuthenticated(auth) && auth.value.name !in users ==> r == Some(InvalidCredentials(USER_NOT_FOUND))
    ensures IsAuthenticated(auth) && auth.value.name in users && users[auth.value.name].role != ADMIN ==>
      r == Some(IllegalArgument(ONLY_ADMINS))
  {
    if !IsAuthenticated(auth) then Some(IllegalArgument(MUST_AUTHENTICATE))
    else match GetUserByUsername(users, auth.value.name)
      case Failure(ex) => Some(ex)
      case Success(u) => if u.role != ADMIN then Some(IllegalArgument(ONLY_ADMINS)) else None
  }

  /** `POST /sweets`. */
  function AddSweet(repo: Repo, users: Users, auth: Option<Authentication>, req: SweetRequest): (s: Served)
    ensures s.response.status == CREATED <==> IsValid(req) && IsAdminCaller(auth, users)
    ensures s.response.status != CREATED ==> s.repo == repo
    ensures !IsValid(req) ==> s.response == Handle(ArgumentNotValid(SweetRequestViolations(req)))
    ensures IsValid(req) && !IsAdminCaller(auth, users) ==>
      s.response == Handle(VerifyAdminRole(auth, users).value)
    ensures s.response.status == CREATED && Valid(repo) ==>
      s.response.body.SweetJson? && s.response.body.sweet.id !in repo.rows
    ensures s.response.status == CREATED ==>
      && s.response.body.SweetJson?
      && Some(s.response.body.sweet.name) == req.name
      && Some(s.response.body.sweet.quantity) == req.quantity
      && s.response.body.sweet.id in s.repo.rows
  {
    var errs := SweetRequestViolations(req);
    if errs != [] then Served(repo, Handle(ArgumentNotValid(errs)))
    else match VerifyAdminRole(auth, users)
      case Some(ex) => Served(repo, Handle(ex))
      case None =>
        var st := Service.AddSweet(repo, req);
        Served(st.repo, Response(CREATED, SweetJson(MapToResponse(st.result.value))))
  }

  /** `GET /sweets`: open to everyone. */
  function GetAllSweets(repo: Repo): (s: Served)
    ensures s.repo == repo && s.response.status == OK
    ensures s.response.body == SweetListJson(MapAll(FindAll(repo)))
  {
    Served(repo, Response(OK, SweetListJson(MapAll(Service.GetAllSweets(repo)))))
  }

  /** `GET /sweets/{id}`. */
  function GetSweetById(repo: Repo, id: int): (s: Served)
    ensures s.repo == repo
    ensures s.response.status == OK <==> id in repo.rows
    ensures id in repo.rows ==> s.response.body == SweetJson(MapToResponse(repo.rows[id]))
    ensures id !in repo.rows ==> s.response == Handle(Service.NotFound(id))
  {
    match Service.GetSweetById(repo, id)
    case Failure(ex) => Served(repo, Handle(ex))
    case Success(sw) => Served(repo, Response(OK, SweetJson(MapToResponse(sw))))
  }

  /** `GET /sweets/search`: a missing query parameter is a null argument. */
  function SearchSweets(repo: Repo, name: Option<string>, category: Option<string>,
                        minPrice: Option<real>, maxPrice: Option<real>): (s: Served)
    ensures s.repo == repo && s.response.status == OK
    ensures s.response.body == SweetListJson(MapAll(Search(repo, name, category, minPrice, maxPrice)))
  {
    Served(repo, Response(OK, SweetListJson(MapAll(Service.SearchSweets(repo, name, category, minPrice, maxPrice)))))
  }

  /** `PUT /sweets/{id}`. */
  function UpdateSweet(repo: Repo, users: Users, auth: Option<Authentication>, id: int, req: SweetRequest): (s: Served)
    ensures s.response.status == OK <==> IsValid(req) && IsAdminCaller(auth, users) && id in repo.rows
    ensures s.response.status != OK ==> s.repo == repo
    ensures !IsValid(req) ==> s.response == Handle(ArgumentNotValid(SweetRequestViolations(req)))
    ensures IsValid(req) && !IsAdminCaller(auth, users) ==>
      s.response == Handle(VerifyAdminRole(auth, users).value)
    ensures IsValid(req) && IsAdminCaller(auth, users) && id !in repo.rows ==>
      s.response == Handle(Service.NotFound(id))
  {
    var errs := SweetRequestViolations(req);
    if errs != [] then Served(repo, Handle(ArgumentNotValid(errs)))
    else match VerifyAdminRole(auth, users)
      case Some(ex) => Served(repo, Handle(ex))
      case None =>
        var st := Service.UpdateSweet(repo, id, req);
        match st.result
        case Failure(ex) => Served(repo, Handle(ex))
        case Success(sw) => Served(st.repo, Response(OK, SweetJson(MapToResponse(sw))))
  }

  /** `DELETE /sweets/{id}`: 204 with no body. */
  function DeleteSweet(repo: Repo, users: Users, auth: Option<Authentication>, id: int): (s: Served)
    ensures s.response.status == NO_CONTENT <==> IsAdminCaller(auth, users) && id in repo.rows
    ensures s.response.status == NO_CONTENT ==> s.response.body == NoBody && s.repo.rows.Keys == repo.rows.Keys - {id}
    ensures s.response.status != NO_CONTENT ==> s.repo == repo
    ensures !IsAdminCaller(auth, users) ==> s.response == Handle(VerifyAdminRole(auth, users).value)
    ensures IsAdminCaller(auth, users) && id !in repo.rows ==> s.response == Handle(Service.NotFound(id))
  {
    match VerifyAdminRole(auth, users)
    case Some(ex) => Served(repo, Handle(ex))
    case None =>
      var st := Service.DeleteSweet(repo, id);
      match st.result
      case Failure(ex) => Served(repo, Handle(ex))
      case Success(_) => Served(st.repo, Response(NO_CONTENT, NoBody))
  }

  /** `POST /sweets/{id}/purchase`: any authenticated caller, whatever the role. */
  function PurchaseSweet(repo: Repo, auth: Option<Authentication>, id: int, req: PurchaseRequest): (s: Served)
    ensures s.response.status == OK <==>
      && PurchaseRequestViolations(req) == [] && IsAuthenticated(auth)
      && id in repo.rows && req.quantity.value <= repo.rows[id].quantity
    ensures s.response.status != OK ==> s.repo == repo
    ensures PurchaseRequestViolations(req) != [] ==>
      s.response == Handle(ArgumentNotValid(PurchaseRequestViolations(req)))
    ensures PurchaseRequestViolations(req) == [] && !IsAuthenticated(auth) ==>
      s.response == Response(UNAUTHORIZED, NoBody)
    ensures s.response.status == OK ==>
      && s.response.body.SweetJson?
      && s.response.body.sweet.quantity == repo.rows[id].quantity - req.quantity.value
      && s.repo == Service.PurchaseSweet(repo, id, req.quantity.value).repo
  {
    var errs := PurchaseRequestViolations(req);
    if errs != [] then Served(repo, Handle(ArgumentNotValid(errs)))
    else if !IsAuthenticated(auth) then Served(repo, Response(UNAUTHORIZED, NoBody))
    else
      var st := Service.PurchaseSweet(repo, id, req.quantity.value);
      match st.result
      case Failure(ex) => Served(repo, Handle(ex))
      case Success(sw) => Served(st.repo, Response(OK, SweetJson(MapToResponse(sw))))
  }

  /** `POST /sweets/{id}/restock`, for a body the restock request's own
      validation accepted: its constraints are not part of this model, so `q`
      is the quantity of an accepted body, and what it rejects is not
      modelled. Past that step the quantity reaches the service as sent. */
  function RestockSweet(repo: Repo, users: Users, auth: Option<Authentication>, id: int, q: Int32): (s: Served)
    ensures s.response.status == OK <==> IsAdminCaller(auth, users) && id in repo.rows
    ensures s.response.status != OK ==> s.repo == repo
    ensures !IsAdminCaller(auth, users) ==> s.response == Handle(VerifyAdminRole(auth, users).value)
    ensures s.response.status == OK && InInt32Range(repo.rows[id].quantity + q) ==>
      s.response.body.SweetJson? && s.response.body.sweet.quantity == repo.rows[id].quantity + q
  {
    match VerifyAdminRole(auth, users)
    case Some(ex) => Served(repo, Handle(ex))
    case None =>
      var st := Service.RestockSweet(repo, id, q);
      match st.result
      case Failure(ex) => Served(repo, Handle(ex))
      case Success(sw) => Served(st.repo, Response(OK, SweetJson(MapToResponse(sw))))
  }

  /** A caller who is not an administrator cannot change the inventory
      through any admin endpoint, and is told why with a 400, or a 401 when
      its name is missing from the user store. */
  lemma NonAdminCannotMutate(repo: Repo, users: Users, auth: Option<Authentication>,
                             id: int, req: SweetRequest, q: Int32)
    requires !IsAdminCaller(auth, users)
    ensures AddSweet(repo, users, auth, req).repo == repo
    ensures UpdateSweet(repo, users, auth, id, req).repo == repo
    ensures DeleteSweet(repo, users, auth, id).repo == repo
    ensures RestockSweet(repo, users, auth, id, q).repo == repo
    ensures var st := DeleteSweet(repo, users, auth, id).response.status;
      st == BAD_REQUEST || st == UNAUTHORIZED
    ensures var st := RestockSweet(repo, users, auth, id, q).response.status;
      st == BAD_REQUEST || st == UNAUTHORIZED
    ensures IsValid(req) ==> var st := AddSweet(repo, users, auth, req).response.status;
      st == BAD_REQUEST || st == UNAUTHORIZED
    ensures IsValid(req) ==> var st := UpdateSweet(repo, users, auth, id, req).response.status;
      st == BAD_REQUEST || st == UNAUTHORIZED
    ensures !IsValid(req) ==> AddSweet(repo, users, auth, req).response.status == BAD_REQUEST
    ensures !IsValid(req) ==> UpdateSweet(repo, users, auth, id, req).response.status == BAD_REQUEST
    ensures IsAuthenticated(auth) && auth.value.name in users ==>
      ErrorField(RestockSweet(repo, users, auth, id, q).response.body) == Some(ONLY_ADMINS)
  {
  }

  /** If the restock request body accepts a negative quantity, an
      administrator can take a stock below zero: restocking by one less than
      minus the stock answers 200 with a stock of -1. */
  lemma AdminNegativeRestock(repo: Repo, users: Users, auth: Option<Authentication>, id: int)
    requires IsAdminCaller(auth, users)
    requires id in repo.rows && repo.rows[id].quantity >= 0
    ensures var s := RestockSweet(repo, users, auth, id, -1 - repo.rows[id].quantity);
      && s.response.status == OK
      && s.response.body.SweetJson? && s.response.body.sweet.quantity == -1
      && id in s.repo.rows && s.repo.rows[id].quantity == -1
  {
  }

  /** Purchasing does not consult the user store: an ordinary USER may buy. */
  lemma UserMayPurchase(repo: Repo, users: Users, auth: Option<Authentication>, id: int, q: Int32)
    requires IsAuthenticated(auth) && auth.value.name in users && users[auth.value.name].role == USER
    requires q >= 1 && id in repo.rows && q <= repo.rows[id].quantity
    ensures PurchaseSweet(repo, auth, id, PurchaseRequest(Some(q))).response.status == OK
    ensures !IsAdminCaller(auth, users)
  {
  }
}
