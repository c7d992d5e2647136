/** The client's inventory cache (`useSweetStore`). Every operation is one
    atomic transition: it first sets `isLoading` and clears `error`, then
    settles on the server's outcome, which is passed in explicitly. Success
    reconciles the cache with the server's answer; failure leaves the cached
    records alone, records a message and re-raises. */
module SweetStore {
  import opened Wrappers
  import opened Dto
  import opened Http

  /** A cached record is the JSON the server sent. */
  type Record = SweetResponse

  /** How a server call settles: the response data, or a rejection carrying
      the `error` field of the error body when there is one. */
  type Outcome<T> = Result<T, Option<string>>

  datatype State = State(
    sweets: seq<Record>,
    selectedSweet: Option<Record>,
    isLoading: bool,
    error: Option<string>)

  const Initial: State := State([], None, false, None)

  /** The store after the call, and what the call gives its caller: the
      value on success, the same rejection on failure. */
  datatype Settled<T> = Settled(state: State, returned: Outcome<T>)

  const FETCH_FAILED: string := "Failed to fetch sweets"
  const SEARCH_FAILED: string := "Search failed"
  const GET_FAILED: string := "Failed to fetch sweet"
  const ADD_FAILED: string := "Failed to add sweet"
  const UPDATE_FAILED: string := "Failed to update sweet"
  const DELETE_FAILED: string := "Failed to delete sweet"
  const PURCHASE_FAILED: string := "Failed to purchase sweet"
  const RESTOCK_FAILED: string := "Failed to restock sweet"

  /** `set({ isLoading: true, error: null })` at the start of every call. */
  function Begin(s: State): (b: State)
    ensures b.isLoading && b.error.None?
    ensures b.sweets == s.sweets && b.selectedSweet == s.selectedSweet
  {
    s.(isLoading := true, error := None)
  }

  /** The `catch` branch shared by every call. */
  function Reject<T>(b: State, field: Option<string>, fallback: string): (r: Settled<T>)
    ensures r.state == b.(isLoading := false, error := Some(ErrorMessage(field, fallback)))
    ensures r.returned == Failure(field)
  {
    Settled(b.(error := Some(ErrorMessage(field, fallback)), isLoading := false), Failure(field))
  }

  // ---- reconciliation of the cache with a server answer ----

  /** `sweets.map(s => s.id === id ? updated : s)`. */
  function ReplaceById(xs: seq<Record>, id: int, v: Record): (ys: seq<Record>)
    ensures |ys| == |xs|
    ensures forall i :: 0 <= i < |xs| && xs[i].id == id ==> ys[i] == v
    ensures forall i :: 0 <= i < |xs| && xs[i].id != id ==> ys[i] == xs[i]
    decreases |xs|
  {
    if xs == [] then []
    else (if xs[0].id == id then [v] else [xs[0]]) + ReplaceById(xs[1..], id, v)
  }

  /** `sweets.filter(s => s.id !== id)`. */
  function RemoveId(xs: seq<Record>, id: int): (ys: seq<Record>)
    ensures forall y :: y in ys ==> y in xs && y.id != id
    ensures forall x :: x in xs && x.id != id ==> x in ys
    ensures |ys| <= |xs|
    decreases |xs|
  {
    if xs == [] then []
    else (if xs[0].id == id then [] else [xs[0]]) + RemoveId(xs[1..], id)
  }

  predicate NoneWithId(xs: seq<Record>, id: int) {
    forall i :: 0 <= i < |xs| ==> xs[i].id != id
  }

  /** Replacing an id the cache does not hold changes nothing. */
  lemma ReplaceAbsentIsNoOp(xs: seq<Record>, id: int, v: Record)
    requires NoneWithId(xs, id)
    ensures ReplaceById(xs, id, v) == xs
  {
  }

  /** Removing an id the cache does not hold changes nothing. */
  lemma {:induction false} RemoveAbsentIsNoOp(xs: seq<Record>, id: int)
    requires NoneWithId(xs, id)
    ensures RemoveId(xs, id) == xs
    decreases |xs|
  {
    if xs != [] {
      RemoveAbsentIsNoOp(xs[1..], id);
      assert xs == [xs[0]] + xs[1..];
    }
  }

  /** Removal keeps the surviving records in their order: it distributes over
      concatenation. */
  lemma {:induction false} RemoveIdConcat(a: seq<Record>, b: seq<Record>, id: int)
    ensures RemoveId(a + b, id) == RemoveId(a, id) + RemoveId(b, id)
    decreases |a|
  {
    if a == [] {
      assert a + b == b;
    } else {
      var head := if a[0].id == id then [] else [a[0]];
      assert (a + b)[1..] == a[1..] + b;
      assert (a + b)[0] == a[0];
      calc {
        RemoveId(a + b, id);
        head + RemoveId(a[1..] + b, id);
        { RemoveIdConcat(a[1..], b, id); }
        head + (RemoveId(a[1..], id) + RemoveId(b, id));
        (head + RemoveId(a[1..], id)) + RemoveId(b, id);
        RemoveId(a, id) + RemoveId(b, id);
      }
    }
  }

  /** Removing twice is removing once. */
  lemma RemoveIdIdempotent(xs: seq<Record>, id: int)
    ensures RemoveId(RemoveId(xs, id), id) == RemoveId(xs, id)
  {
    var ys := RemoveId(xs, id);
    forall i | 0 <= i < |ys| ensures ys[i].id != id {
      assert ys[i] in ys;
    }
    RemoveAbsentIsNoOp(ys, id);
  }

  // ---- the operations ----

  /** `fetchSweets`: success replaces the whole list. */
  function FetchSweets(s: State, o: Outcome<seq<Record>>): (r: Settled<seq<Record>>)
    ensures !r.state.isLoading && r.returned == o && r.state.selectedSweet == s.selectedSweet
    ensures o.Success? ==> r.state.sweets == o.value && r.state.error.None?
    ensures o.Failure? ==> r.state.sweets == s.sweets && r.state.error == Some(ErrorMessage(o.error, FETCH_FAILED))
  {
    var b := Begin(s);
    match o
    case Success(list) => Settled(b.(sweets := list, isLoading := false), o)
    case Failure(e) => Reject(b, e, FETCH_FAILED)
  }

  /** `searchSweets(params)`: the parameters only go to the server; success
      replaces the whole list with its answer. */
  function SearchSweets<P>(s: State, params: P, o: Outcome<seq<Record>>): (r: Settled<seq<Record>>)
    ensures !r.state.isLoading && r.returned == o && r.state.selectedSweet == s.selectedSweet
    ensures o.Success? ==> r.state.sweets == o.value && r.state.error.None?
    ensures o.Failure? ==> r.state.sweets == s.sweets && r.state.error == Some(ErrorMessage(o.error, SEARCH_FAILED))
  {
    var b := Begin(s);
    match o
    case Success(list) => Settled(b.(sweets := list, isLoading := false), o)
    case Failure(e) => Reject(b, e, SEARCH_FAILED)
  }

  /** `getSweetById`: success touches only `selectedSweet`. */
  function GetSweetById(s: State, id: int, o: Outcome<Record>): (r: Settled<Record>)
    ensures !r.state.isLoading && r.returned == o && r.state.sweets == s.sweets
    ensures o.Success? ==> r.state.selectedSweet == Some(o.value) && r.state.error.None?
    ensures o.Failure? ==>
      r.state.selectedSweet == s.selectedSweet && r.state.error == Some(ErrorMessage(o.error, GET_FAILED))
  {
    var b := Begin(s);
    match o
    case Success(v) => Settled(b.(selectedSweet := Some(v), isLoading := false), o)
    case Failure(e) => Reject(b, e, GET_FAILED)
  }

  /** `addSweet`: success appends the created record. */
  function AddSweet(s: State, o: Outcome<Record>): (r: Settled<Record>)
    ensures !r.state.isLoading && r.returned == o && r.state.selectedSweet == s.selectedSweet
    ensures o.Success? ==>
      && |r.state.sweets| == |s.sweets| + 1
      && r.state.sweets[..|s.sweets|] == s.sweets
      && r.state.sweets[|s.sweets|] == o.value
      && r.state.error.None?
    ensures o.Failure? ==> r.state.sweets == s.sweets && r.state.error == Some(ErrorMessage(o.error, ADD_FAILED))
  {
    var b := Begin(s);
    match o
    case Success(v) =>
      var sweets := s.sweets + [v];
      assert sweets[..|s.sweets|] == s.sweets;
      Settled(b.(sweets := sweets, isLoading := false), o)
    case Failure(e) => Reject(b, e, ADD_FAILED)
  }

  /** The shared success branch of update, purchase and restock. */
  function Replace(s: State, id: int, o: Outcome<Record>, fallback: string): (r: Settled<Record>)
    ensures !r.state.isLoading && r.returned == o && r.state.selectedSweet == s.selectedSweet
    ensures o.Success? ==> r.state.sweets == ReplaceById(s.sweets, id, o.value) && r.state.error.None?
    ensures o.Failure? ==> r.state.sweets == s.sweets && r.state.error == Some(ErrorMessage(o.error, fallback))
  {
    var b := Begin(s);
    match o
    case Success(v) => Settled(b.(sweets := ReplaceById(s.sweets, id, v), isLoading := false), o)
    case Failure(e) => Reject(b, e, fallback)
  }

  /** `updateSweet(id, data)`: the data only goes to the server. */
  function UpdateSweet<D>(s: State, id: int, data: D, o: Outcome<Record>): (r: Settled<Record>)
    ensures !r.state.isLoading && r.returned == o && r.state.selectedSweet == s.selectedSweet
    ensures o.Success? ==> r.state.sweets == ReplaceById(s.sweets, id, o.value) && r.state.error.None?
    ensures o.Failure? ==> r.state.sweets == s.sweets && r.state.error == Some(ErrorMessage(o.error, UPDATE_FAILED))
  {
    Replace(s, id, o, UPDATE_FAILED)
  }

  /** `purchaseSweet(id, quantity)`: the quantity only goes to the server,
      which alone decides the new stock. */
  function PurchaseSweet(s: State, id: int, quantity: int, o: Outcome<Record>): (r: Settled<Record>)
    ensures !r.state.isLoading && r.returned == o && r.state.selectedSweet == s.selectedSweet
    ensures o.Success? ==> r.state.sweets == ReplaceById(s.sweets, id, o.value) && r.state.error.None?
    ensures o.Failure? ==> r.state.sweets == s.sweets && r.state.error == Some(ErrorMessage(o.error, PURCHASE_FAILED))
  {
    Replace(s, id, o, PURCHASE_FAILED)
  }

  /** `restockSweet(id, quantity)`: the quantity only goes to the server, as
      it was parsed (possibly `NaN`, sent as null). */
  function RestockSweet<Q>(s: State, id: int, quantity: Q, o: Outcome<Record>): (r: Settled<Record>)
    ensures !r.state.isLoading && r.returned == o && r.state.selectedSweet == s.selectedSweet
    ensures o.Success? ==> r.state.sweets == ReplaceById(s.sweets, id, o.value) && r.state.error.None?
    ensures o.Failure? ==> r.state.sweets == s.sweets && r.state.error == Some(ErrorMessage(o.error, RESTOCK_FAILED))
  {
    Replace(s, id, o, RESTOCK_FAILED)
  }

  /** `deleteSweet(id)`: success filters the id out. */
  function DeleteSweet(s: State, id: int, o: Outcome<()>): (r: Settled<()>)
    ensures !r.state.isLoading && r.returned == o && r.state.selectedSweet == s.selectedSweet
    ensures o.Success? ==> r.state.sweets == RemoveId(s.sweets, id) && r.state.error.None?
    ensures o.Failure? ==> r.state.sweets == s.sweets && r.state.error == Some(ErrorMessage(o.error, DELETE_FAILED))
  {
    var b := Begin(s);
    match o
    case Success(_) => Settled(b.(sweets := RemoveId(s.sweets, id), isLoading := false), o)
    case Failure(e) => Reject(b, e, DELETE_FAILED)
  }

  /** `clearError`. */
  function ClearError(s: State): (r: State)
    ensures r.error.None?
    ensures r.sweets == s.sweets && r.selectedSweet == s.selectedSweet && r.isLoading == s.isLoading
  {
    s.(error := None)
  }

  // ---- properties of the cache ----

  /** A successful update, purchase or restock keeps the length, puts the
      server's record at every position holding that id and leaves the
      others alone; for an id the cache does not hold it is a no-op. */
  lemma ReplaceReconciles(s: State, id: int, q: int, v: Record)
    ensures var after := PurchaseSweet(s, id, q, Success(v)).state.sweets;
      && |after| == |s.sweets|
      && (forall i :: 0 <= i < |s.sweets| ==> after[i] == if s.sweets[i].id == id then v else s.sweets[i])
      && (NoneWithId(s.sweets, id) ==> after == s.sweets)
  {
  }

  /** A successful delete leaves no record with that id, keeps every other
      record, and deleting again changes nothing. */
  lemma DeleteReconciles(s: State, id: int)
    ensures var once := DeleteSweet(s, id, Success(())).state;
      && NoneWithId(once.sweets, id)
      && (forall x :: x in s.sweets && x.id != id ==> x in once.sweets)
      && DeleteSweet(once, id, Success(())).state.sweets == once.sweets
  {
    var once := DeleteSweet(s, id, Success(())).state;
    forall i | 0 <= i < |once.sweets| ensures once.sweets[i].id != id {
      assert once.sweets[i] in once.sweets;
    }
    RemoveIdIdempotent(s.sweets, id);
  }

  /** Every failed call is a full no-op on the cached records and the
      selection; only `error` and `isLoading` move. */
  lemma FailureKeepsCache<P, D, Q>(s: State, id: int, q: int, params: P, data: D, amount: Q, e: Option<string>)
    ensures FetchSweets(s, Failure(e)).state == s.(isLoading := false, error := Some(ErrorMessage(e, FETCH_FAILED)))
    ensures SearchSweets(s, params, Failure(e)).state == s.(isLoading := false, error := Some(ErrorMessage(e, SEARCH_FAILED)))
    ensures GetSweetById(s, id, Failure(e)).state == s.(isLoading := false, error := Some(ErrorMessage(e, GET_FAILED)))
    ensures AddSweet(s, Failure(e)).state == s.(isLoading := false, error := Some(ErrorMessage(e, ADD_FAILED)))
    ensures UpdateSweet(s, id, data, Failure(e)).state == s.(isLoading := false, error := Some(ErrorMessage(e, UPDATE_FAILED)))
    ensures PurchaseSweet(s, id, q, Failure(e)).state == s.(isLoading := false, error := Some(ErrorMessage(e, PURCHASE_FAILED)))
    ensures RestockSweet(s, id, amount, Failure(e)).state == s.(isLoading := false, error := Some(ErrorMessage(e, RESTOCK_FAILED)))
    ensures DeleteSweet(s, id, Failure(e)).state == s.(isLoading := false, error := Some(ErrorMessage(e, DELETE_FAILED)))
  {
  }

  /** Creating a record, updating it under the id the server gave it and
      deleting it leaves the cache exactly as it was. */
  lemma {:induction false} AddUpdateDeleteRoundTrip(s: State, created: Record, updated: Record)
    requires NoneWithId(s.sweets, created.id)
    requires updated.id == created.id
    ensures var s1 := AddSweet(s, Success(created)).state;
      var s2 := UpdateSweet(s1, created.id, (), Success(updated)).state;
      DeleteSweet(s2, created.id, Success(())).state.sweets == s.sweets
  {
    var id := created.id;
    var s1 := AddSweet(s, Success(created)).state;
    assert s1.sweets == s.sweets + [created];
    var replaced := ReplaceById(s.sweets + [created], id, updated);
    assert replaced == s.sweets + [updated];
    RemoveIdConcat(s.sweets, [updated], id);
    RemoveAbsentIsNoOp(s.sweets, id);
    assert RemoveId([updated], id) == [];
  }
}
