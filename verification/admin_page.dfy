/** `AdminPage`: the add/edit form and the quick-restock entries. The page's
    number parsing (`parseFloat`, `parseInt`, `Number`) is passed in; `NaN`
    is `None` and travels to the server as JSON null. */
module AdminPage {
  import opened Wrappers
  import opened JavaLang
  import opened Dto
  import SweetStore

  /** A numeric form field: text the admin typed, or the number `handleEdit`
      copied from a record (which `parseFloat`/`parseInt` give back as is). */
  datatype Entry<T> = Typed(text: string) | Copied(value: T)

  datatype FormData = FormData(
    name: string,
    category: string,
    price: Entry<real>,
    quantity: Entry<Int32>,
    description: string)

  const EMPTY_FORM: FormData := FormData("", "", Typed(""), Typed(""), "")

  /** The page's local state; `restockData` maps a record id to its restock
      entry's text. */
  datatype Page = Page(
    isAddingNew: bool,
    editingId: Option<int>,
    formData: FormData,
    restockData: map<int, string>)

  const INITIAL_PAGE: Page := Page(false, None, EMPTY_FORM, map[])

  datatype NumberParsing = NumberParsing(
    parseFloat: string -> Option<real>,
    parseInt: string -> Option<Int32>,
    toNumber: string -> Option<real>)

  /** `handleEdit(sweet)`: copy the record into the form and open it. */
  function HandleEdit(page: Page, sweet: SweetResponse): (r: Page)
    ensures r.isAddingNew && r.editingId == Some(sweet.id)
    ensures r.formData.name == sweet.name && r.formData.category == sweet.category
    ensures r.formData.price == Copied(sweet.price) && r.formData.quantity == Copied(sweet.quantity)
    ensures r.formData.description == sweet.description
    ensures r.restockData == page.restockData
  {
    page.(editingId := Some(sweet.id),
          formData := FormData(sweet.name, sweet.category, Copied(sweet.price), Copied(sweet.quantity), sweet.description),
          isAddingNew := true)
  }

  /** `resetForm()`: every field empty, not editing, form closed. */
  function ResetForm(page: Page): (r: Page)
    ensures r.formData == EMPTY_FORM && r.formData.name == "" && r.formData.description == ""
    ensures r.editingId.None? && !r.isAddingNew
    ensures r.restockData == page.restockData
  {
    Page(false, None, EMPTY_FORM, page.restockData)
  }

  function Parse<T>(e: Entry<T>, parse: string -> Option<T>): (v: Option<T>)
    ensures e.Copied? ==> v == Some(e.value)
  {
    match e
    case Typed(t) => parse(t)
    case Copied(v) => Some(v)
  }

  /** The JSON body `handleSubmit` sends: the form with the price and the
      quantity parsed. */
  function Payload(form: FormData, parsing: NumberParsing): (req: SweetRequest)
    ensures req.name == Some(form.name) && req.category == Some(form.category)
    ensures req.description == Some(form.description)
    ensures req.price == Parse(form.price, parsing.parseFloat)
    ensures req.quantity == Parse(form.quantity, parsing.parseInt)
  {
    SweetRequest(Some(form.name), Some(form.category), Parse(form.price, parsing.parseFloat),
                 Parse(form.quantity, parsing.parseInt), Some(form.description))
  }

  /** The store call `handleSubmit` makes. */
  datatype Call = CallUpdate(id: int, payload: SweetRequest) | CallAdd(payload: SweetRequest)

  datatype Submitted = Submitted(page: Page, store: SweetStore.State, call: Call)

  /** `handleSubmit`: update when an id is being edited (`if (editingId)`, so
      the id 0 counts as none), add otherwise; reset the form only when the
      store call succeeds. */
  function HandleSubmit(page: Page, store: SweetStore.State, parsing: NumberParsing,
                        o: SweetStore.Outcome<SweetResponse>): (r: Submitted)
    ensures var payload := Payload(page.formData, parsing);
      r.call == (if page.editingId.Some? && page.editingId.value != 0
                 then CallUpdate(page.editingId.value, payload) else CallAdd(payload))
    ensures r.call.CallUpdate? ==> r.store == SweetStore.UpdateSweet(store, r.call.id, r.call.payload, o).state
    ensures r.call.CallAdd? ==> r.store == SweetStore.AddSweet(store, o).state
    ensures o.Success? ==> r.page == ResetForm(page)
    ensures o.Failure? ==> r.page == page && r.store.sweets == store.sweets
  {
    var payload := Payload(page.formData, parsing);
    if page.editingId.Some? && page.editingId.value != 0 then
      var settled := SweetStore.UpdateSweet(store, page.editingId.value, payload, o);
      Submitted(if settled.returned.Success? then ResetForm(page) else page, settled.state,
                CallUpdate(page.editingId.value, payload))
    else
      var settled := SweetStore.AddSweet(store, o);
      Submitted(if settled.returned.Success? then ResetForm(page) else page, settled.state, CallAdd(payload))
  }

  /** Editing a record and submitting without touching the form sends that
      record's own fields back under its id, whatever the number parsing. */
  lemma EditThenSubmitSendsRecord(page: Page, store: SweetStore.State, sweet: SweetResponse,
                                  parsing: NumberParsing, o: SweetStore.Outcome<SweetResponse>)
    requires sweet.id != 0
    ensures HandleSubmit(HandleEdit(page, sweet), store, parsing, o).call ==
      CallUpdate(sweet.id, SweetRequest(Some(sweet.name), Some(sweet.category), Some(sweet.price),
                                        Some(sweet.quantity), Some(sweet.description)))
  {
  }

  const INVALID_QUANTITY: string := "Please enter a valid quantity"

  /** `!quantity || quantity <= 0`: no entry or an empty one, or text that
      converts to a number at most 0. `NaN <= 0` is false, so text that is
      not a number passes. */
  predicate RestockRefused(entry: Option<string>, parsing: NumberParsing) {
    || entry.None?
    || entry.value == ""
    || (parsing.toNumber(entry.value).Some? && parsing.toNumber(entry.value).value <= 0.0)
  }

  datatype RestockCall = Alerted | Called(quantity: Option<Int32>)

  datatype Restocked = Restocked(page: Page, store: SweetStore.State, call: RestockCall)

  /** `handleRestock(id)`: a refused entry only alerts; otherwise the store
      restocks with `parseInt(entry)`, and on success that entry is emptied. */
  function HandleRestock(page: Page, store: SweetStore.State, id: int, parsing: NumberParsing,
                         o: SweetStore.Outcome<SweetResponse>): (r: Restocked)
    ensures r.call == Alerted <==> RestockRefused(if id in page.restockData then Some(page.restockData[id]) else None, parsing)
    ensures r.call == Alerted ==> r.page == page && r.store == store
    ensures r.call.Called? ==> r.call.quantity == parsing.parseInt(page.restockData[id])
    ensures r.call.Called? ==> r.store == SweetStore.RestockSweet(store, id, r.call.quantity, o).state
    ensures r.call.Called? && o.Success? ==> r.page == page.(restockData := page.restockData[id := ""])
    ensures r.call.Called? && o.Failure? ==> r.page == page
  {
    var entry := if id in page.restockData then Some(page.restockData[id]) else None;
    if RestockRefused(entry, parsing) then Restocked(page, store, Alerted)
    else
      var q := parsing.parseInt(entry.value);
      var settled := SweetStore.RestockSweet(store, id, q, o);
      var next := if settled.returned.Success? then page.(restockData := page.restockData[id := ""]) else page;
      Restocked(next, settled.state, Called(q))
  }

  /** A successful restock empties its own entry and no other, so the same
      click again is refused without reaching the server. */
  lemma RestockClearsOnlyItsEntry(page: Page, store: SweetStore.State, id: int, other: int,
                                  parsing: NumberParsing, v: SweetResponse)
    requires other != id && other in page.restockData
    requires HandleRestock(page, store, id, parsing, Success(v)).call.Called?
    ensures var r := HandleRestock(page, store, id, parsing, Success(v));
      other in r.page.restockData && r.page.restockData[other] == page.restockData[other]
    ensures var r := HandleRestock(page, store, id, parsing, Success(v));
      HandleRestock(r.page, r.store, id, parsing, Success(v)).call == Alerted
  {
  }
}
