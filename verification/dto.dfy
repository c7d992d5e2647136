/** The request and response bodies of the sweet endpoints, with the Bean
    Validation constraints of the two request types as predicates. A Java
    field that may be `null` is an `Option`. */
module Dto {
  import opened JavaLang
  import opened Wrappers
  import opened Exceptions

  /** The body of `POST /sweets` and `PUT /sweets/{id}`. */
  datatype SweetRequest = SweetRequest(
    name: Option<string>,
    category: Option<string>,
    price: Option<real>,
    quantity: Option<Int32>,
    description: Option<string>)

  /** The body of `POST /sweets/{id}/purchase`. */
  datatype PurchaseRequest = PurchaseRequest(quantity: Option<Int32>)

  /** The record the server sends back for a sweet (timestamps not modelled);
      the client caches these. */
  datatype SweetResponse = SweetResponse(
    id: int,
    name: string,
    category: string,
    price: real,
    quantity: Int32,
    description: string)

  // ---- the constraints, one predicate per field ----

  /** `@NotBlank` + `@Size(min = 2, max = 100)`. */
  predicate NameOk(v: Option<string>) {
    v.Some? && !IsBlank(v.value) && 2 <= |v.value| <= 100
  }

  /** `@NotBlank` only: no length limit. */
  predicate CategoryOk(v: Option<string>) {
    v.Some? && !IsBlank(v.value)
  }

  /** `@NotNull` + `@DecimalMin("0.01")`, inclusive. */
  predicate PriceOk(v: Option<real>) {
    v.Some? && v.value >= 0.01
  }

  /** `@NotNull` + `@Min(0)`: an empty stock is accepted. */
  predicate QuantityOk(v: Option<Int32>) {
    v.Some? && v.value >= 0
  }

  /** `@NotBlank` + `@Size(min = 10, max = 500)`. */
  predicate DescriptionOk(v: Option<string>) {
    v.Some? && !IsBlank(v.value) && 10 <= |v.value| <= 500
  }

  predicate IsValid(r: SweetRequest) {
    NameOk(r.name) && CategoryOk(r.category) && PriceOk(r.price)
    && QuantityOk(r.quantity) && DescriptionOk(r.description)
  }

  /** Every field present: what the service needs to build an entity. */
  predicate IsComplete(r: SweetRequest) {
    r.name.Some? && r.category.Some? && r.price.Some? && r.quantity.Some? && r.description.Some?
  }

  // ---- the individual constraint checks, with Hibernate's null rules ----

  /** `@NotBlank`: null fails. */
  function NotBlank(v: Option<string>, field: string, message: string): seq<FieldError> {
    if v.Some? && !IsBlank(v.value) then [] else [FieldError(field, message)]
  }

  /** `@Size`: null passes. */
  function SizeBetween(v: Option<string>, lo: nat, hi: nat, field: string, message: string): seq<FieldError> {
    if v.None? || lo <= |v.value| <= hi then [] else [FieldError(field, message)]
  }

  /** `@NotNull`: null fails. */
  function NotNull<T>(v: Option<T>, field: string, message: string): seq<FieldError> {
    if v.Some? then [] else [FieldError(field, message)]
  }

  /** `@DecimalMin` / `@Min`: null passes, the bound is inclusive. */
  function AtLeast(v: Option<real>, bound: real, field: string, message: string): seq<FieldError> {
    if v.None? || v.value >= bound then [] else [FieldError(field, message)]
  }

  function FieldsOf(errs: seq<FieldError>): set<string> {
    set e | e in errs :: e.field
  }

  lemma FieldsOfConcat(a: seq<FieldError>, b: seq<FieldError>)
    ensures FieldsOf(a + b) == FieldsOf(a) + FieldsOf(b)
  {
  }

  function QuantityAsReal(v: Option<Int32>): Option<real> {
    if v.Some? then Some(v.value as real) else None
  }

  // ---- the violations of each field, in the order the annotations are written ----

  const NAME_REQUIRED: string := "Name is required"
  const NAME_SIZE: string := "Name must be between 2 and 100 characters"
  const CATEGORY_REQUIRED: string := "Category is required"
  const PRICE_REQUIRED: string := "Price is required"
  const PRICE_MIN: string := "Price must be greater than 0"
  const QUANTITY_REQUIRED: string := "Quantity is required"
  const QUANTITY_MIN: string := "Quantity cannot be negative"
  const DESCRIPTION_REQUIRED: string := "Description is required"
  const DESCRIPTION_SIZE: string := "Description must be between 10 and 500 characters"

  function NameViolations(v: Option<string>): (errs: seq<FieldError>)
    ensures errs == [] <==> NameOk(v)
    ensures FieldsOf(errs) <= {"name"}
    ensures forall e :: e in errs ==> e.field == "name"
    ensures FieldError("name", NAME_REQUIRED) in errs <==> v.None? || IsBlank(v.value)
    ensures FieldError("name", NAME_SIZE) in errs <==> v.Some? && !(2 <= |v.value| <= 100)
  {
    NotBlank(v, "name", NAME_REQUIRED) + SizeBetween(v, 2, 100, "name", NAME_SIZE)
  }

  function CategoryViolations(v: Option<string>): (errs: seq<FieldError>)
    ensures errs == [] <==> CategoryOk(v)
    ensures FieldsOf(errs) <= {"category"}
    ensures forall e :: e in errs ==> e.field == "category"
    ensures FieldError("category", CATEGORY_REQUIRED) in errs <==> v.None? || IsBlank(v.value)
  {
    NotBlank(v, "category", CATEGORY_REQUIRED)
  }

  function PriceViolations(v: Option<real>): (errs: seq<FieldError>)
    ensures errs == [] <==> PriceOk(v)
    ensures FieldsOf(errs) <= {"price"}
    ensures forall e :: e in errs ==> e.field == "price"
    ensures FieldError("price", PRICE_REQUIRED) in errs <==> v.None?
    ensures FieldError("price", PRICE_MIN) in errs <==> v.Some? && v.value < 0.01
  {
    NotNull(v, "price", PRICE_REQUIRED) + AtLeast(v, 0.01, "price", PRICE_MIN)
  }

  function QuantityViolations(v: Option<Int32>): (errs: seq<FieldError>)
    ensures errs == [] <==> QuantityOk(v)
    ensures FieldsOf(errs) <= {"quantity"}
    ensures forall e :: e in errs ==> e.field == "quantity"
    ensures FieldError("quantity", QUANTITY_REQUIRED) in errs <==> v.None?
    ensures FieldError("quantity", QUANTITY_MIN) in errs <==> v.Some? && v.value < 0
  {
    NotNull(v, "quantity", QUANTITY_REQUIRED) + AtLeast(QuantityAsReal(v), 0.0, "quantity", QUANTITY_MIN)
  }

  function DescriptionViolations(v: Option<string>): (errs: seq<FieldError>)
    ensures errs == [] <==> DescriptionOk(v)
    ensures FieldsOf(errs) <= {"description"}
    ensures forall e :: e in errs ==> e.field == "description"
    ensures FieldError("description", DESCRIPTION_REQUIRED) in errs <==> v.None? || IsBlank(v.value)
    ensures FieldError("description", DESCRIPTION_SIZE) in errs <==> v.Some? && !(10 <= |v.value| <= 500)
  {
    NotBlank(v, "description", DESCRIPTION_REQUIRED) + SizeBetween(v, 10, 500, "description", DESCRIPTION_SIZE)
  }

  /** Non-empty errors for one field put exactly that field in the set. */
  lemma OneField(errs: seq<FieldError>, f: string)
    requires FieldsOf(errs) <= {f}
    ensures errs == [] <==> f !in FieldsOf(errs)
  {
    if errs != [] {
      assert errs[0] in errs;
      assert errs[0].field in FieldsOf(errs);
    }
  }

  const FIELD_NAMES: set<string> := {"name", "category", "price", "quantity", "description"}

  /** Five per-field error lists, concatenated, report exactly the union of
      their fields. */
  lemma FiveFieldsUnion(n: seq<FieldError>, c: seq<FieldError>, p: seq<FieldError>,
                        q: seq<FieldError>, d: seq<FieldError>)
    ensures FieldsOf(n + c + p + q + d)
         == FieldsOf(n) + FieldsOf(c) + FieldsOf(p) + FieldsOf(q) + FieldsOf(d)
  {
  }

  /** Five per-field error lists, concatenated: a field is reported iff its
      own list is non-empty. */
  lemma FiveFields(n: seq<FieldError>, c: seq<FieldError>, p: seq<FieldError>,
                   q: seq<FieldError>, d: seq<FieldError>)
    requires FieldsOf(n) <= {"name"} && FieldsOf(c) <= {"category"} && FieldsOf(p) <= {"price"}
    requires FieldsOf(q) <= {"quantity"} && FieldsOf(d) <= {"description"}
    ensures n + c + p + q + d == [] <==> (n == [] && c == [] && p == [] && q == [] && d == [])
    ensures FieldsOf(n + c + p + q + d) <= FIELD_NAMES
    ensures "name" in FieldsOf(n + c + p + q + d) <==> n != []
    ensures "category" in FieldsOf(n + c + p + q + d) <==> c != []
    ensures "price" in FieldsOf(n + c + p + q + d) <==> p != []
    ensures "quantity" in FieldsOf(n + c + p + q + d) <==> q != []
    ensures "description" in FieldsOf(n + c + p + q + d) <==> d != []
  {
    FiveFieldsUnion(n, c, p, q, d);
    OneField(n, "name");
    OneField(c, "category");
    OneField(p, "price");
    OneField(q, "quantity");
    OneField(d, "description");
    assert |n + c + p + q + d| == |n| + |c| + |p| + |q| + |d|;
    assert "category"[0] != "quantity"[0];
    assert |"name"| == 4 && |"price"| == 5 && |"category"| == 8 && |"quantity"| == 8 && |"description"| == 11;
  }

  /** The violations of a `SweetRequest`. Bean Validation reports them in no
      particular order; this list is in declaration order, and nothing that
      consumes it depends on the order. */
  function SweetRequestViolations(r: SweetRequest): (errs: seq<FieldError>)
    ensures errs == [] <==> IsValid(r)
    ensures FieldsOf(errs) <= FIELD_NAMES
    ensures "name" in FieldsOf(errs) <==> !NameOk(r.name)
    ensures "category" in FieldsOf(errs) <==> !CategoryOk(r.category)
    ensures "price" in FieldsOf(errs) <==> !PriceOk(r.price)
    ensures "quantity" in FieldsOf(errs) <==> !QuantityOk(r.quantity)
    ensures "description" in FieldsOf(errs) <==> !DescriptionOk(r.description)
  {
    var n, c, p, q, d := NameViolations(r.name), CategoryViolations(r.category),
      PriceViolations(r.price), QuantityViolations(r.quantity), DescriptionViolations(r.description);
    FiveFields(n, c, p, q, d);
    n + c + p + q + d
  }

  /** Each failing constraint yields its own message under its own field:
      `NotBlank` and `Size` on the same string report independently, so an
      empty name carries both of its messages. */
  lemma ViolationMessages(r: SweetRequest)
    ensures var errs := SweetRequestViolations(r);
      && (FieldError("name", NAME_REQUIRED) in errs <==> r.name.None? || IsBlank(r.name.value))
      && (FieldError("name", NAME_SIZE) in errs <==> r.name.Some? && !(2 <= |r.name.value| <= 100))
      && (FieldError("category", CATEGORY_REQUIRED) in errs <==> r.category.None? || IsBlank(r.category.value))
      && (FieldError("price", PRICE_REQUIRED) in errs <==> r.price.None?)
      && (FieldError("price", PRICE_MIN) in errs <==> r.price.Some? && r.price.value < 0.01)
      && (FieldError("quantity", QUANTITY_REQUIRED) in errs <==> r.quantity.None?)
      && (FieldError("quantity", QUANTITY_MIN) in errs <==> r.quantity.Some? && r.quantity.value < 0)
      && (FieldError("description", DESCRIPTION_REQUIRED) in errs <==> r.description.None? || IsBlank(r.description.value))
      && (FieldError("description", DESCRIPTION_SIZE) in errs <==> r.description.Some? && !(10 <= |r.description.value| <= 500))
  {
  }

  /** `@NotNull` + `@Min(1)` on the purchase quantity. */
  function PurchaseRequestViolations(r: PurchaseRequest): (errs: seq<FieldError>)
    ensures errs == [] <==> (r.quantity.Some? && r.quantity.value >= 1)
    ensures r.quantity.None? ==> errs == [FieldError("quantity", "Quantity is required")]
    ensures r.quantity.Some? && r.quantity.value <= 0 ==> errs == [FieldError("quantity", "Quantity must be at least 1")]
  {
    NotNull(r.quantity, "quantity", "Quantity is required")
    + AtLeast(QuantityAsReal(r.quantity), 1.0, "quantity", "Quantity must be at least 1")
  }

  /** An empty category is refused even though no length limit applies to it. */
  lemma EmptyCategoryRefused(r: SweetRequest)
    requires r.category == Some("")
    ensures !IsValid(r)
    ensures "category" in FieldsOf(SweetRequestViolations(r))
  {
  }

  /** The boundary values all pass: a two-letter name, a price of exactly
      0.01, an empty stock and a ten-character description. */
  lemma BoundaryRequestIsValid()
    ensures IsValid(SweetRequest(Some("ab"), Some("c"), Some(0.01), Some(0), Some("abcdefghij")))
  {
    assert "ab"[0] == 'a';
    assert "c"[0] == 'c';
    assert "abcdefghij"[0] == 'a';
  }
}
