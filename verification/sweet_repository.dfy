/** `SweetRepository`: the stored sweets as a map from id to record, the JPQL
    `search` query and the three derived finders. */
module SweetRepository {
  import opened Wrappers
  import opened JavaLang
  import opened Sweets

  /** The table, and the next value the IDENTITY column hands out. */
  datatype Repo = Repo(rows: map<int, Sweet>, nextId: int)

  /** Every row is stored under its own id, and every id handed out so far
      is below `nextId`. */
  predicate Valid(r: Repo) {
    r.nextId >= 1 && forall k :: k in r.rows ==> 1 <= k < r.nextId && r.rows[k].id == k
  }

  // ---- the four conjuncts of the `search` query; a null argument matches everything ----

  /** `s.name ILIKE %:name%`. */
  predicate NameMatches(s: Sweet, name: Option<string>) {
    name.None? || ContainsIgnoreCase(s.name, name.value)
  }

  /** `s.category = :category`: exact, case-sensitive. */
  predicate CategoryMatches(s: Sweet, category: Option<string>) {
    category.None? || s.category == category.value
  }

  /** `s.price >= :minPrice`. */
  predicate AboveMin(s: Sweet, minPrice: Option<real>) {
    minPrice.None? || s.price >= minPrice.value
  }

  /** `s.price <= :maxPrice`. */
  predicate BelowMax(s: Sweet, maxPrice: Option<real>) {
    maxPrice.None? || s.price <= maxPrice.value
  }

  predicate Matches(s: Sweet, name: Option<string>, category: Option<string>,
                    minPrice: Option<real>, maxPrice: Option<real>) {
    NameMatches(s, name) && CategoryMatches(s, category)
    && AboveMin(s, minPrice) && BelowMax(s, maxPrice)
  }

  /** The rows `search(name, category, minPrice, maxPrice)` returns: a stored
      row is in the result iff all four null-or-match conjuncts of the query
      hold of it, and it is returned unchanged. */
  function Search(r: Repo, name: Option<string>, category: Option<string>,
                  minPrice: Option<real>, maxPrice: Option<real>): (m: map<int, Sweet>)
    ensures m.Keys <= r.rows.Keys && forall k :: k in m ==> m[k] == r.rows[k]
    ensures forall k :: k in m <==>
      && k in r.rows
      && (name.None? || ContainsIgnoreCase(r.rows[k].name, name.value))
      && (category.None? || r.rows[k].category == category.value)
      && (minPrice.None? || r.rows[k].price >= minPrice.value)
      && (maxPrice.None? || r.rows[k].price <= maxPrice.value)
  {
    map k | k in r.rows && Matches(r.rows[k], name, category, minPrice, maxPrice) :: r.rows[k]
  }

  function FindAll(r: Repo): map<int, Sweet> {
    r.rows
  }

  function FindById(r: Repo, id: int): (o: Option<Sweet>)
    ensures o.Some? <==> id in r.rows
    ensures o.Some? ==> o.value == r.rows[id] && o.value in r.rows.Values
  {
    if id in r.rows then Some(r.rows[id]) else None
  }

  /** `findByNameContainingIgnoreCase`. */
  function FindByNameContainingIgnoreCase(r: Repo, name: string): (m: map<int, Sweet>)
    ensures forall k :: k in m <==> k in r.rows && ContainsIgnoreCase(r.rows[k].name, name)
  {
    map k | k in r.rows && ContainsIgnoreCase(r.rows[k].name, name) :: r.rows[k]
  }

  /** `findByCategory`. */
  function FindByCategory(r: Repo, category: string): (m: map<int, Sweet>)
    ensures forall k :: k in m <==> k in r.rows && r.rows[k].category == category
  {
    map k | k in r.rows && r.rows[k].category == category :: r.rows[k]
  }

  /** `findByPriceRange`: `price BETWEEN :minPrice AND :maxPrice`, both ends included. */
  function FindByPriceRange(r: Repo, minPrice: real, maxPrice: real): (m: map<int, Sweet>)
    ensures forall k :: k in m <==> k in r.rows && minPrice <= r.rows[k].price <= maxPrice
  {
    map k | k in r.rows && minPrice <= r.rows[k].price <= maxPrice :: r.rows[k]
  }

  /** `save` of a new entity: it is stored under a fresh identity value. */
  function Insert(r: Repo, s: Sweet): (res: (Repo, Sweet))
    ensures res.1 == s.(id := r.nextId)
    ensures res.0.rows == r.rows[r.nextId := res.1] && res.0.nextId == r.nextId + 1
    ensures Valid(r) ==> Valid(res.0) && r.nextId !in r.rows
  {
    var stored := s.(id := r.nextId);
    (Repo(r.rows[r.nextId := stored], r.nextId + 1), stored)
  }

  // ---- properties of the query ----

  /** With every argument null, `search` returns every stored row, the same
      as `findAll`. */
  lemma SearchWithoutFiltersIsFindAll(r: Repo)
    ensures Search(r, None, None, None, None) == FindAll(r)
  {
    var m := Search(r, None, None, None, None);
    forall k | k in r.rows ensures k in m {
      assert Matches(r.rows[k], None, None, None, None);
    }
    assert m.Keys == r.rows.Keys;
  }

  /** With every argument given, `search` is the intersection of the three
      derived finders. */
  lemma SearchIsIntersectionOfFinders(r: Repo, name: string, category: string, lo: real, hi: real)
    ensures var m := Search(r, Some(name), Some(category), Some(lo), Some(hi));
      && m.Keys == FindByNameContainingIgnoreCase(r, name).Keys
                   * FindByCategory(r, category).Keys
                   * FindByPriceRange(r, lo, hi).Keys
      && forall k :: k in m ==> m[k] == r.rows[k]
  {
    var m := Search(r, Some(name), Some(category), Some(lo), Some(hi));
    var a, b, c := FindByNameContainingIgnoreCase(r, name), FindByCategory(r, category), FindByPriceRange(r, lo, hi);
    forall k ensures k in m <==> k in a.Keys * b.Keys * c.Keys {
    }
  }

  /** Both price bounds are inclusive. */
  lemma PriceBoundsInclusive(r: Repo, k: int)
    requires k in r.rows
    ensures var p := r.rows[k].price;
      && k in Search(r, None, None, Some(p), Some(p))
      && k in FindByPriceRange(r, p, p)
  {
  }

  /** An inverted price range matches nothing. */
  lemma InvertedRangeIsEmpty(r: Repo, name: Option<string>, category: Option<string>, lo: real, hi: real)
    requires lo > hi
    ensures Search(r, name, category, Some(lo), Some(hi)) == map[]
    ensures FindByPriceRange(r, lo, hi) == map[]
  {
    var m := Search(r, name, category, Some(lo), Some(hi));
    forall k | k in m ensures false {
    }
    assert m.Keys == {};
    var f := FindByPriceRange(r, lo, hi);
    forall k | k in f ensures false {
    }
    assert f.Keys == {};
  }

  /** `b` is `a` or no filter at all. */
  predicate NoTighter<T(==)>(a: Option<T>, b: Option<T>) {
    b.None? || a == b
  }

  /** Turning null filters into non-null ones never adds records. */
  lemma SearchMonotone(r: Repo,
                       n1: Option<string>, c1: Option<string>, lo1: Option<real>, hi1: Option<real>,
                       n2: Option<string>, c2: Option<string>, lo2: Option<real>, hi2: Option<real>)
    requires NoTighter(n1, n2) && NoTighter(c1, c2) && NoTighter(lo1, lo2) && NoTighter(hi1, hi2)
    ensures Search(r, n1, c1, lo1, hi1).Keys <= Search(r, n2, c2, lo2, hi2).Keys
  {
    forall k | k in Search(r, n1, c1, lo1, hi1) ensures k in Search(r, n2, c2, lo2, hi2) {
    }
  }

  /** An empty name matches every record... */
  lemma EmptyNameMatchesEverything(r: Repo)
    ensures Search(r, Some(""), None, None, None) == FindAll(r)
  {
    forall k | k in r.rows
      ensures k in Search(r, Some(""), None, None, None)
    {
      EmptyIsSubstring(ToLower(r.rows[k].name));
      assert ToLower("") == "";
      assert Matches(r.rows[k], Some(""), None, None, None);
    }
    assert Search(r, Some(""), None, None, None).Keys == r.rows.Keys;
  }

  /** ...but an empty category matches only records whose category is empty. */
  lemma EmptyCategoryMatchesOnlyEmpty(r: Repo, k: int)
    ensures k in Search(r, None, Some(""), None, None) <==> k in r.rows && r.rows[k].category == ""
  {
  }

  lemma LowerCharIdempotent(c: char)
    ensures LowerChar(LowerChar(c)) == LowerChar(c)
  {
  }

  /** Name matching ignores the case of the search term... */
  lemma NameSearchIgnoresCase(r: Repo, name: string)
    ensures Search(r, Some(name), None, None, None) == Search(r, Some(ToLower(name)), None, None, None)
  {
    var lowered := ToLower(ToLower(name));
    forall i | 0 <= i < |name| ensures lowered[i] == ToLower(name)[i] {
      LowerCharIdempotent(name[i]);
    }
    assert lowered == ToLower(name);
    var a, b := Search(r, Some(name), None, None, None), Search(r, Some(ToLower(name)), None, None, None);
    forall k | k in r.rows ensures k in a <==> k in b {
      assert ContainsIgnoreCase(r.rows[k].name, name) == ContainsIgnoreCase(r.rows[k].name, ToLower(name));
    }
    assert a.Keys == b.Keys;
  }

  /** ...while category matching does not: "candy" is not found under "Candy". */
  lemma CategorySearchIsCaseSensitive(r: Repo, k: int)
    requires k in r.rows && r.rows[k].category == "candy"
    ensures k !in Search(r, None, Some("Candy"), None, None)
  {
  }
}
