/** `HomePage`: turning the four search inputs into the query the store
    sends, and clearing the search. */
module HomePage {
  import opened Wrappers
  import opened SweetRepository
  import SweetStore
  import SweetController

  /** The four text inputs of the search form. */
  datatype SearchInputs = SearchInputs(name: string, category: string, minPrice: string, maxPrice: string)

  const EMPTY_INPUTS: SearchInputs := SearchInputs("", "", "", "")

  /** One query parameter: text, or a parsed price (`None` is `NaN`). */
  datatype Param = Text(text: string) | Price(price: Option<real>)

  type Params = map<string, Param>

  /** The query object `handleSearch` builds: a key only for a non-empty
      input, names verbatim and prices through `parseFloat`. */
  function SearchParams(inputs: SearchInputs, parseFloat: string -> Option<real>): (p: Params)
    ensures "name" in p <==> inputs.name != ""
    ensures "category" in p <==> inputs.category != ""
    ensures "minPrice" in p <==> inputs.minPrice != ""
    ensures "maxPrice" in p <==> inputs.maxPrice != ""
    ensures p.Keys <= {"name", "category", "minPrice", "maxPrice"}
    ensures "name" in p ==> p["name"] == Text(inputs.name)
    ensures "category" in p ==> p["category"] == Text(inputs.category)
    ensures "minPrice" in p ==> p["minPrice"] == Price(parseFloat(inputs.minPrice))
    ensures "maxPrice" in p ==> p["maxPrice"] == Price(parseFloat(inputs.maxPrice))
  {
    var p0: Params := map[];
    var p1 := if inputs.name != "" then p0["name" := Text(inputs.name)] else p0;
    var p2 := if inputs.category != "" then p1["category" := Text(inputs.category)] else p1;
    var p3 := if inputs.minPrice != "" then p2["minPrice" := Price(parseFloat(inputs.minPrice))] else p2;
    if inputs.maxPrice != "" then p3["maxPrice" := Price(parseFloat(inputs.maxPrice))] else p3
  }

  /** The arguments of the search endpoint. */
  datatype SearchArgs = SearchArgs(name: Option<string>, category: Option<string>,
                                   minPrice: Option<real>, maxPrice: Option<real>)

  function TextArg(p: Params, key: string): (a: Option<string>)
    ensures key in p && p[key].Text? ==> a == Some(p[key].text)
    ensures key !in p ==> a.None?
  {
    if key in p && p[key].Text? then Some(p[key].text) else None
  }

  function PriceArg(p: Params, key: string): (a: Option<real>)
    ensures key in p && p[key].Price? ==> a == p[key].price
    ensures key !in p ==> a.None?
  {
    if key in p && p[key].Price? then p[key].price else None
  }

  predicate PricesAreNumbers(p: Params) {
    forall k :: k in p && p[k].Price? ==> p[k].price.Some?
  }

  /** The endpoint's arguments for a query: an absent key is a null argument.
      A price that is `NaN` cannot be bound to a number on the server, which
      refuses the request; that case is `None`. */
  function QueryArgs(p: Params): (a: Option<SearchArgs>)
    ensures a.Some? <==> PricesAreNumbers(p)
    ensures a.Some? ==> a.value == SearchArgs(TextArg(p, "name"), TextArg(p, "category"),
                                              PriceArg(p, "minPrice"), PriceArg(p, "maxPrice"))
  {
    if PricesAreNumbers(p) then
      Some(SearchArgs(TextArg(p, "name"), TextArg(p, "category"), PriceArg(p, "minPrice"), PriceArg(p, "maxPrice")))
    else None
  }

  /** A filled-in input reaches the server as that filter, and an empty one
      as no filter. */
  lemma InputsReachServer(inputs: SearchInputs, parseFloat: string -> Option<real>)
    requires inputs.minPrice != "" ==> parseFloat(inputs.minPrice).Some?
    requires inputs.maxPrice != "" ==> parseFloat(inputs.maxPrice).Some?
    ensures var a := QueryArgs(SearchParams(inputs, parseFloat));
      && a.Some?
      && (a.value.name.Some? <==> inputs.name != "")
      && (inputs.name != "" ==> a.value.name == Some(inputs.name))
      && (a.value.category.Some? <==> inputs.category != "")
      && (inputs.category != "" ==> a.value.category == Some(inputs.category))
      && (a.value.minPrice.Some? <==> inputs.minPrice != "")
      && (a.value.maxPrice.Some? <==> inputs.maxPrice != "")
  {
  }

  /** With every input empty the query is `{}`, and the server answers with
      every record, exactly as `GET /sweets` does. */
  lemma EmptySearchListsEverything(repo: Repo, parseFloat: string -> Option<real>)
    ensures SearchParams(EMPTY_INPUTS, parseFloat) == map[]
    ensures QueryArgs(map[]) == Some(SearchArgs(None, None, None, None))
    ensures SweetController.SearchSweets(repo, None, None, None, None).response ==
            SweetController.GetAllSweets(repo).response
  {
    SearchWithoutFiltersIsFindAll(repo);
  }

  datatype Searched = Searched(inputs: SearchInputs, params: Params, store: SweetStore.State)

  /** `handleSearch`: the store searches with the built query; a rejection
      only alerts, so the inputs stay as typed either way. */
  function HandleSearch(inputs: SearchInputs, store: SweetStore.State, parseFloat: string -> Option<real>,
                        o: SweetStore.Outcome<seq<SweetStore.Record>>): (r: Searched)
    ensures r.inputs == inputs && r.params == SearchParams(inputs, parseFloat)
    ensures r.store == SweetStore.SearchSweets(store, r.params, o).state
    ensures o.Success? ==> r.store.sweets == o.value
    ensures o.Failure? ==> r.store.sweets == store.sweets
  {
    var params := SearchParams(inputs, parseFloat);
    Searched(inputs, params, SweetStore.SearchSweets(store, params, o).state)
  }

  /** `handleClearSearch`: empty all four inputs, then refetch everything. */
  function HandleClearSearch(inputs: SearchInputs, store: SweetStore.State,
                             o: SweetStore.Outcome<seq<SweetStore.Record>>): (r: Searched)
    ensures r.inputs == EMPTY_INPUTS && r.params == map[]
    ensures r.store == SweetStore.FetchSweets(store, o).state
    ensures o.Success? ==> r.store.sweets == o.value
  {
    Searched(EMPTY_INPUTS, map[], SweetStore.FetchSweets(store, o).state)
  }

  /** Clearing and then searching with nothing typed sends no filter at all. */
  lemma ClearedFormSearchesUnfiltered(inputs: SearchInputs, store: SweetStore.State, parseFloat: string -> Option<real>,
                                      o1: SweetStore.Outcome<seq<SweetStore.Record>>,
                                      o2: SweetStore.Outcome<seq<SweetStore.Record>>)
    ensures var cleared := HandleClearSearch(inputs, store, o1);
      HandleSearch(cleared.inputs, cleared.store, parseFloat, o2).params == map[]
  {
  }
}
