/** The products store: the fetched product list, the filter pipeline that
    derives the displayed list from it, and the filter-update action.

    A product is an opaque JavaScript object; the only property the pipeline
    reads is its `category`. */
module ProductsStore {
  import opened Wrappers
  import opened JsValues
  import opened Seqs

  datatype StoreProduct = StoreProduct(fields: map<string, Value>)

  function Category(p: StoreProduct): Value {
    Get(p.fields, "category")
  }

  /** A named filter and the properties it is applied with. */
  datatype FilterSpec = FilterSpec(name: string, props: map<string, Value>)

  datatype Status = Idle | Fetching | Succeeded | Errored

  datatype StoreError =
    | FetchFailed(message: string)
      /** `filterFunctions[name]` is `undefined` and calling it throws. */
    | UnknownFilter(name: string)

  datatype StoreState = StoreState(
    products: seq<StoreProduct>,
    filteredProducts: seq<StoreProduct>,
    filters: seq<FilterSpec>,
    status: Status,
    error: Option<StoreError>)

  const RemoveAsphaltName: string := "removeAshpaltCategory"
  const GenderAgeName: string := "genderAge"

  /** The filters a new store starts with. */
  const DefaultFilters: seq<FilterSpec> := [
    FilterSpec(RemoveAsphaltName, map["enabled" := Bool(true)]),
    FilterSpec(GenderAgeName, map["value" := Null])
  ]

  const InitialState: StoreState := StoreState([], [], DefaultFilters, Idle, None)

  // ---------------------------------------------------------------------
  // Filter functions

  predicate NotAsphalt(p: StoreProduct) {
    Category(p) != Str("asphalt")
  }

  /** removeAshpaltCategory: drops the asphalt products when enabled. */
  function RemoveAsphalt(props: map<string, Value>, products: seq<StoreProduct>): (r: seq<StoreProduct>)
    ensures !Truthy(Get(props, "enabled")) ==> r == products
    ensures Truthy(Get(props, "enabled")) ==> forall i :: 0 <= i < |r| ==> NotAsphalt(r[i])
  {
    if !Truthy(Get(props, "enabled")) then products
    else Filter(NotAsphalt, products)
  }

  /** The names `filterFunctions` has an entry for. */
  predicate Known(name: string) {
    name == RemoveAsphaltName
  }

  /** `filterFunctions[name](props, products)` for a known name. */
  function ApplyOne(f: FilterSpec, products: seq<StoreProduct>): seq<StoreProduct>
    requires Known(f.name)
  {
    RemoveAsphalt(f.props, products)
  }

  /** applyFilters as written: each filter in list order applied to the
      previous output; the first filter without a function throws. */
  function ApplyFiltersAsWritten(filters: seq<FilterSpec>, products: seq<StoreProduct>): (r: Result<seq<StoreProduct>, StoreError>)
    ensures r.Failure? <==> exists i :: 0 <= i < |filters| && !Known(filters[i].name)
    ensures r.Failure? ==>
      exists i :: 0 <= i < |filters| && r.error == UnknownFilter(filters[i].name)
        && !Known(filters[i].name) && forall j :: 0 <= j < i ==> Known(filters[j].name)
    decreases |filters|
  {
    if |filters| == 0 then Success(products)
    else if !Known(filters[0].name) then Failure(UnknownFilter(filters[0].name))
    else
      var r := ApplyFiltersAsWritten(filters[1..], ApplyOne(filters[0], products));
      assert forall i :: 1 <= i < |filters| ==> filters[i] == filters[1..][i - 1];
      if r.Failure? then
        var i :| 0 <= i < |filters[1..]| && r.error == UnknownFilter(filters[1..][i].name)
          && !Known(filters[1..][i].name) && forall j :: 0 <= j < i ==> Known(filters[1..][j].name);
        assert forall j :: 0 <= j < i + 1 ==> Known(filters[j].name);
        r
      else r
  }

  /** applyFilters as evidently intended: a filter without a function leaves
      the list as it is. */
  function ApplyFilters(filters: seq<FilterSpec>, products: seq<StoreProduct>): seq<StoreProduct>
    decreases |filters|
  {
    if |filters| == 0 then products
    else
      var step := if Known(filters[0].name) then ApplyOne(filters[0], products) else products;
      ApplyFilters(filters[1..], step)
  }

  // ---------------------------------------------------------------------
  // Actions

  /** The position of the first filter with the given name. */
  function FindFilter(filters: seq<FilterSpec>, name: string): (r: Option<nat>)
    ensures r.None? <==> forall i :: 0 <= i < |filters| ==> filters[i].name != name
    ensures r.Some? ==> r.value < |filters| && filters[r.value].name == name
    ensures r.Some? ==> forall i :: 0 <= i < r.value ==> filters[i].name != name
  {
    if |filters| == 0 then None
    else if filters[0].name == name then Some(0)
    else
      match FindFilter(filters[1..], name)
      case None => None
      case Some(i) => Some(i + 1)
  }

  /** The new properties merged over the named filter's; the filter keeps
      its name and position. */
  function MergeFilter(filters: seq<FilterSpec>, i: nat, newProps: map<string, Value>): (r: seq<FilterSpec>)
    requires i < |filters|
    ensures |r| == |filters|
    ensures r[i] == FilterSpec(filters[i].name, Spread(filters[i].props, newProps))
    ensures forall j :: 0 <= j < |filters| && j != i ==> r[j] == filters[j]
  {
    filters[i := FilterSpec(filters[i].name, Spread(filters[i].props, newProps))]
  }

  /** updateFilter as written, with the exception it throws.  An unknown
      name changes nothing.  Otherwise the named filter's properties are
      merged in place before the displayed list is recomputed, so the merge
      stays even when applyFilters throws; the displayed list is replaced
      only when it does not. */
  function UpdateFilter(s: StoreState, name: string, newProps: map<string, Value>): (r: (StoreState, Option<StoreError>))
    ensures FindFilter(s.filters, name).None? ==> r == (s, None)
    ensures FindFilter(s.filters, name).Some? ==>
      var i := FindFilter(s.filters, name).value;
      && r.0.filters == MergeFilter(s.filters, i, newProps)
      && r.0.products == s.products && r.0.status == s.status && r.0.error == s.error
      && (r.1.Some? <==> exists j :: 0 <= j < |s.filters| && !Known(s.filters[j].name))
      && (r.1.None? ==> r.0.filteredProducts == ApplyFilters(r.0.filters, s.products))
      && (r.1.Some? ==> r.0.filteredProducts == s.filteredProducts && r.1.value.UnknownFilter?)
  {
    match FindFilter(s.filters, name)
    case None => (s, None)
    case Some(i) =>
      var filters := MergeFilter(s.filters, i, newProps);
      assert forall j :: 0 <= j < |filters| ==> filters[j].name == s.filters[j].name;
      match ApplyFiltersAsWritten(filters, s.products)
      case Failure(e) => (s.(filters := filters), Some(e))
      case Success(shown) =>
        AsWrittenAgrees(filters, s.products);
        (s.(filters := filters, filteredProducts := shown), None)
  }

  /** updateFilter as evidently intended: merges the new properties over
      the named filter's and recomputes the displayed list, skipping filters
      without a function; an unknown name changes nothing. */
  function UpdateFilterIntended(s: StoreState, name: string, newProps: map<string, Value>): (r: StoreState)
    ensures FindFilter(s.filters, name).None? ==> r == s
    ensures FindFilter(s.filters, name).Some? ==>
      var i := FindFilter(s.filters, name).value;
      && |r.filters| == |s.filters|
      && r.filters[i] == FilterSpec(name, Spread(s.filters[i].props, newProps))
      && (forall j :: 0 <= j < |s.filters| && j != i ==> r.filters[j] == s.filters[j])
      && r.filteredProducts == ApplyFilters(r.filters, s.products)
      && r.products == s.products && r.status == s.status && r.error == s.error
  {
    match FindFilter(s.filters, name)
    case None => s
    case Some(i) =>
      var filters := MergeFilter(s.filters, i, newProps);
      s.(filters := filters, filteredProducts := ApplyFilters(filters, s.products))
  }

  /** fetchProducts as written, given the outcome of the request.  The
      status is first set to fetching with no error; a failed request, or an
      applyFilters that throws, is caught into the error state, and the
      products are stored only together with their filtered list. */
  function FetchProducts(s: StoreState, fetched: Result<seq<StoreProduct>, string>): (r: StoreState)
    ensures fetched.Failure? ==>
      r.status == Errored && r.error == Some(FetchFailed(fetched.error))
      && r.products == s.products && r.filteredProducts == s.filteredProducts
    ensures fetched.Success? ==>
      (r.status == Succeeded <==> forall i :: 0 <= i < |s.filters| ==> Known(s.filters[i].name))
    ensures fetched.Success? && r.status == Succeeded ==>
      r.products == fetched.value && r.error == None
      && r.filteredProducts == ApplyFilters(s.filters, fetched.value)
    ensures fetched.Success? && r.status != Succeeded ==>
      r.status == Errored && r.error.Some? && r.error.value.UnknownFilter?
      && r.products == s.products && r.filteredProducts == s.filteredProducts
    ensures r.filters == s.filters
  {
    var fetching := s.(status := Fetching, error := None);
    match fetched
    case Failure(e) => fetching.(status := Errored, error := Some(FetchFailed(e)))
    case Success(products) =>
      match ApplyFiltersAsWritten(s.filters, products)
      case Failure(e) => fetching.(status := Errored, error := Some(e))
      case Success(shown) =>
        AsWrittenAgrees(s.filters, products);
        fetching.(products := products, filteredProducts := shown, status := Succeeded)
  }

  /** fetchProducts as evidently intended: the products and their filtered
      list on success, the error otherwise. */
  function FetchProductsIntended(s: StoreState, fetched: Result<seq<StoreProduct>, string>): (r: StoreState)
    ensures fetched.Success? ==>
      r.status == Succeeded && r.products == fetched.value && r.error == None
      && IsSubsequence(r.filteredProducts, r.products)
    ensures fetched.Failure? ==>
      r.status == Errored && r.error == Some(FetchFailed(fetched.error)) && r.products == s.products
    ensures r.filters == s.filters
  {
    match fetched
    case Failure(e) => s.(status := Errored, error := Some(FetchFailed(e)))
    case Success(products) =>
      ApplyFiltersIsSubsequence(s.filters, products);
      s.(products := products, filteredProducts := ApplyFilters(s.filters, products),
         status := Succeeded, error := None)
  }

  // ---------------------------------------------------------------------
  // Properties

  /** With asphalt removal enabled, a product is kept exactly when it is not
      in the asphalt category. */
  lemma RemoveAsphaltKeeps(props: map<string, Value>, products: seq<StoreProduct>, p: StoreProduct)
    requires Truthy(Get(props, "enabled"))
    ensures p in RemoveAsphalt(props, products) <==> p in products && Category(p) != Str("asphalt")
  {
    FilterMembers(NotAsphalt, products, p);
  }

  /** The displayed list is always a subsequence of the products. */
  lemma {:induction false} ApplyFiltersIsSubsequence(filters: seq<FilterSpec>, products: seq<StoreProduct>)
    ensures IsSubsequence(ApplyFilters(filters, products), products)
    decreases |filters|
  {
    if |filters| == 0 {
      SubsequenceOfSelf(products);
    } else {
      var step := if Known(filters[0].name) then ApplyOne(filters[0], products) else products;
      if Known(filters[0].name) && Truthy(Get(filters[0].props, "enabled")) {
        FilterIsSubsequence(NotAsphalt, products);
      } else {
        SubsequenceOfSelf(products);
      }
      ApplyFiltersIsSubsequence(filters[1..], step);
      SubsequenceTransitive(ApplyFilters(filters[1..], step), step, products);
    }
  }

  /** Filters apply in list order, each to the previous output: appending a
      filter applies it to the output of the rest. */
  lemma {:induction false} ApplyFiltersSnoc(filters: seq<FilterSpec>, f: FilterSpec, products: seq<StoreProduct>)
    ensures ApplyFilters(filters + [f], products)
      == ApplyFilters([f], ApplyFilters(filters, products))
    decreases |filters|
  {
    if |filters| > 0 {
      var step := if Known(filters[0].name) then ApplyOne(filters[0], products) else products;
      assert (filters + [f])[1..] == filters[1..] + [f];
      ApplyFiltersSnoc(filters[1..], f, step);
    }
  }

  /** Where every filter has a function the two readings agree. */
  lemma {:induction false} AsWrittenAgrees(filters: seq<FilterSpec>, products: seq<StoreProduct>)
    requires forall i :: 0 <= i < |filters| ==> Known(filters[i].name)
    ensures ApplyFiltersAsWritten(filters, products) == Success(ApplyFilters(filters, products))
    decreases |filters|
  {
    if |filters| > 0 {
      AsWrittenAgrees(filters[1..], ApplyOne(filters[0], products));
    }
  }

  /** As written, the default filter list names a filter with no function,
      so applying it fails for every product list, and every fetch ends in
      the error state. */
  lemma DefaultFiltersAlwaysFail(products: seq<StoreProduct>)
    ensures ApplyFiltersAsWritten(DefaultFilters, products) == Failure(UnknownFilter(GenderAgeName))
  {
    var step := ApplyOne(DefaultFilters[0], products);
    assert DefaultFilters[1..] == [FilterSpec(GenderAgeName, map["value" := Null])];
    assert ApplyFiltersAsWritten(DefaultFilters, products) == ApplyFiltersAsWritten(DefaultFilters[1..], step);
  }

  /** Corrected, the default filters show exactly the products that are not
      in the asphalt category, in their original order. */
  lemma DefaultFiltersRemoveAsphalt(products: seq<StoreProduct>)
    ensures ApplyFilters(DefaultFilters, products) == Filter(NotAsphalt, products)
  {
    var step := ApplyOne(DefaultFilters[0], products);
    assert DefaultFilters[1..] == [FilterSpec(GenderAgeName, map["value" := Null])];
    assert ApplyFilters(DefaultFilters, products) == ApplyFilters(DefaultFilters[1..], step);
    assert ApplyFilters(DefaultFilters[1..], step) == ApplyFilters(DefaultFilters[2..], step);
  }

  /** As written, a store that starts with the default filters never shows
      a product: every fetch ends in the error state with the products still
      empty, and every update of a filter it has throws and leaves the
      displayed list as it was. */
  lemma DefaultStoreNeverShows(fetched: Result<seq<StoreProduct>, string>, name: string, newProps: map<string, Value>)
    ensures FetchProducts(InitialState, fetched).status == Errored
    ensures FetchProducts(InitialState, fetched).products == []
    ensures name in {RemoveAsphaltName, GenderAgeName} ==>
      UpdateFilter(InitialState, name, newProps).1 == Some(UnknownFilter(GenderAgeName))
      && UpdateFilter(InitialState, name, newProps).0.filteredProducts == []
  {
    assert !Known(InitialState.filters[1].name);
    if name in {RemoveAsphaltName, GenderAgeName} {
      var i := FindFilter(DefaultFilters, name).value;
      var filters := MergeFilter(DefaultFilters, i, newProps);
      assert filters[0].name == RemoveAsphaltName && filters[1].name == GenderAgeName;
      var step := ApplyOne(filters[0], []);
      assert filters[1..] == [filters[1]];
      assert ApplyFiltersAsWritten(filters, []) == ApplyFiltersAsWritten(filters[1..], step);
    }
  }

  /** Corrected, a fetch from the new store shows exactly the products
      outside the asphalt category. */
  lemma DefaultStoreShowsNonAsphalt(products: seq<StoreProduct>)
    ensures FetchProductsIntended(InitialState, Success(products)).filteredProducts == Filter(NotAsphalt, products)
  {
    DefaultFiltersRemoveAsphalt(products);
  }
}
