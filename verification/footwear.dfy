/** The footwear view: its state reducer, the filtered product list and the
    message shown when that list is empty. */
module Footwear {
  import opened Wrappers
  import opened Seqs
  import opened Shoes
  import opened FootwearFilters

  /** The expanded card: the product and its position in the grid. */
  datatype ActiveProduct = ActiveProduct(index: int, value: Product)

  datatype State = State(
    loading: bool,
    products: Option<seq<Product>>,
    activeProduct: Option<ActiveProduct>,
    footwearFilters: Filters)

  datatype Event =
    | SetLoading(loading: bool)
    | SetProducts(products: Option<seq<Product>>)
    | OnClickProductCard(card: Option<ActiveProduct>)
    | UpdateFilters(filters: Filters)

  const InitialState: State := State(true, None, None, map[])

  /** `activeProduct?.index`. */
  function IndexOf(a: Option<ActiveProduct>): Option<int> {
    match a
    case None => None
    case Some(p) => Some(p.index)
  }

  /** footwearStateReducer. */
  function Reduce(s: State, e: Event): (r: State)
    ensures e.SetLoading? ==> r == s.(loading := e.loading)
    ensures e.SetProducts? ==> r == s.(products := e.products)
    ensures e.OnClickProductCard? ==>
      r.loading == s.loading && r.products == s.products && r.footwearFilters == s.footwearFilters
    ensures e.UpdateFilters? ==>
      && r.loading == s.loading && r.products == s.products && r.activeProduct.None?
      && r.footwearFilters.Keys == s.footwearFilters.Keys + e.filters.Keys
      && (forall k :: k in e.filters ==> r.footwearFilters[k] == e.filters[k])
      && (forall k :: k in s.footwearFilters && k !in e.filters ==> r.footwearFilters[k] == s.footwearFilters[k])
  {
    match e
    case SetLoading(b) => s.(loading := b)
    case SetProducts(ps) => s.(products := ps)
    case OnClickProductCard(card) =>
      s.(activeProduct := if IndexOf(s.activeProduct) == IndexOf(card) then None else card)
    case UpdateFilters(fs) => s.(footwearFilters := s.footwearFilters + fs, activeProduct := None)
  }

  /** A product passes when no filter rejects it; a `null` filter rejects
      nothing. */
  predicate PassesAll(filters: Filters, normalize: (string, string) -> string, p: Product) {
    forall k :: k in filters && filters[k].Some? ==> Accepts(filters[k].value, normalize, p)
  }

  /** PassesAll with the category filter as evidently intended. */
  predicate PassesAllIntended(filters: Filters, normalize: (string, string) -> string, p: Product) {
    forall k :: k in filters && filters[k].Some? ==> AcceptsIntended(filters[k].value, normalize, p)
  }

  /** filteredProducts: undefined before the products are loaded, all of
      them when there are no filters, otherwise those no filter rejects. */
  function FilteredProducts(s: State, normalize: (string, string) -> string): (r: Option<seq<Product>>)
    ensures r.Some? <==> s.products.Some?
    ensures r.Some? ==> IsSubsequence(r.value, s.products.value)
    ensures r.Some? ==> forall i :: 0 <= i < |r.value| ==> PassesAll(s.footwearFilters, normalize, r.value[i])
  {
    match s.products
    case None => None
    case Some(ps) =>
      if |s.footwearFilters| == 0 then
        SubsequenceOfSelf(ps);
        Some(ps)
      else
        var keep := p => PassesAll(s.footwearFilters, normalize, p);
        FilterIsSubsequence(keep, ps);
        Some(Filter(keep, ps))
  }

  const NoProductsMessage: string := "Cannot find suitable products for you in this store."
  const NoResultsMessage: string := "Your search returned no results. \nPlease expand your search or clear the filters."

  /** getZeroResultsMessage. */
  function ZeroResultsMessage(s: State, normalize: (string, string) -> string): (r: string)
    ensures s.loading && s.products.None? ==> r == ""
    ensures !(s.loading && s.products.None?) && (s.products.None? || |s.products.value| == 0) ==>
      r == NoProductsMessage
    ensures s.products.Some? && |s.products.value| > 0 ==>
      (r == NoResultsMessage <==> |FilteredProducts(s, normalize).value| == 0)
    ensures s.products.Some? && |s.products.value| > 0 ==> (r == "" <==> |FilteredProducts(s, normalize).value| > 0)
  {
    if s.loading && s.products.None? then ""
    else if s.products.None? || |s.products.value| == 0 then NoProductsMessage
    else
      var filtered := FilteredProducts(s, normalize);
      if filtered.None? || |filtered.value| == 0 then NoResultsMessage else ""
  }

  // ---------------------------------------------------------------------
  // Properties

  /** Clicking a card expands it; clicking it again collapses it. */
  lemma ClickTwice(s: State, card: ActiveProduct)
    requires IndexOf(s.activeProduct) != Some(card.index)
    ensures Reduce(s, OnClickProductCard(Some(card))).activeProduct == Some(card)
    ensures Reduce(Reduce(s, OnClickProductCard(Some(card))), OnClickProductCard(Some(card))).activeProduct.None?
  {
  }

  /** A product is shown exactly when it is loaded and no filter rejects it. */
  lemma FilteredMembers(s: State, normalize: (string, string) -> string, p: Product)
    requires s.products.Some?
    ensures p in FilteredProducts(s, normalize).value <==> p in s.products.value && PassesAll(s.footwearFilters, normalize, p)
  {
    if |s.footwearFilters| > 0 {
      FilterMembers(p => PassesAll(s.footwearFilters, normalize, p), s.products.value, p);
    }
  }

  /** After the panel's filters are applied over filters of the same names,
      a product passes exactly when both the gender-age and the written
      category filter accept it. */
  lemma PanelFiltersDecide(s: State, normalize: (string, string) -> string, genderAge: Toggles, category: Toggles, p: Product)
    requires s.footwearFilters.Keys <= {GenderAgeKey, CategoryKey}
    ensures PassesAll(Reduce(s, UpdateFilters(FiltersPayload(genderAge, category))).footwearFilters, normalize, p)
      <==> GenderAgeAccepts(genderAge, normalize, p) && CategoryAcceptsAsWritten(category, p)
  {
    var fs := Reduce(s, UpdateFilters(FiltersPayload(genderAge, category))).footwearFilters;
    assert fs == FiltersPayload(genderAge, category);
    PassesPayload(genderAge, category, normalize, p);
  }

  /** Only the two filters of a payload decide. */
  lemma PassesPayload(genderAge: Toggles, category: Toggles, normalize: (string, string) -> string, p: Product)
    ensures PassesAll(FiltersPayload(genderAge, category), normalize, p)
      <==> Accepts(GenderAgeFilter(genderAge), normalize, p) && Accepts(CategoryFilter(category), normalize, p)
    ensures PassesAllIntended(FiltersPayload(genderAge, category), normalize, p)
      <==> AcceptsIntended(GenderAgeFilter(genderAge), normalize, p) && AcceptsIntended(CategoryFilter(category), normalize, p)
  {
    var fs := FiltersPayload(genderAge, category);
    assert GenderAgeKey in fs && CategoryKey in fs;
    forall k | k in fs ensures k == GenderAgeKey || k == CategoryKey {
      assert k in fs.Keys;
    }
  }

  /** The same with the corrected category filter. */
  lemma PanelFiltersDecideIntended(s: State, normalize: (string, string) -> string, genderAge: Toggles, category: Toggles, p: Product)
    requires s.footwearFilters.Keys <= {GenderAgeKey, CategoryKey}
    ensures PassesAllIntended(Reduce(s, UpdateFilters(FiltersPayload(genderAge, category))).footwearFilters, normalize, p)
      <==> GenderAgeAccepts(genderAge, normalize, p) && CategoryAccepts(category, p)
  {
    var fs := Reduce(s, UpdateFilters(FiltersPayload(genderAge, category))).footwearFilters;
    assert fs == FiltersPayload(genderAge, category);
    PassesPayload(genderAge, category, normalize, p);
  }

  /** As written, once a category has been switched on and off again and
      the panel's filters are applied, the page lists no product and shows
      the no-results message, whatever the products. */
  lemma CategoryOffHidesAll(s: State, normalize: (string, string) -> string, genderAge: Toggles, value: string)
    requires s.footwearFilters.Keys <= {GenderAgeKey, CategoryKey}
    requires s.products.Some? && |s.products.value| > 0
    ensures var t := Reduce(s, UpdateFilters(FiltersPayload(genderAge, Toggle(Toggle(map[], value), value))));
      FilteredProducts(t, normalize) == Some([]) && ZeroResultsMessage(t, normalize) == NoResultsMessage
  {
    var category := Toggle(Toggle(map[], value), value);
    var t := Reduce(s, UpdateFilters(FiltersPayload(genderAge, category)));
    assert category == map[value := false];
    forall p | p in t.products.value
      ensures !PassesAll(t.footwearFilters, normalize, p)
    {
      CategoryOffRejectsAll(value, p);
      PanelFiltersDecide(s, normalize, genderAge, category, p);
    }
    var shown := FilteredProducts(t, normalize).value;
    if |shown| > 0 {
      FilteredMembers(t, normalize, shown[0]);
      assert false;
    }
  }

  /** Corrected, a category switched on and off again filters nothing: a
      product passes the panel's filters exactly when the gender-age filter
      accepts it. */
  lemma CategoryOffIntendedKeepsAll(s: State, normalize: (string, string) -> string, genderAge: Toggles, value: string, p: Product)
    requires s.footwearFilters.Keys <= {GenderAgeKey, CategoryKey}
    ensures var t := Reduce(s, UpdateFilters(FiltersPayload(genderAge, Toggle(Toggle(map[], value), value))));
      PassesAllIntended(t.footwearFilters, normalize, p) <==> GenderAgeAccepts(genderAge, normalize, p)
  {
    var category := Toggle(Toggle(map[], value), value);
    CategoryOffRejectsAll(value, p);
    PanelFiltersDecideIntended(s, normalize, genderAge, category, p);
  }
}
