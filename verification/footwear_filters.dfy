/** The footwear filter panel: per-option toggle states for gender-age and
    category, and the product filters built from them. */
module FootwearFilters {
  import opened Wrappers
  import opened Shoes

  /** A toggle state: option value to on/off; an option never toggled has
      no key. */
  type Toggles = map<string, bool>

  /** `!!state[key]`: an option never toggled reads as off. */
  function IsOn(state: Toggles, key: string): (r: bool)
    ensures key !in state ==> !r
    ensures key in state ==> (r <==> state[key])
  {
    key in state && state[key]
  }

  /** onToggle: flips one option. */
  function Toggle(state: Toggles, value: string): (r: Toggles)
    ensures r.Keys == state.Keys + {value}
    ensures IsOn(r, value) == !IsOn(state, value)
    ensures forall k :: k in state && k != value ==> r[k] == state[k]
  {
    state[value := !IsOn(state, value)]
  }

  /** clearFilters: both toggle states emptied. */
  function Clear(): (r: (Toggles, Toggles))
    ensures |r.0| == 0 && |r.1| == 0
  {
    (map[], map[])
  }

  /** Some option is switched on: `Object.values(state).some(v => !!v)`. */
  function AnyOn(state: Toggles): (r: bool)
    ensures r <==> exists k :: IsOn(state, k)
    ensures |state| == 0 ==> !r
  {
    if exists k :: k in state && state[k] then
      var k :| k in state && state[k];
      assert IsOn(state, k);
      true
    else
      assert forall k :: !IsOn(state, k);
      false
  }

  /** A product has one of its categories switched on. */
  predicate SomeCategoryOn(state: Toggles, p: Product) {
    exists i :: 0 <= i < |p.categories| && IsOn(state, p.categories[i])
  }

  /** The gender-age filter: unisex products always pass, everything passes
      while no option is on, otherwise a product passes when its normalised
      gender-age is on.  The normalisation is given. */
  function GenderAgeAccepts(state: Toggles, normalize: (string, string) -> string, p: Product): (r: bool)
    ensures p.gender == "unisex" ==> r
    ensures !AnyOn(state) ==> r
    ensures p.gender != "unisex" && AnyOn(state) ==> (r <==> IsOn(state, normalize(p.gender, p.ageGroup)))
  {
    || p.gender == "unisex"
    || !AnyOn(state)
    || IsOn(state, normalize(p.gender, p.ageGroup))
  }

  /** The category filter as written: everything passes while the state has
      no keys, otherwise a product passes when one of its categories is on.
      An option toggled on and off again still counts as a key. */
  function CategoryAcceptsAsWritten(state: Toggles, p: Product): (r: bool)
    ensures |state| == 0 ==> r
    ensures |state| > 0 ==> (r <==> SomeCategoryOn(state, p))
    ensures !AnyOn(state) && |state| > 0 ==> !r
  {
    |state| == 0 || SomeCategoryOn(state, p)
  }

  /** The category filter as evidently intended: everything passes while no
      option is on, as for gender-age; while some option is on it agrees with
      the written filter. */
  function CategoryAccepts(state: Toggles, p: Product): (r: bool)
    ensures !AnyOn(state) ==> r
    ensures AnyOn(state) ==> (r <==> CategoryAcceptsAsWritten(state, p))
  {
    !AnyOn(state) || SomeCategoryOn(state, p)
  }

  /** The filters applyFilters dispatches. */
  datatype ProductFilter =
    | GenderAgeFilter(genderAge: Toggles)
    | CategoryFilter(category: Toggles)

  const GenderAgeKey: string := "genderAge"
  const CategoryKey: string := "categoryFilter"

  /** A filter as the page applies it: the category filter as written. */
  function Accepts(f: ProductFilter, normalize: (string, string) -> string, p: Product): (r: bool)
    ensures f.GenderAgeFilter? ==> (r <==> GenderAgeAccepts(f.genderAge, normalize, p))
    ensures f.CategoryFilter? ==> (r <==> CategoryAcceptsAsWritten(f.category, p))
  {
    match f
    case GenderAgeFilter(s) => GenderAgeAccepts(s, normalize, p)
    case CategoryFilter(s) => CategoryAcceptsAsWritten(s, p)
  }

  /** A filter with the category filter as evidently intended. */
  function AcceptsIntended(f: ProductFilter, normalize: (string, string) -> string, p: Product): (r: bool)
    ensures f.GenderAgeFilter? ==> (r <==> Accepts(f, normalize, p))
    ensures f.CategoryFilter? && AnyOn(f.category) ==> (r <==> Accepts(f, normalize, p))
    ensures f.CategoryFilter? && !AnyOn(f.category) ==> r
  {
    match f
    case GenderAgeFilter(s) => GenderAgeAccepts(s, normalize, p)
    case CategoryFilter(s) => CategoryAccepts(s, p)
  }

  /** Filters by name; a name may hold no filter (`null`). */
  type Filters = map<string, Option<ProductFilter>>

  /** applyFilters: the payload of the update_filters event. */
  function FiltersPayload(genderAge: Toggles, category: Toggles): (r: Filters)
    ensures r.Keys == {GenderAgeKey, CategoryKey}
    ensures r[GenderAgeKey] == Some(GenderAgeFilter(genderAge))
    ensures r[CategoryKey] == Some(CategoryFilter(category))
  {
    map[GenderAgeKey := Some(GenderAgeFilter(genderAge)), CategoryKey := Some(CategoryFilter(category))]
  }

  /** `_.uniq(xs)`: first occurrences, in order. */
  function Uniq(xs: seq<string>): (r: seq<string>)
    ensures forall x :: x in r <==> x in xs
    ensures forall i, j :: 0 <= i < j < |r| ==> r[i] != r[j]
  {
    UniqAfter(xs, [])
  }

  function UniqAfter(xs: seq<string>, seen: seq<string>): (r: seq<string>)
    requires forall i, j :: 0 <= i < j < |seen| ==> seen[i] != seen[j]
    ensures forall x :: x in r <==> x in seen || x in xs
    ensures forall i, j :: 0 <= i < j < |r| ==> r[i] != r[j]
    ensures seen <= r
    decreases |xs|
  {
    if |xs| == 0 then seen
    else if xs[0] in seen then UniqAfter(xs[1..], seen)
    else UniqAfter(xs[1..], seen + [xs[0]])
  }

  /** `_.flatten(products.map(p => p.categories))`. */
  function AllCategories(products: seq<Product>): (r: seq<string>)
    ensures forall c :: c in r <==> exists i :: 0 <= i < |products| && c in products[i].categories
  {
    if |products| == 0 then []
    else
      var rest := AllCategories(products[1..]);
      assert forall i :: 1 <= i < |products| ==> products[i] == products[1..][i - 1];
      assert forall c :: c in rest ==> exists i :: 0 <= i < |products| && c in products[i].categories by {
        forall c | c in rest ensures exists i :: 0 <= i < |products| && c in products[i].categories {
          var j :| 0 <= j < |products[1..]| && c in products[1..][j].categories;
          assert c in products[j + 1].categories;
        }
      }
      products[0].categories + rest
  }

  /** categoriesOptions: each category of any product once, in first-seen
      order; none before the products are loaded. */
  function CategoryOptions(products: Option<seq<Product>>): (r: seq<string>)
    ensures forall i, j :: 0 <= i < j < |r| ==> r[i] != r[j]
    ensures products.None? ==> r == []
    ensures products.Some? ==> forall c :: c in r <==>
      exists i :: 0 <= i < |products.value| && c in products.value[i].categories
  {
    match products
    case None => []
    case Some(ps) => Uniq(AllCategories(ps))
  }

  // ---------------------------------------------------------------------
  // Properties

  /** Uniq keeps first occurrences in order: a further value is appended
      exactly when it has not been seen. */
  lemma UniqSnoc(xs: seq<string>, x: string)
    ensures Uniq(xs + [x]) == if x in xs then Uniq(xs) else Uniq(xs) + [x]
  {
    UniqAfterSnoc(xs, [], x);
  }

  lemma {:induction false} UniqAfterSnoc(xs: seq<string>, seen: seq<string>, x: string)
    requires forall i, j :: 0 <= i < j < |seen| ==> seen[i] != seen[j]
    ensures UniqAfter(xs + [x], seen)
      == if x in seen || x in xs then UniqAfter(xs, seen) else UniqAfter(xs, seen) + [x]
    decreases |xs|
  {
    if |xs| == 0 {
      assert xs + [x] == [x];
      assert [x][1..] == [];
    } else {
      assert (xs + [x])[0] == xs[0];
      assert (xs + [x])[1..] == xs[1..] + [x];
      if xs[0] in seen {
        UniqAfterSnoc(xs[1..], seen, x);
      } else {
        UniqAfterSnoc(xs[1..], seen + [xs[0]], x);
      }
    }
  }

  /** Toggling an option twice restores it. */
  lemma ToggleTwice(state: Toggles, value: string)
    requires value in state
    ensures Toggle(Toggle(state, value), value) == state
  {
  }

  /** As written, switching a category on and off again leaves a state whose
      filter rejects every product. */
  lemma CategoryOffRejectsAll(value: string, p: Product)
    ensures var state := Toggle(Toggle(map[], value), value);
      !CategoryAcceptsAsWritten(state, p) && CategoryAccepts(state, p)
  {
    var state := Toggle(Toggle(map[], value), value);
    assert state == map[value := false];
    assert |state| == 1;
  }

  /** Corrected, a state with nothing switched on passes every product, and
      otherwise the two readings agree. */
  lemma CategoryAcceptsAgrees(state: Toggles, p: Product)
    ensures !AnyOn(state) ==> CategoryAccepts(state, p)
    ensures AnyOn(state) ==> (CategoryAccepts(state, p) <==> CategoryAcceptsAsWritten(state, p))
  {
    if AnyOn(state) {
      var k :| k in state && state[k];
      assert k in state.Keys;
    }
  }

  /** Corrected, a gender-age or category filter with nothing switched on
      passes every product. */
  lemma NothingOnAcceptsAll(f: ProductFilter, normalize: (string, string) -> string, p: Product)
    requires f.GenderAgeFilter? ==> !AnyOn(f.genderAge)
    requires f.CategoryFilter? ==> !AnyOn(f.category)
    ensures AcceptsIntended(f, normalize, p)
  {
  }

  /** As written, a filter passes every product when its toggles have no
      keys, as after clearing. */
  lemma ClearedAcceptsAll(f: ProductFilter, normalize: (string, string) -> string, p: Product)
    requires f.GenderAgeFilter? ==> |f.genderAge| == 0
    requires f.CategoryFilter? ==> |f.category| == 0
    ensures Accepts(f, normalize, p)
  {
  }
}
