/** The home screen's store list: the stores whose name contains the search
    term (ignoring case) and whose type matches the chosen filter. */
module HomeScreen {
  import opened Common
  import opened Text
  import opened Seqs

  /** The store fields the filter reads: the name, and the optional `type`
      and `category`. */
  datatype Store = Store(name: string, storeType: Option<string>, category: Option<string>)

  const AllTypes := "All"

  /** `store.type || store.category`: the type when it is set and not "",
      otherwise the category as it is. */
  function TypeOf(store: Store): (t: Option<string>)
    ensures store.storeType.Some? && store.storeType.value != "" ==> t == store.storeType
    ensures store.storeType.None? || store.storeType.value == "" ==> t == store.category
  {
    if store.storeType.Some? && store.storeType.value != "" then store.storeType else store.category
  }

  predicate MatchesSearch(store: Store, searchTerm: string) {
    Contains(ToLower(store.name), ToLower(searchTerm))
  }

  predicate MatchesType(store: Store, filterType: string) {
    filterType == AllTypes || TypeOf(store) == Some(filterType)
  }

  predicate Shown(store: Store, searchTerm: string, filterType: string) {
    MatchesSearch(store, searchTerm) && MatchesType(store, filterType)
  }

  /** filteredStores. */
  function FilteredStores(stores: seq<Store>, searchTerm: string, filterType: string): (r: seq<Store>)
    ensures |r| <= |stores|
    ensures forall s :: s in r <==> s in stores && MatchesSearch(s, searchTerm) && MatchesType(s, filterType)
  {
    var p := (s: Store) => Shown(s, searchTerm, filterType);
    forall s ensures s in Filter(stores, p) <==> s in stores && p(s) {
      FilterMembership(stores, p, s);
    }
    Filter(stores, p)
  }

  /** The filter keeps the list's order, and keeps a store exactly when its
      name contains the term and its type matches. */
  lemma FilteredStoresExact(stores: seq<Store>, searchTerm: string, filterType: string)
    ensures IsSubsequence(FilteredStores(stores, searchTerm, filterType), stores)
    ensures forall s :: s in FilteredStores(stores, searchTerm, filterType) <==>
      s in stores && MatchesSearch(s, searchTerm) && MatchesType(s, filterType)
  {
    var p := (s: Store) => Shown(s, searchTerm, filterType);
    FilterIsSubsequence(stores, p);
    forall s ensures s in FilteredStores(stores, searchTerm, filterType) <==> s in stores && p(s) {
      FilterMembership(stores, p, s);
    }
  }

  /** Every text contains the empty text. */
  lemma ContainsEmpty(s: string)
    ensures Contains(s, "")
  {
    assert OccursAt(s, "", 0);
  }

  /** With no search term and the "All" filter every store is shown. */
  lemma EmptySearchShowsAll(stores: seq<Store>)
    ensures FilteredStores(stores, "", AllTypes) == stores
  {
    forall i | 0 <= i < |stores| ensures Shown(stores[i], "", AllTypes) {
      ContainsEmpty(ToLower(stores[i].name));
    }
    FilterKeepsEverything(stores, (s: Store) => Shown(s, "", AllTypes));
  }

  /** The search ignores case: a store whose name is the term itself, in any
      mix of upper and lower case, is found. */
  lemma SearchIgnoresCase(store: Store, searchTerm: string)
    requires ToLower(store.name) == ToLower(searchTerm)
    ensures MatchesSearch(store, searchTerm)
  {
    assert OccursAt(ToLower(store.name), ToLower(searchTerm), 0);
  }
}
