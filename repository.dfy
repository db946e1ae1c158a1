/** The local item repository (src/storage/repositories/ClipboardRepository.ts):
    a lazily loaded, in-memory list of items that is written back to the
    key/value store in full after every change, and a custom-category list
    that is read from and written to the store on every call. */
module Repository {
  import opened Wrappers
  import opened Text
  import opened Items
  import opened KeyValueStore

  /** The pair `items`/`loaded` of the class: `items` is only `null` while
      nothing has been loaded. */
  datatype Cache = Unloaded | Loaded(items: seq<Item>)

  /** What `storage.get<ClipboardItem[]>(CLIPBOARD_ITEMS, [])` yields from
      an open store. */
  function StoredItems(m: map<string, Value>): seq<Item> {
    if ClipboardItemsKey in m && m[ClipboardItemsKey].ItemList? then m[ClipboardItemsKey].items else []
  }

  /** What `storage.get<string[]>(CUSTOM_CATEGORIES, [])` yields from an
      open store. */
  function StoredCategories(m: map<string, Value>): seq<string> {
    if CustomCategoriesKey in m && m[CustomCategoriesKey].TextList? then m[CustomCategoriesKey].texts else []
  }

  // ---------------------------------------------------------------------
  // Queries over the item list

  /** The test of `search`, with the query already lower-cased. */
  predicate Matches(it: Item, lowerQuery: string) {
    || Includes(Lower(it.title), lowerQuery)
    || Includes(Lower(it.content), lowerQuery)
    || (it.category.Some? && Includes(Lower(it.category.value), lowerQuery))
  }

  /** `search(query)`. */
  function Matching(xs: seq<Item>, query: string): seq<Item> {
    Filter(xs, (it: Item) => Matches(it, Lower(query)))
  }

  /** `search` keeps, in their order, exactly the items whose lower-cased
      title, content or category contains the lower-cased query. */
  lemma MatchingSpec(xs: seq<Item>, query: string)
    ensures |Matching(xs, query)| <= |xs|
    ensures forall it :: it in Matching(xs, query) <==> it in xs && Matches(it, Lower(query))
  {
    FilterSpec(xs, (it: Item) => Matches(it, Lower(query)));
  }

  /** An empty query matches every item. */
  lemma MatchingEmpty(xs: seq<Item>)
    ensures Matching(xs, "") == xs
  {
    forall it | it in xs ensures Matches(it, Lower("")) {
      IncludesEmpty(Lower(it.title));
    }
    FilterAll(xs, (it: Item) => Matches(it, Lower("")));
  }

  /** The search is case-insensitive in its query. */
  lemma MatchingIgnoresCase(xs: seq<Item>, query: string)
    ensures Matching(xs, Lower(query)) == Matching(xs, query)
  {
    LowerIdempotent(query);
    FilterCongruent(xs, (it: Item) => Matches(it, Lower(Lower(query))), (it: Item) => Matches(it, Lower(query)));
  }

  /** `filterByCategory(category)`. */
  function WithCategory(xs: seq<Item>, category: string): seq<Item> {
    Filter(xs, (it: Item) => it.category == Some(category))
  }

  /** The category filter keeps exactly the items of that category, and each
      of them is also found by searching for the category's name. */
  lemma WithCategorySpec(xs: seq<Item>, category: string)
    ensures forall it :: it in WithCategory(xs, category) <==> it in xs && it.category == Some(category)
    ensures forall it :: it in WithCategory(xs, category) ==> it in Matching(xs, category)
  {
    FilterSpec(xs, (it: Item) => it.category == Some(category));
    MatchingSpec(xs, category);
    assert OccursAt(Lower(category), 0, Lower(category));
  }

  /** `getFavorites()`. */
  function Favorites(xs: seq<Item>): seq<Item> {
    Filter(xs, (it: Item) => Truthy(it.favorite))
  }

  lemma FavoritesSpec(xs: seq<Item>)
    ensures forall it :: it in Favorites(xs) <==> it in xs && it.favorite == Some(true)
  {
    FilterSpec(xs, (it: Item) => Truthy(it.favorite));
  }

  /** The category name an item contributes to `getCategories`: its
      category when that is a non-empty string. */
  function CategoryName(it: Item): seq<string> {
    if it.category.Some? && it.category.value != [] then [it.category.value] else []
  }

  function CategoryNames(xs: seq<Item>): seq<string>
    decreases |xs|
  {
    if xs == [] then [] else CategoryNames(xs[..|xs| - 1]) + CategoryName(xs[|xs| - 1])
  }

  /** `getCategories()`: the set of non-empty item categories, in the order
      the set first saw them. */
  function DistinctCategories(xs: seq<Item>): seq<string> {
    Dedup(CategoryNames(xs))
  }

  lemma {:induction false} CategoryNamesSpec(xs: seq<Item>)
    ensures forall c :: c in CategoryNames(xs) <==> c != [] && exists i :: 0 <= i < |xs| && xs[i].category == Some(c)
    decreases |xs|
  {
    if xs != [] {
      var init := xs[..|xs| - 1];
      CategoryNamesSpec(init);
      forall c ensures c in CategoryNames(xs) <==> c != [] && exists i :: 0 <= i < |xs| && xs[i].category == Some(c) {
        if c != [] && exists i :: 0 <= i < |xs| && xs[i].category == Some(c) {
          var i :| 0 <= i < |xs| && xs[i].category == Some(c);
          if i < |init| {
            assert init[i] == xs[i];
          }
        }
      }
    }
  }

  /** Every non-empty item category is listed exactly once, nothing else
      is, and a prefix of the items lists a prefix of the categories. */
  lemma DistinctCategoriesSpec(xs: seq<Item>, k: nat)
    requires k <= |xs|
    ensures Distinct(DistinctCategories(xs))
    ensures forall c :: c in DistinctCategories(xs) <==> c != [] && exists i :: 0 <= i < |xs| && xs[i].category == Some(c)
    ensures DistinctCategories(xs[..k]) <= DistinctCategories(xs)
  {
    CategoryNamesSpec(xs);
    DedupSpec(CategoryNames(xs));
    var names := CategoryNames(xs);
    var m := |CategoryNames(xs[..k])|;
    CategoryNamesPrefix(xs, k);
    assert CategoryNames(xs[..k]) == names[..m];
    DedupPrefix(names, m);
  }

  lemma {:induction false} CategoryNamesPrefix(xs: seq<Item>, k: nat)
    requires k <= |xs|
    ensures CategoryNames(xs[..k]) <= CategoryNames(xs)
    decreases |xs|
  {
    if k < |xs| {
      var init := xs[..|xs| - 1];
      assert xs[..k] == init[..k];
      CategoryNamesPrefix(init, k);
    } else {
      assert xs[..k] == xs;
    }
  }

  /** The `forEach` loop of `getCategories` that fills a `Set`. */
  method CollectCategories(xs: seq<Item>) returns (cats: seq<string>)
    ensures cats == DistinctCategories(xs)
  {
    cats := [];
    var i := 0;
    while i < |xs|
      invariant 0 <= i <= |xs|
      invariant cats == Dedup(CategoryNames(xs[..i]))
    {
      var it := xs[i];
      assert xs[..i + 1][..i] == xs[..i];
      ghost var names := CategoryNames(xs[..i]);
      assert CategoryNames(xs[..i + 1]) == names + CategoryName(it);
      if it.category.Some? && it.category.value != [] {
        ghost var s := names + [it.category.value];
        assert s[..|s| - 1] == names && s[|s| - 1] == it.category.value;
        assert Dedup(s) == AddDistinct(Dedup(names), it.category.value);
        if it.category.value !in cats {
          cats := cats + [it.category.value];
        }
      } else {
        assert names + CategoryName(it) == names;
      }
      i := i + 1;
    }
    assert xs[..i] == xs;
  }

  // ---------------------------------------------------------------------
  // Whole-list updates

  /** `saveItem(item)`: replace the first item with the same id, or append. */
  function Upserted(xs: seq<Item>, it: Item): seq<Item> {
    match FindIndex(xs, it.id)
    case Some(i) => xs[i := it]
    case None => xs + [it]
  }

  /** Two lists whose items carry `id` at the same positions find it at the
      same index. */
  lemma FindIndexSameIds(xs: seq<Item>, ys: seq<Item>, id: string)
    requires |xs| == |ys|
    requires forall j :: 0 <= j < |xs| ==> (xs[j].id == id <==> ys[j].id == id)
    ensures FindIndex(xs, id) == FindIndex(ys, id)
  {
    match FindIndex(xs, id)
    case None =>
    case Some(i) =>
      assert ys[i].id == id;
  }

  /** After an upsert the item is found under its id, the list grew only
      when the id was new, and every other id finds what it found before. */
  lemma UpsertedSpec(xs: seq<Item>, it: Item)
    ensures FindById(Upserted(xs, it), it.id) == Some(it)
    ensures |Upserted(xs, it)| == if FindIndex(xs, it.id).Some? then |xs| else |xs| + 1
    ensures forall id :: id != it.id ==> FindById(Upserted(xs, it), id) == FindById(xs, id)
  {
    UpsertedFound(xs, it);
    forall id | id != it.id ensures FindById(Upserted(xs, it), id) == FindById(xs, id) {
      UpsertedOther(xs, it, id);
    }
  }

  lemma UpsertedFound(xs: seq<Item>, it: Item)
    ensures FindById(Upserted(xs, it), it.id) == Some(it)
    ensures |Upserted(xs, it)| == if FindIndex(xs, it.id).Some? then |xs| else |xs| + 1
  {
    var r := Upserted(xs, it);
    match FindIndex(xs, it.id)
    case Some(i) =>
      assert r == xs[i := it];
      FindIndexSameIds(xs, r, it.id);
      assert FindIndex(r, it.id) == Some(i);
    case None =>
      assert r == xs + [it];
      DeleteUndoesCreate(xs, it);
  }

  lemma UpsertedOther(xs: seq<Item>, it: Item, id: string)
    requires id != it.id
    ensures FindById(Upserted(xs, it), id) == FindById(xs, id)
  {
    var r := Upserted(xs, it);
    if FindIndex(xs, it.id).Some? {
      FindIndexSameIds(xs, r, id);
    } else {
      assert r == xs + [it];
      match FindIndex(xs, id)
      case Some(k) =>
        assert r[k] == xs[k];
      case None =>
    }
  }

  /** `items.splice(i, 1)`. */
  function RemovedAt(xs: seq<Item>, i: nat): (r: seq<Item>)
    requires i < |xs|
    ensures |r| == |xs| - 1
    ensures forall j :: 0 <= j < |r| ==> r[j] == xs[if j < i then j else j + 1]
  {
    xs[..i] + xs[i + 1..]
  }

  /** Removing one position takes exactly that item out of the bag. */
  lemma RemovedAtBag(xs: seq<Item>, i: nat)
    requires i < |xs|
    ensures multiset(RemovedAt(xs, i)) == multiset(xs) - multiset{xs[i]}
  {
    assert xs == xs[..i] + [xs[i]] + xs[i + 1..];
  }

  /** Deleting an item just appended under a new id gives back the list. */
  lemma DeleteUndoesCreate(xs: seq<Item>, it: Item)
    requires FindIndex(xs, it.id).None?
    ensures FindIndex(xs + [it], it.id) == Some(|xs|)
    ensures RemovedAt(xs + [it], |xs|) == xs
  {
    var s := xs + [it];
    assert s[|xs|].id == it.id;
    assert forall j :: 0 <= j < |xs| ==> s[j] == xs[j];
    assert s[..|xs|] == xs && s[|xs| + 1..] == [];
  }

  /** `!item.favorite`: an undefined flag counts as false. */
  function ToggledFavorite(b: Option<bool>): (r: Option<bool>)
    ensures r.Some? && Truthy(r) != Truthy(b)
  {
    Some(!Truthy(b))
  }

  /** Toggling twice restores whether the item is a favourite. */
  lemma ToggleTwice(b: Option<bool>)
    ensures Truthy(ToggledFavorite(ToggledFavorite(b))) == Truthy(b)
  {
  }

  // ---------------------------------------------------------------------
  // Custom categories

  /** `customCategories.some(cat => cat.toLowerCase() === category.trim().toLowerCase())`. */
  predicate HasCategory(cats: seq<string>, category: string) {
    exists i | 0 <= i < |cats| :: Lower(cats[i]) == Lower(Trim(category))
  }

  /** The list `addCustomCategory` writes. */
  function WithCustomCategory(cats: seq<string>, category: string): (r: seq<string>)
    ensures HasCategory(r, category)
    ensures HasCategory(cats, category) ==> r == cats
    ensures !HasCategory(cats, category) ==> r == cats + [Trim(category)]
  {
    if HasCategory(cats, category) then cats
    else
      assert (cats + [Trim(category)])[|cats|] == Trim(category);
      cats + [Trim(category)]
  }

  /** The list `removeCustomCategory` writes. */
  function WithoutCustomCategory(cats: seq<string>, category: string): seq<string> {
    Filter(cats, (c: string) => Lower(c) != Lower(Trim(category)))
  }

  /** Adding a category is idempotent. */
  lemma AddCategoryIdempotent(cats: seq<string>, category: string)
    ensures WithCustomCategory(WithCustomCategory(cats, category), category) == WithCustomCategory(cats, category)
  {
  }

  /** Removal takes out every entry equal to the trimmed argument up to case
      and keeps all others in order. */
  lemma WithoutCustomCategorySpec(cats: seq<string>, category: string)
    ensures !HasCategory(WithoutCustomCategory(cats, category), category)
    ensures forall c :: c in WithoutCustomCategory(cats, category) <==> c in cats && Lower(c) != Lower(Trim(category))
  {
    WithoutCustomCategoryMembers(cats, category);
    var r := WithoutCustomCategory(cats, category);
    forall i | 0 <= i < |r| ensures Lower(r[i]) != Lower(Trim(category)) {
      assert r[i] in r;
    }
  }

  lemma WithoutCustomCategoryMembers(cats: seq<string>, category: string)
    ensures forall c :: c in WithoutCustomCategory(cats, category) <==> c in cats && Lower(c) != Lower(Trim(category))
  {
    FilterSpec(cats, (c: string) => Lower(c) != Lower(Trim(category)));
  }

  /** Removing a category undoes adding it. */
  lemma RemoveUndoesAdd(cats: seq<string>, category: string)
    ensures WithoutCustomCategory(WithCustomCategory(cats, category), category) == WithoutCustomCategory(cats, category)
  {
    if !HasCategory(cats, category) {
      var p := (c: string) => Lower(c) != Lower(Trim(category));
      FilterAppend(cats, [Trim(category)], p);
      assert Filter([Trim(category)], p) == [];
    }
  }

  // ---------------------------------------------------------------------
  // `getAllCategories`: a set of both lists, sorted

  /** The order of `Array.prototype.sort` without a comparator: strings are
      compared character by character, a proper prefix first. */
  predicate StrLe(a: string, b: string)
    decreases |a|
  {
    a == [] || (b != [] && (a[0] < b[0] || (a[0] == b[0] && StrLe(a[1..], b[1..]))))
  }

  lemma {:induction false} StrLeTotal(a: string, b: string)
    ensures StrLe(a, b) || StrLe(b, a)
    decreases |a|
  {
    if a != [] && b != [] && a[0] == b[0] {
      StrLeTotal(a[1..], b[1..]);
    }
  }

  predicate Sorted(s: seq<string>) {
    forall i :: 0 <= i < |s| - 1 ==> StrLe(s[i], s[i + 1])
  }

  function Insert(x: string, s: seq<string>): seq<string>
    decreases |s|
  {
    if s == [] then [x]
    else if StrLe(x, s[0]) then [x] + s
    else [s[0]] + Insert(x, s[1..])
  }

  function SortStrings(s: seq<string>): seq<string>
    decreases |s|
  {
    if s == [] then [] else Insert(s[0], SortStrings(s[1..]))
  }

  lemma {:induction false} InsertSpec(x: string, s: seq<string>)
    requires Sorted(s)
    ensures Sorted(Insert(x, s))
    ensures multiset(Insert(x, s)) == multiset(s) + multiset{x}
    ensures Insert(x, s)[0] == x || (s != [] && Insert(x, s)[0] == s[0])
    decreases |s|
  {
    if s != [] && !StrLe(x, s[0]) {
      var t := s[1..];
      assert Sorted(t) by {
        forall i | 0 <= i < |t| - 1 ensures StrLe(t[i], t[i + 1]) {
          assert t[i] == s[i + 1] && t[i + 1] == s[i + 2];
        }
      }
      InsertSpec(x, t);
      StrLeTotal(x, s[0]);
      assert s == [s[0]] + t;
      var r := Insert(x, s);
      assert r == [s[0]] + Insert(x, t);
      forall i | 0 <= i < |r| - 1 ensures StrLe(r[i], r[i + 1]) {
        if i > 0 {
          assert r[i] == Insert(x, t)[i - 1] && r[i + 1] == Insert(x, t)[i];
        }
      }
    }
  }

  /** The sort yields an ordered permutation of its input. */
  lemma {:induction false} SortStringsSpec(s: seq<string>)
    ensures Sorted(SortStrings(s))
    ensures multiset(SortStrings(s)) == multiset(s)
    decreases |s|
  {
    if s != [] {
      var t := SortStrings(s[1..]);
      SortStringsSpec(s[1..]);
      InsertSpec(s[0], t);
      assert SortStrings(s) == Insert(s[0], t);
      assert s == [s[0]] + s[1..];
      assert multiset(s) == multiset(s[1..]) + multiset{s[0]};
    }
  }

  /** `Array.from(new Set([...itemCategories, ...customCategories])).sort()`. */
  function AllCategories(items: seq<Item>, custom: seq<string>): seq<string> {
    SortStrings(Dedup(DistinctCategories(items) + custom))
  }

  lemma {:induction false} DistinctCount<T>(s: seq<T>, x: T)
    requires Distinct(s)
    ensures multiset(s)[x] == if x in s then 1 else 0
    decreases |s|
  {
    if s != [] {
      var t := s[1..];
      assert s == [s[0]] + t;
      assert Distinct(t) by {
        forall i, j | 0 <= i < j < |t| ensures t[i] != t[j] {
          assert t[i] == s[i + 1] && t[j] == s[j + 1];
        }
      }
      DistinctCount(t, x);
      assert s[0] !in t by {
        forall j | 0 <= j < |t| ensures t[j] != s[0] {
          assert t[j] == s[j + 1];
        }
      }
    }
  }

  /** The full list is sorted and holds every item category and every
      custom category exactly once. */
  lemma AllCategoriesSpec(items: seq<Item>, custom: seq<string>)
    ensures Sorted(AllCategories(items, custom))
    ensures forall c :: multiset(AllCategories(items, custom))[c] == (if c in DistinctCategories(items) || c in custom then 1 else 0)
  {
    var u := Dedup(DistinctCategories(items) + custom);
    DedupSpec(DistinctCategories(items) + custom);
    SortStringsSpec(u);
    forall c ensures multiset(AllCategories(items, custom))[c] == (if c in DistinctCategories(items) || c in custom then 1 else 0) {
      DistinctCount(u, c);
    }
  }

  // ---------------------------------------------------------------------
  // The class

  /** `ClipboardRepository`, over the exported storage facade. */
  class ClipboardRepository {
    const store: StorageFacade
    var cache: Cache

    constructor (store: StorageFacade)
      ensures this.store == store && cache == Unloaded
    {
      this.store := store;
      cache := Unloaded;
    }

    /** The items as the next read sees them: the loaded list, or what
        `ensureLoaded` would read from the store. */
    ghost function Pending(engineOk: bool): seq<Item>
      reads this, store, store.instance
    {
      match cache
      case Loaded(xs) => xs
      case Unloaded => if store.IsOpen() || engineOk then StoredItems(store.Contents()) else []
    }

    /** The store holds the item list after a write: when it could be
        opened, the items key maps to the new list and no other key
        changed; otherwise the store did not change. */
    twostate predicate Saved(engineOk: bool)
      reads this, store, store.instance
    {
      && cache.Loaded?
      && store.Kept()
      && store.IsOpen() == (old(store.IsOpen()) || engineOk)
      && store.Contents() == if store.IsOpen() then old(store.Contents())[ClipboardItemsKey := ItemList(cache.items)] else old(store.Contents())
    }

    /** The store did not change, except that a first load may open it. */
    twostate predicate Untouched(engineOk: bool)
      reads this, store, store.instance
    {
      && store.Kept()
      && store.IsOpen() == (old(store.IsOpen()) || (old(cache).Unloaded? && engineOk))
      && store.Contents() == old(store.Contents())
    }

    /** After a write the store and the cache agree. */
    ghost predicate Persisted()
      reads this, store, store.instance
    {
      cache.Loaded? && (store.IsOpen() ==> StoredItems(store.Contents()) == cache.items)
    }

    twostate lemma SavedPersists(engineOk: bool)
      requires Saved(engineOk)
      ensures Persisted()
    {
    }

    method EnsureLoaded(engineOk: bool)
      modifies this, store, store.instance
      ensures cache == Loaded(old(Pending(engineOk)))
      ensures Untouched(engineOk)
    {
      if cache.Unloaded? {
        var v := store.Get(ClipboardItemsKey, ItemList([]), engineOk);
        cache := Loaded(if v.ItemList? then v.items else []);
      }
    }

    /** `saveToStorage`: writes the list when there is one. */
    method SaveToStorage(engineOk: bool)
      requires cache.Loaded?
      modifies store, store.instance
      ensures Saved(engineOk)
    {
      store.Set(ClipboardItemsKey, ItemList(cache.items), engineOk);
    }

    /** `getAll`: the list is a value, so the caller's copy is independent
        of the repository's. */
    method GetAll(engineOk: bool) returns (r: seq<Item>)
      modifies this, store, store.instance
      ensures cache == Loaded(old(Pending(engineOk))) && r == cache.items
      ensures Untouched(engineOk)
    {
      EnsureLoaded(engineOk);
      r := cache.items;
    }

    method GetById(id: string, engineOk: bool) returns (r: Option<Item>)
      modifies this, store, store.instance
      ensures cache == Loaded(old(Pending(engineOk)))
      ensures r == FindById(cache.items, id)
      ensures Untouched(engineOk)
    {
      EnsureLoaded(engineOk);
      r := FindById(cache.items, id);
    }

    /** `create`: `id` stands for `generateUUID()`, `createdAt` and
        `updatedAt` for the two reads of the clock. */
    method Create(draft: Draft, id: string, createdAt: string, updatedAt: string, engineOk: bool) returns (it: Item)
      modifies this, store, store.instance
      ensures it == FromDraft(draft, id, createdAt, updatedAt)
      ensures cache == Loaded(old(Pending(engineOk)) + [it])
      ensures Saved(engineOk)
    {
      EnsureLoaded(engineOk);
      it := FromDraft(draft, id, createdAt, updatedAt);
      cache := Loaded(cache.items + [it]);
      SaveToStorage(engineOk);
    }

    /** `update`: `None` for an unknown id, with nothing written. */
    method Update(id: string, patch: Patch, now: string, engineOk: bool) returns (r: Option<Item>)
      modifies this, store, store.instance
      ensures var xs := old(Pending(engineOk));
        match FindIndex(xs, id)
        case None => r.None? && cache == Loaded(xs) && Untouched(engineOk)
        case Some(i) =>
          && r == Some(Merge(xs[i], patch, now))
          && cache == Loaded(xs[i := r.value])
          && Saved(engineOk)
    {
      EnsureLoaded(engineOk);
      var index := FindIndex(cache.items, id);
      if index.None? {
        return None;
      }
      var updated := Merge(cache.items[index.value], patch, now);
      cache := Loaded(cache.items[index.value := updated]);
      SaveToStorage(engineOk);
      r := Some(updated);
    }

    /** `delete`: removes the first item with the id. */
    method Delete(id: string, engineOk: bool) returns (found: bool)
      modifies this, store, store.instance
      ensures var xs := old(Pending(engineOk));
        match FindIndex(xs, id)
        case None => !found && cache == Loaded(xs) && Untouched(engineOk)
        case Some(i) => found && cache == Loaded(RemovedAt(xs, i)) && Saved(engineOk)
    {
      EnsureLoaded(engineOk);
      var index := FindIndex(cache.items, id);
      if index.None? {
        return false;
      }
      cache := Loaded(RemovedAt(cache.items, index.value));
      SaveToStorage(engineOk);
      found := true;
    }

    method Search(query: string, engineOk: bool) returns (r: seq<Item>)
      modifies this, store, store.instance
      ensures cache == Loaded(old(Pending(engineOk)))
      ensures r == Matching(cache.items, query)
      ensures Untouched(engineOk)
    {
      EnsureLoaded(engineOk);
      r := Matching(cache.items, query);
    }

    method FilterByCategory(category: string, engineOk: bool) returns (r: seq<Item>)
      modifies this, store, store.instance
      ensures cache == Loaded(old(Pending(engineOk)))
      ensures r == WithCategory(cache.items, category)
      ensures Untouched(engineOk)
    {
      EnsureLoaded(engineOk);
      r := WithCategory(cache.items, category);
    }

    method GetCategories(engineOk: bool) returns (r: seq<string>)
      modifies this, store, store.instance
      ensures cache == Loaded(old(Pending(engineOk)))
      ensures r == DistinctCategories(cache.items)
      ensures Untouched(engineOk)
    {
      EnsureLoaded(engineOk);
      r := CollectCategories(cache.items);
    }

    /** `getCustomCategories`: read from the store on every call. */
    method GetCustomCategories(engineOk: bool) returns (cats: seq<string>)
      modifies store, store.instance
      ensures store.SameInstance()
      ensures store.IsOpen() == (old(store.IsOpen()) || engineOk)
      ensures store.Contents() == old(store.Contents())
      ensures cats == if store.IsOpen() then StoredCategories(store.Contents()) else []
    {
      var v := store.Get(CustomCategoriesKey, TextList([]), engineOk);
      cats := if v.TextList? then v.texts else [];
    }

    method AddCustomCategory(category: string, engineOk: bool)
      modifies store, store.instance
      ensures store.SameInstance()
      ensures store.IsOpen() == (old(store.IsOpen()) || engineOk)
      ensures var cats := StoredCategories(old(store.Contents()));
        store.Contents() ==
          if store.IsOpen() && !HasCategory(cats, category)
          then old(store.Contents())[CustomCategoriesKey := TextList(WithCustomCategory(cats, category))]
          else old(store.Contents())
    {
      var cats := GetCustomCategories(engineOk);
      if !HasCategory(cats, category) {
        store.Set(CustomCategoriesKey, TextList(cats + [Trim(category)]), engineOk);
      }
    }

    method RemoveCustomCategory(category: string, engineOk: bool)
      modifies store, store.instance
      ensures store.SameInstance()
      ensures store.IsOpen() == (old(store.IsOpen()) || engineOk)
      ensures var cats := StoredCategories(old(store.Contents()));
        store.Contents() ==
          if store.IsOpen()
          then old(store.Contents())[CustomCategoriesKey := TextList(WithoutCustomCategory(cats, category))]
          else old(store.Contents())
    {
      var cats := GetCustomCategories(engineOk);
      store.Set(CustomCategoriesKey, TextList(WithoutCustomCategory(cats, category)), engineOk);
    }

    method ReplaceCustomCategories(cats: seq<string>, engineOk: bool)
      modifies store, store.instance
      ensures store.SameInstance()
      ensures store.IsOpen() == (old(store.IsOpen()) || engineOk)
      ensures store.Contents() ==
        if store.IsOpen() then old(store.Contents())[CustomCategoriesKey := TextList(cats)] else old(store.Contents())
    {
      store.Set(CustomCategoriesKey, TextList(cats), engineOk);
    }

    method GetAllCategories(engineOk: bool) returns (r: seq<string>)
      modifies this, store, store.instance
      ensures cache == Loaded(old(Pending(engineOk)))
      ensures store.SameInstance()
      ensures store.Contents() == old(store.Contents())
      ensures store.IsOpen() == (old(store.IsOpen()) || engineOk)
      ensures r == AllCategories(cache.items, if store.IsOpen() then StoredCategories(store.Contents()) else [])
    {
      var itemCategories := GetCategories(engineOk);
      var custom := GetCustomCategories(engineOk);
      r := SortStrings(Dedup(itemCategories + custom));
    }

    /** `toggleFavorite`: `None` for an unknown id. */
    method ToggleFavorite(id: string, now: string, engineOk: bool) returns (r: Option<Item>)
      modifies this, store, store.instance
      ensures var xs := old(Pending(engineOk));
        match FindIndex(xs, id)
        case None => r.None? && cache == Loaded(xs) && Untouched(engineOk)
        case Some(i) =>
          && r == Some(xs[i].(favorite := ToggledFavorite(xs[i].favorite), updatedAt := now))
          && cache == Loaded(xs[i := r.value])
          && Saved(engineOk)
    {
      var item := GetById(id, engineOk);
      if item.None? {
        return None;
      }
      r := Update(id, NoChange.(favorite := Put(ToggledFavorite(item.value.favorite))), now, engineOk);
    }

    method GetFavorites(engineOk: bool) returns (r: seq<Item>)
      modifies this, store, store.instance
      ensures cache == Loaded(old(Pending(engineOk)))
      ensures r == Favorites(cache.items)
      ensures Untouched(engineOk)
    {
      EnsureLoaded(engineOk);
      r := Favorites(cache.items);
    }

    /** `replaceWithRemote`: the list becomes exactly the argument. */
    method ReplaceWithRemote(items: seq<Item>, engineOk: bool)
      modifies this, store, store.instance
      ensures cache == Loaded(items)
      ensures Saved(engineOk)
    {
      cache := Loaded(items);
      SaveToStorage(engineOk);
    }

    /** `saveItem`: upsert by id. */
    method SaveItem(item: Item, engineOk: bool)
      modifies this, store, store.instance
      ensures cache == Loaded(Upserted(old(Pending(engineOk)), item))
      ensures Saved(engineOk)
    {
      EnsureLoaded(engineOk);
      var index := FindIndex(cache.items, item.id);
      if index.Some? {
        cache := Loaded(cache.items[index.value := item]);
      } else {
        cache := Loaded(cache.items + [item]);
      }
      SaveToStorage(engineOk);
    }

    /** `clearAll`: an empty list that is not re-read, and both keys gone. */
    method ClearAll(engineOk: bool)
      modifies this, store, store.instance
      ensures cache == Loaded([])
      ensures store.SameInstance()
      ensures store.IsOpen() == (old(store.IsOpen()) || engineOk)
      ensures store.Contents() ==
        if store.IsOpen() then old(store.Contents()) - {ClipboardItemsKey, CustomCategoriesKey} else old(store.Contents())
    {
      cache := Loaded([]);
      store.Remove(ClipboardItemsKey, engineOk);
      store.Remove(CustomCategoriesKey, engineOk);
    }
  }

  /** After `clearAll` an open store yields no items and no categories. */
  lemma ClearedStoreIsEmpty(m: map<string, Value>)
    ensures StoredItems(m - {ClipboardItemsKey, CustomCategoriesKey}) == []
    ensures StoredCategories(m - {ClipboardItemsKey, CustomCategoriesKey}) == []
  {
  }
}
