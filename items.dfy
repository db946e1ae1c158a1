/** The clipboard record (src/storage/types.ts), the partial records the
    application passes to create and update it, the storage keys
    (src/constants/storage.ts), and the sequence helpers shared by the
    repository and its callers. */
module Items {
  import opened Wrappers
  import opened Text

  /** A clipboard item or template. Optional properties of the TypeScript
      interface are `Option`s; timestamps are ISO-8601 strings. */
  datatype Item = Item(
    id: string,
    title: string,
    content: string,
    category: Option<string>,
    favorite: Option<bool>,
    isTemplate: Option<bool>,
    createdAt: string,
    updatedAt: string)

  /** `Omit<ClipboardItem, 'id' | 'createdAt' | 'updatedAt'>`: what callers
      hand to `create`. */
  datatype Draft = Draft(
    title: string,
    content: string,
    category: Option<string>,
    favorite: Option<bool>,
    isTemplate: Option<bool>)

  /** One property of a partial record: absent from the object, or present
      (possibly holding `undefined`, for the optional properties). */
  datatype Field<T> = Keep | Put(value: T)

  /** `Partial<Omit<ClipboardItem, 'id' | 'createdAt'>>`. An `updatedAt` in
      the patch is left out: every update overwrites it afterwards. */
  datatype Patch = Patch(
    title: Field<string>,
    content: Field<string>,
    category: Field<Option<string>>,
    favorite: Field<Option<bool>>,
    isTemplate: Field<Option<bool>>)

  const NoChange: Patch := Patch(Keep, Keep, Keep, Keep, Keep)

  function Apply<T>(f: Field<T>, old_: T): T {
    match f
    case Keep => old_
    case Put(v) => v
  }

  /** JavaScript truthiness of an optional boolean. */
  predicate Truthy(b: Option<bool>) {
    b == Some(true)
  }

  /** `{ ...item, id, createdAt, updatedAt }`: the two times come from two
      separate reads of the clock. */
  function FromDraft(d: Draft, id: string, createdAt: string, updatedAt: string): Item {
    Item(id, d.title, d.content, d.category, d.favorite, d.isTemplate, createdAt, updatedAt)
  }

  /** `{ ...existing, ...updates, updatedAt: now }`. */
  function Merge(it: Item, p: Patch, now: string): (r: Item)
    ensures r.id == it.id && r.createdAt == it.createdAt && r.updatedAt == now
    ensures r.title == (if p.title.Put? then p.title.value else it.title)
    ensures r.content == (if p.content.Put? then p.content.value else it.content)
    ensures r.category == (if p.category.Put? then p.category.value else it.category)
    ensures r.favorite == (if p.favorite.Put? then p.favorite.value else it.favorite)
    ensures r.isTemplate == (if p.isTemplate.Put? then p.isTemplate.value else it.isTemplate)
  {
    Item(it.id, Apply(p.title, it.title), Apply(p.content, it.content),
         Apply(p.category, it.category), Apply(p.favorite, it.favorite),
         Apply(p.isTemplate, it.isTemplate), it.createdAt, now)
  }

  /** Merging an empty patch changes only `updatedAt`. */
  lemma MergeNothing(it: Item, now: string)
    ensures Merge(it, NoChange, now) == it.(updatedAt := now)
  {
  }

  // Keys of the key/value store (src/constants/storage.ts).
  const ClipboardItemsKey: string := "clipboard_items"
  const CustomCategoriesKey: string := "clipboard_custom_categories"
  const PendingSyncActionsKey: string := "clipboard_pending_sync_actions"
  const TemplateInfoDismissedKey: string := "template_info_dismissed"
  const NotepadInfoDismissedKey: string := "notepad_info_dismissed"
  const NotepadContentKey: string := "local_notepad_content"

  /** `xs.findIndex(item => item.id === id)`, with -1 as `None`. */
  function FindIndex(xs: seq<Item>, id: string): (r: Option<nat>)
    ensures r.Some? ==> r.value < |xs| && xs[r.value].id == id
    ensures r.Some? ==> forall j :: 0 <= j < r.value ==> xs[j].id != id
    ensures r.None? <==> forall j :: 0 <= j < |xs| ==> xs[j].id != id
  {
    if xs == [] then None
    else if xs[0].id == id then Some(0)
    else match FindIndex(xs[1..], id)
      case None => None
      case Some(k) => Some(k + 1)
  }

  /** `xs.find(item => item.id === id)`. */
  function FindById(xs: seq<Item>, id: string): (r: Option<Item>)
    ensures r.Some? <==> exists j :: 0 <= j < |xs| && xs[j].id == id
    ensures r.Some? ==> r.value in xs && r.value.id == id
  {
    match FindIndex(xs, id)
    case None => None
    case Some(i) => Some(xs[i])
  }

  /** `xs.filter(p)`. */
  function Filter<T>(xs: seq<T>, p: T -> bool): seq<T> {
    if xs == [] then []
    else (if p(xs[0]) then [xs[0]] else []) + Filter(xs[1..], p)
  }

  /** The filter keeps exactly the elements that satisfy the predicate, each
      as often as the input holds it, and nothing else. */
  lemma {:induction false} FilterSpec<T>(xs: seq<T>, p: T -> bool)
    ensures |Filter(xs, p)| <= |xs|
    ensures forall x :: x in Filter(xs, p) <==> x in xs && p(x)
    ensures forall x :: multiset(Filter(xs, p))[x] == if p(x) then multiset(xs)[x] else 0
  {
    if xs != [] {
      FilterSpec(xs[1..], p);
      assert xs == [xs[0]] + xs[1..];
      assert multiset(xs) == multiset{xs[0]} + multiset(xs[1..]);
    }
  }

  /** Filtering commutes with concatenation, so the relative order of the
      kept elements is the order they had in the input. */
  lemma {:induction false} FilterAppend<T>(xs: seq<T>, ys: seq<T>, p: T -> bool)
    ensures Filter(xs + ys, p) == Filter(xs, p) + Filter(ys, p)
  {
    if xs != [] {
      assert (xs + ys)[1..] == xs[1..] + ys;
      FilterAppend(xs[1..], ys, p);
    } else {
      assert xs + ys == ys;
    }
  }

  /** A filter whose test every element passes keeps the whole input. */
  lemma {:induction false} FilterAll<T>(xs: seq<T>, p: T -> bool)
    requires forall x :: x in xs ==> p(x)
    ensures Filter(xs, p) == xs
  {
    if xs != [] {
      FilterAll(xs[1..], p);
      assert xs == [xs[0]] + xs[1..];
    }
  }

  /** A filter whose test no element passes keeps nothing. */
  lemma {:induction false} FilterNone<T>(xs: seq<T>, p: T -> bool)
    requires forall x :: x in xs ==> !p(x)
    ensures Filter(xs, p) == []
  {
    if xs != [] {
      FilterNone(xs[1..], p);
    }
  }

  /** Two tests that agree on the input select the same elements. */
  lemma {:induction false} FilterCongruent<T>(xs: seq<T>, p: T -> bool, q: T -> bool)
    requires forall x :: x in xs ==> p(x) == q(x)
    ensures Filter(xs, p) == Filter(xs, q)
  {
    if xs != [] {
      FilterCongruent(xs[1..], p, q);
    }
  }

  /** Number of elements that satisfy the predicate. */
  function Count<T>(xs: seq<T>, p: T -> bool): nat {
    |Filter(xs, p)|
  }

  /** `acc` extended by `x` as a `Set` would be: only when it is new. */
  function AddDistinct<T(==)>(acc: seq<T>, x: T): seq<T> {
    if x in acc then acc else acc + [x]
  }

  /** `Array.from(new Set(xs))`: the distinct elements of `xs`, each where it
      first occurs. */
  function Dedup<T(==)>(xs: seq<T>): seq<T>
    decreases |xs|
  {
    if xs == [] then [] else AddDistinct(Dedup(xs[..|xs| - 1]), xs[|xs| - 1])
  }

  /** Adding one element at the end of the input adds it to the set. */
  lemma DedupSnoc<T>(xs: seq<T>, x: T)
    ensures Dedup(xs + [x]) == AddDistinct(Dedup(xs), x)
  {
    assert (xs + [x])[..|xs|] == xs;
  }

  /** The set `acc` after adding each of `xs` in turn. */
  function AddAllDistinct<T(==)>(acc: seq<T>, xs: seq<T>): seq<T>
    decreases |xs|
  {
    if xs == [] then acc else AddAllDistinct(AddDistinct(acc, xs[0]), xs[1..])
  }

  /** Adding the rest of a sequence to the set of its prefix gives the set
      of the whole sequence. */
  lemma {:induction false} AddAllDistinctDedup<T>(xs: seq<T>, ys: seq<T>)
    ensures AddAllDistinct(Dedup(xs), ys) == Dedup(xs + ys)
    decreases |ys|
  {
    if ys == [] {
      assert xs + ys == xs;
    } else {
      DedupSnoc(xs, ys[0]);
      AddAllDistinctDedup(xs + [ys[0]], ys[1..]);
      assert xs + [ys[0]] + ys[1..] == xs + ys;
    }
  }

  /** No element occurs twice. */
  predicate Distinct<T(==)>(xs: seq<T>) {
    forall i, j :: 0 <= i < j < |xs| ==> xs[i] != xs[j]
  }

  /** The set keeps every element once and adds nothing. */
  lemma {:induction false} DedupSpec<T>(xs: seq<T>)
    ensures Distinct(Dedup(xs))
    ensures forall x :: x in Dedup(xs) <==> x in xs
    ensures |Dedup(xs)| <= |xs|
    decreases |xs|
  {
    if xs != [] {
      var init := xs[..|xs| - 1];
      DedupSpec(init);
      assert xs == init + [xs[|xs| - 1]];
    }
  }

  /** What the set holds after a prefix of the input is a prefix of what it
      holds at the end: elements keep their first-occurrence order. */
  lemma {:induction false} DedupPrefix<T>(xs: seq<T>, k: nat)
    requires k <= |xs|
    ensures Dedup(xs[..k]) <= Dedup(xs)
    decreases |xs|
  {
    if k < |xs| {
      var init := xs[..|xs| - 1];
      assert xs[..k] == init[..k];
      DedupPrefix(init, k);
    } else {
      assert xs[..k] == xs;
    }
  }

  /** A sequence without repetitions is its own set. */
  lemma {:induction false} DedupOfDistinct<T>(xs: seq<T>)
    requires Distinct(xs)
    ensures Dedup(xs) == xs
    decreases |xs|
  {
    if xs != [] {
      var init := xs[..|xs| - 1];
      assert Distinct(init) by {
        forall i, j | 0 <= i < j < |init| ensures init[i] != init[j] {
          assert init[i] == xs[i] && init[j] == xs[j];
        }
      }
      DedupOfDistinct(init);
      assert xs[|xs| - 1] !in init by {
        forall i | 0 <= i < |init| ensures init[i] != xs[|xs| - 1] {
          assert init[i] == xs[i];
        }
      }
      assert xs == init + [xs[|xs| - 1]];
    }
  }
}
