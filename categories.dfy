/** The category picker shared by the clipboard and template edit screens
    (src/screens/clipboard/ClipboardEditScreen.tsx and
    src/screens/clipboard/TemplateEditScreen.tsx): the merged list of
    default, custom and in-use categories, which ones count as custom, the
    selection toggle, the create guard and the in-use check. */
module Categories {
  import opened Wrappers
  import opened Text
  import opened Items
  import opened OrderedMaps
  import opened Repository

  /** `DEFAULT_CATEGORIES`, in display order. */
  const DefaultCategories: seq<string> := ["Work", "Personal", "Links", "Notes", "Shopping", "Other"]

  predicate NotDefault(v: string) {
    v !in DefaultCategories
  }

  /** A default up to case. */
  predicate IsDefaultAnyCase(cat: string) {
    exists i | 0 <= i < |DefaultCategories| :: Lower(DefaultCategories[i]) == Lower(cat)
  }

  // ---------------------------------------------------------------------
  // The merge

  /** The defaults go in under their lower-case key, unchanged. */
  function Seed(m: Entries, defaults: seq<string>): Entries
    decreases |defaults|
  {
    if defaults == [] then m
    else Seed(Assign(m, Lower(defaults[0]), defaults[0]), defaults[1..])
  }

  /** A `forEach` over one source: a non-blank category goes in under its
      lower-cased (untrimmed) key with its trimmed text as the value. */
  function MergeInto(m: Entries, cats: seq<string>): Entries
    decreases |cats|
  {
    if cats == [] then m
    else MergeInto(if IsBlank(cats[0]) then m else Assign(m, Lower(cats[0]), Trim(cats[0])), cats[1..])
  }

  /** The map after the three loops. */
  function CategoryMap(custom: seq<string>, existing: seq<string>): Entries {
    MergeInto(MergeInto(Seed([], DefaultCategories), custom), existing)
  }

  /** `allCategories`: the defaults, then every map value that is not
      exactly a default, in the map's order. */
  function MergedCategories(custom: seq<string>, existing: seq<string>): seq<string> {
    DefaultCategories + Filter(Values(CategoryMap(custom, existing)), NotDefault)
  }

  /** The defaults loop. */
  method SeedLoop(m0: Entries, defaults: seq<string>) returns (m: Entries)
    ensures m == Seed(m0, defaults)
  {
    m := m0;
    var n := 0;
    while n < |defaults|
      invariant 0 <= n <= |defaults|
      invariant Seed(m, defaults[n..]) == Seed(m0, defaults)
    {
      assert defaults[n..][1..] == defaults[n + 1..];
      m := Assign(m, Lower(defaults[n]), defaults[n]);
      n := n + 1;
    }
  }

  /** One `forEach` over custom or in-use categories. */
  method MergeLoop(m0: Entries, cats: seq<string>) returns (m: Entries)
    ensures m == MergeInto(m0, cats)
  {
    m := m0;
    var n := 0;
    while n < |cats|
      invariant 0 <= n <= |cats|
      invariant MergeInto(m, cats[n..]) == MergeInto(m0, cats)
    {
      assert cats[n..][1..] == cats[n + 1..];
      if !IsBlank(cats[n]) {
        m := Assign(m, Lower(cats[n]), Trim(cats[n]));
      }
      n := n + 1;
    }
  }

  /** The `filter` that drops the exact defaults from the map's values. */
  method KeepOthers(values: seq<string>) returns (others: seq<string>)
    ensures others == Filter(values, NotDefault)
  {
    others := [];
    var n := 0;
    while n < |values|
      invariant 0 <= n <= |values|
      invariant others == Filter(values[..n], NotDefault)
    {
      assert values[..n + 1] == values[..n] + [values[n]];
      FilterAppend(values[..n], [values[n]], NotDefault);
      if values[n] !in DefaultCategories {
        others := others + [values[n]];
      }
      n := n + 1;
    }
    assert values[..n] == values;
  }

  /** `allCategories`, loop by loop. */
  method AllCategories(custom: seq<string>, existing: seq<string>) returns (r: seq<string>)
    ensures r == MergedCategories(custom, existing)
  {
    var m := SeedLoop([], DefaultCategories);
    m := MergeLoop(m, custom);
    m := MergeLoop(m, existing);
    var others := KeepOthers(Values(m));
    r := DefaultCategories + others;
  }

  /** The entry for `k` names the key up to case and white space. */
  predicate CoherentAt(m: Entries, k: string) {
    Lookup(m, k).Some? && Lower(Lookup(m, k).value) == Trim(k)
  }

  /** A key that holds a coherent entry keeps one through later merges:
      whoever writes the key again writes a spelling of it. */
  lemma {:induction false} StaysPresent(m: Entries, cats: seq<string>, k: string)
    requires CoherentAt(m, k)
    ensures CoherentAt(MergeInto(m, cats), k)
    decreases |cats|
  {
    if cats != [] {
      var c := cats[0];
      if !IsBlank(c) {
        var m' := Assign(m, Lower(c), Trim(c));
        if Lower(c) == k {
          AssignLookupSame(m, k, Trim(c));
          LowerTrim(c);
        } else {
          AssignLookupOther(m, Lower(c), Trim(c), k);
        }
        StaysPresent(m', cats[1..], k);
      } else {
        StaysPresent(m, cats[1..], k);
      }
    }
  }

  /** After a merge, every non-blank category of the source has an entry
      under its lower-cased key that names it up to case and white space. */
  lemma {:induction false} MergeIntoCovers(m: Entries, cats: seq<string>)
    ensures forall c :: c in cats && !IsBlank(c) ==> CoherentAt(MergeInto(m, cats), Lower(c))
    decreases |cats|
  {
    if cats != [] {
      var c := cats[0];
      var m' := if IsBlank(c) then m else Assign(m, Lower(c), Trim(c));
      MergeIntoCovers(m', cats[1..]);
      if !IsBlank(c) {
        AssignLookupSame(m, Lower(c), Trim(c));
        LowerTrim(c);
        StaysPresent(m', cats[1..], Lower(c));
      }
      assert forall x :: x in cats ==> x == c || x in cats[1..];
    }
  }

  /** The merged list starts with the defaults and its tail holds no exact
      default. */
  lemma MergedCategoriesShape(custom: seq<string>, existing: seq<string>)
    ensures var r := MergedCategories(custom, existing);
      && r[..|DefaultCategories|] == DefaultCategories
      && (forall v :: v in r[|DefaultCategories|..] ==> v !in DefaultCategories)
  {
    var m := CategoryMap(custom, existing);
    FilterSpec(Values(m), NotDefault);
    assert MergedCategories(custom, existing)[|DefaultCategories|..] == Filter(Values(m), NotDefault);
  }

  /** Whatever the map holds under a key is listed: as a default, or in
      the tail. */
  lemma ValueListed(m: Entries, k: string)
    requires Lookup(m, k).Some?
    ensures Lookup(m, k).value in DefaultCategories + Filter(Values(m), NotDefault)
  {
    var v := Lookup(m, k).value;
    var i := IndexOfKey(m, k).value;
    assert v == Values(m)[i];
    if v !in DefaultCategories {
      FilterSpec(Values(m), NotDefault);
      assert v in Filter(Values(m), NotDefault);
    }
  }

  /** Every non-blank custom or in-use category has a coherent entry in the
      map under its lower-cased key. */
  lemma MapCovers(custom: seq<string>, existing: seq<string>, c: string)
    requires c in custom || c in existing
    requires !IsBlank(c)
    ensures CoherentAt(CategoryMap(custom, existing), Lower(c))
  {
    var m0 := Seed([], DefaultCategories);
    var m1 := MergeInto(m0, custom);
    if c in existing {
      MergeIntoCovers(m1, existing);
    } else {
      MergeIntoCovers(m0, custom);
      StaysPresent(m1, existing, Lower(c));
    }
  }

  /** Every non-blank custom or in-use category is listed, up to case and
      surrounding white space. */
  lemma MergedCategoriesCover(custom: seq<string>, existing: seq<string>, c: string)
    requires c in custom || c in existing
    requires !IsBlank(c)
    ensures exists v :: v in MergedCategories(custom, existing) && Lower(v) == Lower(Trim(c))
  {
    var m := CategoryMap(custom, existing);
    MapCovers(custom, existing, c);
    ValueListed(m, Lower(c));
    LowerTrim(c);
    var v := Lookup(m, Lower(c)).value;
    assert v in MergedCategories(custom, existing);
  }

  /** A merge keeps the keys distinct: a key already present is written in
      place. */
  lemma {:induction false} MergeIntoKeysDistinct(m: Entries, cats: seq<string>)
    requires KeysDistinct(m)
    ensures KeysDistinct(MergeInto(m, cats))
    decreases |cats|
  {
    if cats != [] {
      var m' := if IsBlank(cats[0]) then m else Assign(m, Lower(cats[0]), Trim(cats[0]));
      if !IsBlank(cats[0]) {
        AssignKeys(m, Lower(cats[0]), Trim(cats[0]));
      }
      MergeIntoKeysDistinct(m', cats[1..]);
    }
  }

  /** The map never holds two entries under one lower-case key. */
  lemma CategoryMapKeysDistinct(custom: seq<string>, existing: seq<string>)
    ensures KeysDistinct(CategoryMap(custom, existing))
  {
    SeededDefaults();
    DefaultKeysDistinct();
    var m0 := Seed([], DefaultCategories);
    MergeIntoKeysDistinct(m0, custom);
    MergeIntoKeysDistinct(MergeInto(m0, custom), existing);
  }

  /** So all spellings of a category that share its lower-cased key end in
      one entry of the map, and so give one value to the list. */
  lemma OneEntryPerKey(custom: seq<string>, existing: seq<string>, c: string, c': string)
    requires c in custom || c in existing
    requires c' in custom || c' in existing
    requires !IsBlank(c) && Lower(c') == Lower(c)
    ensures var m := CategoryMap(custom, existing);
      && IndexOfKey(m, Lower(c)).Some?
      && forall j :: 0 <= j < |m| && (m[j].0 == Lower(c) || m[j].0 == Lower(c')) ==> j == IndexOfKey(m, Lower(c)).value
  {
    MapCovers(custom, existing, c);
    CategoryMapKeysDistinct(custom, existing);
  }

  /** Each of `d` under its lower-case key, in order. */
  function Keyed(d: seq<string>): (r: Entries)
    ensures |r| == |d| && forall i :: 0 <= i < |d| ==> r[i] == (Lower(d[i]), d[i])
  {
    seq(|d|, i requires 0 <= i < |d| => (Lower(d[i]), d[i]))
  }

  /** Seeding with names whose lower-case keys are new and pairwise distinct
      appends one entry per name, in order. */
  lemma {:induction false} SeedFresh(m: Entries, d: seq<string>)
    requires forall i, j :: 0 <= i < |m| && 0 <= j < |d| ==> m[i].0 != Lower(d[j])
    requires forall i, j :: 0 <= i < j < |d| ==> Lower(d[i]) != Lower(d[j])
    ensures Seed(m, d) == m + Keyed(d)
    decreases |d|
  {
    if d == [] {
      assert m + Keyed(d) == m;
    } else {
      var m' := m + [(Lower(d[0]), d[0])];
      AssignNew(m, Lower(d[0]), d[0]);
      SeedFreshStep(m, d);
      SeedFresh(m', d[1..]);
      KeyedCons(m, d);
    }
  }

  /** The conditions of `SeedFresh` hold again after the first name. */
  lemma SeedFreshStep(m: Entries, d: seq<string>)
    requires d != []
    requires forall i, j :: 0 <= i < |m| && 0 <= j < |d| ==> m[i].0 != Lower(d[j])
    requires forall i, j :: 0 <= i < j < |d| ==> Lower(d[i]) != Lower(d[j])
    ensures var m', rest := m + [(Lower(d[0]), d[0])], d[1..];
      && (forall i, j :: 0 <= i < |m'| && 0 <= j < |rest| ==> m'[i].0 != Lower(rest[j]))
      && (forall i, j :: 0 <= i < j < |rest| ==> Lower(rest[i]) != Lower(rest[j]))
  {
    var m', rest := m + [(Lower(d[0]), d[0])], d[1..];
    forall i, j | 0 <= i < |m'| && 0 <= j < |rest|
      ensures m'[i].0 != Lower(rest[j])
    {
      assert rest[j] == d[j + 1];
    }
    forall i, j | 0 <= i < j < |rest|
      ensures Lower(rest[i]) != Lower(rest[j])
    {
      assert rest[i] == d[i + 1] && rest[j] == d[j + 1];
    }
  }

  lemma KeyedCons(m: Entries, d: seq<string>)
    requires d != []
    ensures m + [(Lower(d[0]), d[0])] + Keyed(d[1..]) == m + Keyed(d)
  {
    assert [(Lower(d[0]), d[0])] + Keyed(d[1..]) == Keyed(d);
  }

  /** No two defaults share a lower-case key: they differ in length or in
      their first letter. */
  lemma DefaultKeysDistinct()
    ensures forall i, j :: 0 <= i < j < |DefaultCategories| ==>
      Lower(DefaultCategories[i]) != Lower(DefaultCategories[j])
  {
    var d := DefaultCategories;
    forall i, j | 0 <= i < j < |d| ensures Lower(d[i]) != Lower(d[j]) {
      if |d[i]| == |d[j]| {
        assert d[i][0] != d[j][0];
        assert Lower(d[i])[0] != Lower(d[j])[0];
      }
    }
  }

  /** The seeded map holds the defaults, each under its lower-case key, in
      display order. */
  lemma SeededDefaults()
    ensures Seed([], DefaultCategories) == Keyed(DefaultCategories)
  {
    DefaultKeysDistinct();
    SeedFresh([], DefaultCategories);
  }

  /** A custom category that differs from a default only in case takes the
      default's place in the map, under the same key. */
  lemma CaseVariantReplaces(c: string, i: nat)
    requires i < |DefaultCategories| && Lower(c) == Lower(DefaultCategories[i])
    requires c != [] && !IsSpace(c[0]) && !IsSpace(c[|c| - 1])
    ensures CategoryMap([c], []) == Keyed(DefaultCategories)[i := (Lower(c), c)]
  {
    var d := DefaultCategories;
    var seed := Seed([], d);
    SeededDefaults();
    DefaultKeysDistinct();
    assert IndexOfKey(seed, Lower(c)) == Some(i);
    TrimOfTrimmed(c);
    var m := seed[i := (Lower(c), c)];
    assert MergeInto(seed, [c]) == MergeInto(m, []);
  }

  /** Replacing one entry of a keyed list replaces its value. */
  lemma ValuesKeyedUpdate(d: seq<string>, i: nat, k: string, c: string)
    requires i < |d|
    ensures Values(Keyed(d)[i := (k, c)]) == d[i := c]
  {
  }

  /** Of the defaults with one of them replaced by a non-default, the filter
      keeps only the replacement. */
  lemma OnlyReplacementKept(c: string, i: nat)
    requires i < |DefaultCategories| && c !in DefaultCategories
    ensures Filter(DefaultCategories[i := c], NotDefault) == [c]
  {
    var d := DefaultCategories;
    assert d[i := c] == d[..i] + [c] + d[i + 1..];
    FilterAppend(d[..i] + [c], d[i + 1..], NotDefault);
    FilterAppend(d[..i], [c], NotDefault);
    FilterNone(d[..i], NotDefault);
    FilterNone(d[i + 1..], NotDefault);
  }

  /** So a case variant of a default is listed after the defaults, next to
      the default it displaced from the map. */
  lemma CaseVariantListedTwice(c: string, i: nat)
    requires i < |DefaultCategories| && Lower(c) == Lower(DefaultCategories[i])
    requires c !in DefaultCategories
    requires c != [] && !IsSpace(c[0]) && !IsSpace(c[|c| - 1])
    ensures MergedCategories([c], []) == DefaultCategories + [c]
  {
    CaseVariantReplaces(c, i);
    ValuesKeyedUpdate(DefaultCategories, i, Lower(c), c);
    OnlyReplacementKept(c, i);
  }

  /** "WORK" is listed as well as "Work". */
  lemma WorkListedTwice()
    ensures MergedCategories(["WORK"], []) == DefaultCategories + ["WORK"]
  {
    assert Lower("WORK") == Lower(DefaultCategories[0]);
    assert "WORK" !in DefaultCategories;
    CaseVariantListedTwice("WORK", 0);
  }

  // ---------------------------------------------------------------------
  // Custom categories, selection, creation, use

  /** `isCustomCategory`: not empty, not a default up to case, and in the
      custom list up to case. */
  predicate IsCustomCategory(custom: seq<string>, cat: string) {
    && cat != []
    && !IsDefaultAnyCase(cat)
    && exists i | 0 <= i < |custom| :: Lower(custom[i]) == Lower(cat)
  }

  /** A category just added to the custom list is custom unless it is a
      default; one just removed is not. */
  lemma CustomAfterAddAndRemove(custom: seq<string>, cat: string)
    requires Trim(cat) != [] && !IsDefaultAnyCase(Trim(cat))
    ensures IsCustomCategory(WithCustomCategory(custom, cat), Trim(cat))
    ensures !IsCustomCategory(WithoutCustomCategory(custom, cat), Trim(cat))
  {
    TrimIdempotent(cat);
    WithoutCustomCategorySpec(custom, cat);
    var removed := WithoutCustomCategory(custom, cat);
    forall i | 0 <= i < |removed| ensures Lower(removed[i]) != Lower(Trim(cat)) {
      assert removed[i] in removed;
    }
  }

  /** A default, in any case, is never custom. */
  lemma DefaultsNeverCustom(custom: seq<string>, cat: string)
    requires IsDefaultAnyCase(cat)
    ensures !IsCustomCategory(custom, cat)
  {
  }

  /** `handleCategorySelect`: choosing the selected category clears the
      selection, choosing another selects it. */
  function SelectCategory(current: string, chosen: string): (r: string)
    ensures r == [] || r == chosen
    ensures r == chosen <==> current != chosen || chosen == []
  {
    if current == chosen then [] else chosen
  }

  lemma SelectTwice(current: string, chosen: string)
    requires current != chosen
    ensures SelectCategory(SelectCategory(current, chosen), chosen) == []
  {
  }

  /** An item uses the category up to case. */
  predicate UsedBy(it: Item, category: string) {
    it.category.Some? && Lower(it.category.value) == Lower(category)
  }

  /** `itemsUsingCategory.length > 0`. */
  function UsageCount(items: seq<Item>, category: string): (n: nat)
    ensures n > 0 <==> exists i :: 0 <= i < |items| && UsedBy(items[i], category)
  {
    var p := (it: Item) => UsedBy(it, category);
    FilterSpec(items, p);
    assert forall i :: 0 <= i < |items| && UsedBy(items[i], category) ==> items[i] in Filter(items, p);
    Count(items, p)
  }

  /** The clipboard screen's create guard: the trimmed input is created
      unless it is empty or already listed up to case. */
  function CreateTarget(all: seq<string>, input: string): (r: Option<string>)
    ensures r.Some? ==> r.value == Trim(input) && r.value != []
    ensures r.Some? ==> forall i :: 0 <= i < |all| ==> Lower(all[i]) != Lower(r.value)
    ensures r.None? ==> Trim(input) == [] || exists i :: 0 <= i < |all| && Lower(all[i]) == Lower(Trim(input))
  {
    var name := Trim(input);
    if name == [] then None
    else if exists i | 0 <= i < |all| :: Lower(all[i]) == Lower(name) then None
    else Some(name)
  }

  /** The template screen's create guard as written: the duplicate check
      compares the untrimmed input. */
  function CreateTargetAsWritten(all: seq<string>, input: string): Option<string> {
    var name := Trim(input);
    if name == [] then None
    else if exists i | 0 <= i < |all| :: Lower(all[i]) == Lower(input) then None
    else Some(name)
  }

  /** No default starts with white space, so none lower-cases to a padded
      input. */
  lemma PaddedNotListed(input: string)
    requires input != [] && input[0] == ' '
    ensures forall i :: 0 <= i < |DefaultCategories| ==> Lower(DefaultCategories[i]) != Lower(input)
  {
    forall i | 0 <= i < |DefaultCategories| ensures Lower(DefaultCategories[i]) != Lower(input) {
      var d := DefaultCategories[i];
      assert d != [] && 'A' <= d[0] <= 'Z';
      assert Lower(d)[0] != Lower(input)[0];
    }
  }

  /** A leading space is dropped by the trim. */
  lemma TrimLeadingSpace(x: string)
    requires x != [] && !IsSpace(x[0]) && !IsSpace(x[|x| - 1])
    ensures Trim([' '] + x) == x
  {
    assert TrimStart([' '] + x) == TrimStart(x);
    TrimOfTrimmed(x);
  }

  /** With a leading space, "Work" passes the written check although it is
      listed, so a default is added to the custom list. */
  lemma PaddedDuplicatePasses()
    ensures CreateTargetAsWritten(DefaultCategories, " Work") == Some("Work")
  {
    assert " Work" == [' '] + "Work";
    TrimLeadingSpace("Work");
    PaddedNotListed(" Work");
  }

  /** The trimmed check refuses the same input. */
  lemma PaddedDuplicateRefused()
    ensures CreateTarget(DefaultCategories, " Work") == None
  {
    assert " Work" == [' '] + "Work";
    TrimLeadingSpace("Work");
    assert Lower(DefaultCategories[0]) == Lower("Work");
  }

  /** Both guards agree on input without surrounding white space. */
  lemma GuardsAgreeOnTrimmed(all: seq<string>, input: string)
    requires Trim(input) == input
    ensures CreateTargetAsWritten(all, input) == CreateTarget(all, input)
  {
  }
}
