/** The mutation routing of the clipboard context
    (src/context/ClipboardContext.tsx): length and count checks before any
    write, the choice between the remote path (signed in) and the local
    path (guest), the list shown on screen, and the push-then-pull run when
    a user signs in. `APP_LIMITS` is a parameter. */
module Context {
  import opened Wrappers
  import opened Text
  import opened Items
  import opened KeyValueStore
  import opened Repository
  import opened Encryption
  import opened Sync

  /** `APP_LIMITS`. */
  datatype Limits = Limits(
    maxContent: nat, maxTitle: nat, maxCategory: nat, maxTemplates: nat, maxClipboards: nat)

  datatype LimitError =
    | ContentTooLong | TitleTooLong | CategoryTooLong | TooManyTemplates | TooManyClipboards

  datatype Failure = Limit(limit: LimitError) | Remote(error: SyncError)

  function TemplateCount(xs: seq<Item>): nat {
    Count(xs, (it: Item) => Truthy(it.isTemplate))
  }

  function ClipboardCount(xs: seq<Item>): nat {
    Count(xs, (it: Item) => !Truthy(it.isTemplate))
  }

  /** Every item is either a template or a clipboard item. */
  lemma {:induction false} CountsPartition(xs: seq<Item>)
    ensures TemplateCount(xs) + ClipboardCount(xs) == |xs|
  {
    if xs != [] {
      CountsPartition(xs[1..]);
    }
  }

  /** The three length checks of `addItem`, made before the list is read;
      the category is measured only when it is a non-empty string. */
  function CheckLengths(limits: Limits, d: Draft): (r: Option<LimitError>)
    ensures r == Some(ContentTooLong) <==> |d.content| > limits.maxContent
    ensures r == Some(TitleTooLong) <==> |d.content| <= limits.maxContent && |d.title| > limits.maxTitle
    ensures r == Some(CategoryTooLong) <==>
      |d.content| <= limits.maxContent && |d.title| <= limits.maxTitle && d.category.Some? && |d.category.value| > limits.maxCategory
    ensures r.None? <==> LengthsOk(limits, d)
  {
    if |d.content| > limits.maxContent then Some(ContentTooLong)
    else if |d.title| > limits.maxTitle then Some(TitleTooLong)
    else if d.category.Some? && d.category.value != [] && |d.category.value| > limits.maxCategory then Some(CategoryTooLong)
    else None
  }

  predicate LengthsOk(limits: Limits, d: Draft) {
    && |d.content| <= limits.maxContent && |d.title| <= limits.maxTitle
    && (d.category.Some? ==> |d.category.value| <= limits.maxCategory)
  }

  /** There is room for one more item of the draft's own kind. */
  predicate CountOk(limits: Limits, d: Draft, items: seq<Item>) {
    if d.isTemplate == Some(true) then TemplateCount(items) < limits.maxTemplates
    else ClipboardCount(items) < limits.maxClipboards
  }

  /** The checks of `addItem`, in the order the source makes them: the
      lengths, then the count of the draft's own kind. */
  function ValidateNew(limits: Limits, d: Draft, items: seq<Item>): (r: Option<LimitError>)
    ensures r == Some(ContentTooLong) <==> |d.content| > limits.maxContent
    ensures r == Some(TitleTooLong) <==> |d.content| <= limits.maxContent && |d.title| > limits.maxTitle
    ensures r == Some(CategoryTooLong) <==>
      |d.content| <= limits.maxContent && |d.title| <= limits.maxTitle && d.category.Some? && |d.category.value| > limits.maxCategory
    ensures r == Some(TooManyTemplates) <==>
      LengthsOk(limits, d) && d.isTemplate == Some(true) && TemplateCount(items) >= limits.maxTemplates
    ensures r == Some(TooManyClipboards) <==>
      LengthsOk(limits, d) && d.isTemplate != Some(true) && ClipboardCount(items) >= limits.maxClipboards
    ensures r.None? <==> LengthsOk(limits, d) && CountOk(limits, d, items)
  {
    var lengths := CheckLengths(limits, d);
    if lengths.Some? then lengths
    else if d.isTemplate == Some(true) then
      if TemplateCount(items) >= limits.maxTemplates then Some(TooManyTemplates) else None
    else
      if ClipboardCount(items) >= limits.maxClipboards then Some(TooManyClipboards) else None
  }

  /** While fewer items are stored than either limit allows, only the
      lengths can refuse a draft. */
  lemma RoomBelowBothLimits(limits: Limits, d: Draft, items: seq<Item>)
    requires |items| < limits.maxTemplates && |items| < limits.maxClipboards
    ensures ValidateNew(limits, d, items) == CheckLengths(limits, d)
  {
    CountsPartition(items);
  }

  /** The two limits are independent: an item of the other kind never
      changes the decision. */
  lemma CountsIndependent(limits: Limits, d: Draft, items: seq<Item>, other: Item)
    requires Truthy(other.isTemplate) != (d.isTemplate == Some(true))
    ensures ValidateNew(limits, d, items + [other]) == ValidateNew(limits, d, items)
  {
    FilterAppend(items, [other], (it: Item) => Truthy(it.isTemplate));
    FilterAppend(items, [other], (it: Item) => !Truthy(it.isTemplate));
  }

  /** The checks of `updateItem`: only fields present and non-empty in the
      patch are measured. */
  function ValidatePatch(limits: Limits, p: Patch): (r: Option<LimitError>)
    ensures p.content.Keep? && p.title.Keep? && p.category.Keep? ==> r.None?
    ensures r.None? <==>
      && (p.content.Put? ==> |p.content.value| <= limits.maxContent)
      && (p.title.Put? ==> |p.title.value| <= limits.maxTitle)
      && (p.category.Put? && p.category.value.Some? ==> |p.category.value.value| <= limits.maxCategory)
  {
    if p.content.Put? && p.content.value != [] && |p.content.value| > limits.maxContent then Some(ContentTooLong)
    else if p.title.Put? && p.title.value != [] && |p.title.value| > limits.maxTitle then Some(TitleTooLong)
    else if p.category.Put? && p.category.value.Some? && p.category.value.value != []
         && |p.category.value.value| > limits.maxCategory then Some(CategoryTooLong)
    else None
  }

  /** `loadItems`: a non-empty query wins over a selected category. */
  function Visible(xs: seq<Item>, query: string, category: Option<string>): (r: seq<Item>)
    ensures forall it :: it in r ==> it in xs
  {
    if query != [] then
      MatchingSpec(xs, query);
      Matching(xs, query)
    else if category.Some? && category.value != [] then
      WithCategorySpec(xs, category.value);
      WithCategory(xs, category.value)
    else xs
  }

  /** With both a query and a category, the category is ignored. */
  lemma QueryWins(xs: seq<Item>, query: string, category: string)
    requires query != []
    ensures Visible(xs, query, Some(category)) == Visible(xs, query, None)
  {
  }

  /** `addCustomCategory` as written for a signed-in user pushes the list as
      it was BEFORE the new category is added. With nothing remote and
      nothing local, "Work" is added locally but the remote list stays
      empty, and the next pull (remote wins) drops it. */
  lemma AddedCategoryNeverPushed()
    ensures WithCustomCategory([], "Work") == ["Work"]
    ensures ArrayUnion([], []) == []
    ensures !HasCategory(ArrayUnion([], []), "Work")
  {
    assert WithCustomCategory([], "Work") == ["Work"] by {
      TrimOfTrimmed("Work");
      assert !HasCategory([], "Work");
    }
    assert ArrayUnion([], []) == [];
  }

  /** Pushing the list with the new category in it puts the category in
      the remote list, whatever was there. */
  lemma PushedListHoldsNewCategory(remote: seq<string>, local: seq<string>, category: string)
    ensures HasCategory(ArrayUnion(remote, WithCustomCategory(local, category)), category)
  {
    var pushed := WithCustomCategory(local, category);
    var i :| 0 <= i < |pushed| && Lower(pushed[i]) == Lower(Trim(category));
    ArrayUnionSpec(remote, pushed);
    assert pushed[i] in pushed;
    HasCategoryByMember(ArrayUnion(remote, pushed), pushed[i], category);
  }

  lemma HasCategoryByMember(cats: seq<string>, x: string, category: string)
    requires x in cats && Lower(x) == Lower(Trim(category))
    ensures HasCategory(cats, category)
  {
    var j :| 0 <= j < |cats| && cats[j] == x;
  }

  /** After the item at the first index with its id is replaced by one
      with the same id, that index is still the first. */
  lemma ToggledFound(xs: seq<Item>, i: nat, t: Item)
    requires FindIndex(xs, t.id) == Some(i)
    ensures FindIndex(xs[i := t], t.id) == Some(i)
    ensures FindById(xs[i := t], t.id) == Some(t)
  {
    FindIndexSameIds(xs, xs[i := t], t.id);
  }

  /** A write of the item list after a write of the item list, or after
      one followed by nothing, is one write of the last list. */
  lemma SavedTwice(open0: bool, stored0: map<string, Value>,
                   open1: bool, stored1: map<string, Value>, items1: seq<Item>,
                   open2: bool, stored2: map<string, Value>, items2: seq<Item>, engineOk: bool)
    requires open1 == (open0 || engineOk)
    requires stored1 == if open1 then stored0[ClipboardItemsKey := ItemList(items1)] else stored0
    requires || (open2 == open1 && stored2 == stored1 && items2 == items1)
             || (open2 == (open1 || engineOk) && stored2 == if open2 then stored1[ClipboardItemsKey := ItemList(items2)] else stored1)
    ensures open2 == (open0 || engineOk)
    ensures stored2 == if open2 then stored0[ClipboardItemsKey := ItemList(items2)] else stored0
  {
  }

  /** `ClipboardProvider`: the shown list and its query and category, over
      the sync service (which owns the repository and the remote store).
      `user` on each call is the signed-in user; `isAuthenticated` is
      `user.Some?`. */
  class ClipboardProvider {
    var items: seq<Item>
    var searchQuery: string
    var selectedCategory: Option<string>
    const sync: SyncService
    const limits: Limits

    constructor (sync: SyncService, limits: Limits)
      ensures items == [] && searchQuery == [] && selectedCategory.None?
      ensures this.sync == sync && this.limits == limits
    {
      items := [];
      searchQuery := [];
      selectedCategory := None;
      this.sync := sync;
      this.limits := limits;
    }

    /** The remote state. */
    ghost function RemoteState(): (map<string, map<string, Doc>>, map<string, UserDoc>)
      reads sync, sync.remote
    {
      (sync.remote.clipboard, sync.remote.userDocs)
    }

    method LoadItems(engineOk: bool)
      modifies this`items, sync.repo, sync.repo.store, sync.repo.store.instance
      ensures sync.repo.cache == Loaded(old(sync.repo.Pending(engineOk)))
      ensures items == Visible(sync.repo.cache.items, searchQuery, selectedCategory)
      ensures sync.repo.Untouched(engineOk)
    {
      var all := sync.repo.GetAll(engineOk);
      if searchQuery != [] {
        all := sync.repo.Search(searchQuery, engineOk);
      } else if selectedCategory.Some? && selectedCategory.value != [] {
        all := sync.repo.FilterByCategory(selectedCategory.value, engineOk);
      }
      items := all;
    }

    /** The document a signed-in push of `item` writes. */
    ghost function PushedFor(user: Option<User>, item: Item, ivTitle: Iv, ivContent: Iv, now: string): Doc
      reads sync
    {
      PushedDoc(sync.suite, GetKey(sync.suite, user, sync.salt), item, ivTitle, ivContent, now)
    }

    /** `addItem`: the length checks come first and touch nothing; then the
        list is read for the count check; then the item goes to the remote
        store when signed in and to the repository otherwise. `created` and
        `stamped` are the two reads of the clock. */
    method AddItem(d: Draft, id: string, created: string, stamped: string, user: Option<User>, online: bool, now: string,
                   ivTitle: Iv, ivContent: Iv, engineOk: bool)
      returns (r: Result<Item, Failure>)
      modifies this`items, sync, sync.remote, sync.repo, sync.repo.store, sync.repo.store.instance
      ensures CheckLengths(limits, d).Some? ==>
        && r == Err(Limit(CheckLengths(limits, d).value))
        && RemoteState() == old(RemoteState()) && items == old(items)
        && sync.repo.cache == old(sync.repo.cache)
        && sync.repo.store.IsOpen() == old(sync.repo.store.IsOpen())
        && sync.repo.store.Contents() == old(sync.repo.store.Contents())
      ensures ValidateNew(limits, d, old(sync.repo.Pending(engineOk))).Some? ==>
        && r == Err(Limit(ValidateNew(limits, d, old(sync.repo.Pending(engineOk))).value))
        && RemoteState() == old(RemoteState())
        && sync.repo.store.Contents() == old(sync.repo.store.Contents())
      ensures user.None? ==> RemoteState() == old(RemoteState())
      ensures user.None? && ValidateNew(limits, d, old(sync.repo.Pending(engineOk))).None? ==>
        && r == Ok(FromDraft(d, id, created, stamped))
        && sync.repo.cache == Loaded(old(sync.repo.Pending(engineOk)) + [r.value])
        && sync.repo.Saved(engineOk)
      ensures user.Some? && ValidateNew(limits, d, old(sync.repo.Pending(engineOk))).None? ==>
        && (UserId(user).None? ==> r == Err(Remote(NotLoggedIn)))
        && (UserId(user).Some? && !online ==> r == Err(Remote(NoInternet)))
      ensures user.Some? && r.Err? ==>
        RemoteState() == old(RemoteState()) && sync.repo.store.Contents() == old(sync.repo.store.Contents())
      ensures user.Some? && r.Ok? ==>
        var uid := UserId(user).value;
        var item := FromDraft(d, id, created, stamped);
        && UserId(user).Some? && online
        && r.value == SavedCopy(item, now)
        && sync.remote.clipboard == old(sync.remote.clipboard)[uid := Collection(old(sync.remote.clipboard), uid)[id := PushedFor(user, item, ivTitle, ivContent, now)]]
        && sync.remote.userDocs == old(sync.remote.userDocs)
        && sync.repo.cache == Loaded(Upserted(old(sync.repo.Pending(engineOk)), r.value))
        && sync.repo.Saved(engineOk)
      ensures r.Ok? ==> items == Visible(sync.repo.cache.items, searchQuery, selectedCategory)
      ensures r.Err? ==> items == old(items)
    {
      var lengths := CheckLengths(limits, d);
      if lengths.Some? {
        return Err(Limit(lengths.value));
      }
      var current := sync.repo.GetAll(engineOk);
      var invalid := ValidateNew(limits, d, current);
      if invalid.Some? {
        return Err(Limit(invalid.value));
      }
      if user.Some? {
        var saved := sync.CreateItem(d, id, created, stamped, user, online, now, ivTitle, ivContent, engineOk);
        if saved.Err? {
          return Err(Remote(saved.error));
        }
        LoadItems(engineOk);
        r := Ok(saved.value);
      } else {
        var item := sync.repo.Create(d, id, created, stamped, engineOk);
        LoadItems(engineOk);
        r := Ok(item);
      }
    }

    /** `updateItem`: the item is looked up first, then the patch checks,
        then the remote path or the local one. `Ok(None)` is the local
        path's unknown id. */
    method UpdateItem(id: string, p: Patch, user: Option<User>, online: bool, now: string,
                      ivTitle: Iv, ivContent: Iv, engineOk: bool)
      returns (r: Result<Option<Item>, Failure>)
      modifies this`items, sync, sync.remote, sync.repo, sync.repo.store, sync.repo.store.instance
      ensures ValidatePatch(limits, p).Some? ==>
        && r == Err(Limit(ValidatePatch(limits, p).value))
        && RemoteState() == old(RemoteState())
        && sync.repo.cache == Loaded(old(sync.repo.Pending(engineOk)))
        && sync.repo.store.Contents() == old(sync.repo.store.Contents())
      ensures user.None? ==> RemoteState() == old(RemoteState())
      ensures user.None? && ValidatePatch(limits, p).None? ==>
        var xs := old(sync.repo.Pending(engineOk));
        match FindIndex(xs, id)
        case None =>
          r == Ok(None) && sync.repo.cache == Loaded(xs) && sync.repo.store.Contents() == old(sync.repo.store.Contents())
        case Some(i) =>
          && r == Ok(Some(Merge(xs[i], p, now)))
          && sync.repo.cache == Loaded(xs[i := Merge(xs[i], p, now)])
          && sync.repo.Saved(engineOk)
      ensures user.Some? && ValidatePatch(limits, p).None? ==>
        var xs := old(sync.repo.Pending(engineOk));
        && (FindById(xs, id).None? ==> r == Err(Remote(ItemNotFound)))
        && (FindById(xs, id).Some? && UserId(user).None? ==> r == Err(Remote(NotLoggedIn)))
        && (FindById(xs, id).Some? && UserId(user).Some? && !online ==> r == Err(Remote(NoInternet)))
      ensures user.Some? && r.Err? ==>
        && RemoteState() == old(RemoteState())
        && sync.repo.cache == Loaded(old(sync.repo.Pending(engineOk)))
        && sync.repo.Untouched(engineOk)
      ensures user.Some? && r.Ok? ==>
        var xs := old(sync.repo.Pending(engineOk));
        var uid := UserId(user).value;
        var updated := Merge(FindById(xs, id).value, p, now);
        && FindById(xs, id).Some? && UserId(user).Some? && online
        && r == Ok(Some(SavedCopy(updated, now)))
        && sync.remote.clipboard == old(sync.remote.clipboard)[uid := Collection(old(sync.remote.clipboard), uid)[id := PushedFor(user, updated, ivTitle, ivContent, now)]]
        && sync.remote.userDocs == old(sync.remote.userDocs)
        && sync.repo.cache == Loaded(Upserted(xs, SavedCopy(updated, now)))
        && sync.repo.Saved(engineOk)
      ensures r.Ok? && r.value.Some? ==> items == Visible(sync.repo.cache.items, searchQuery, selectedCategory)
      ensures r.Err? || r == Ok(None) ==> items == old(items)
    {
      var _ := sync.repo.GetById(id, engineOk);
      var invalid := ValidatePatch(limits, p);
      if invalid.Some? {
        return Err(Limit(invalid.value));
      }
      if user.Some? {
        var updated := sync.UpdateItem(id, p, user, online, now, ivTitle, ivContent, engineOk);
        if updated.Err? {
          return Err(Remote(updated.error));
        }
        LoadItems(engineOk);
        r := Ok(Some(updated.value));
      } else {
        var updated := sync.repo.Update(id, p, now, engineOk);
        if updated.Some? {
          LoadItems(engineOk);
        }
        r := Ok(updated);
      }
    }

    /** `deleteItem`: the remote path or the local one. */
    method DeleteItem(id: string, user: Option<User>, online: bool, engineOk: bool)
      returns (r: Result<bool, Failure>)
      modifies this`items, sync, sync.remote, sync.repo, sync.repo.store, sync.repo.store.instance
      ensures user.None? ==> RemoteState() == old(RemoteState())
      ensures r == Ok(true) ==> sync.repo.cache.Loaded? && items == Visible(sync.repo.cache.items, searchQuery, selectedCategory)
      ensures r != Ok(true) ==> items == old(items)
      ensures user.None? ==>
        var xs := old(sync.repo.Pending(engineOk));
        match FindIndex(xs, id)
        case None => r == Ok(false) && sync.repo.cache == Loaded(xs) && sync.repo.store.Contents() == old(sync.repo.store.Contents())
        case Some(i) => r == Ok(true) && sync.repo.cache == Loaded(RemovedAt(xs, i)) && sync.repo.Saved(engineOk)
      ensures user.Some? && UserId(user).None? ==> r == Err(Remote(NotLoggedIn))
      ensures user.Some? && UserId(user).Some? && !online ==> r == Err(Remote(NoInternet))
      ensures user.Some? && r.Err? ==>
        RemoteState() == old(RemoteState()) && sync.repo.store.Contents() == old(sync.repo.store.Contents())
      ensures user.Some? && r.Ok? ==>
        var xs := old(sync.repo.Pending(engineOk));
        var uid := UserId(user).value;
        && r.value && UserId(user).Some? && online
        && sync.remote.clipboard == old(sync.remote.clipboard)[uid := Collection(old(sync.remote.clipboard), uid) - {id}]
        && sync.remote.userDocs == old(sync.remote.userDocs)
        && match FindIndex(xs, id)
           case None => sync.repo.cache == Loaded(xs) && sync.repo.store.Contents() == old(sync.repo.store.Contents())
           case Some(i) => sync.repo.cache == Loaded(RemovedAt(xs, i)) && sync.repo.Saved(engineOk)
    {
      var _ := sync.repo.GetById(id, engineOk);
      if user.Some? {
        r := DeleteRemotely(id, user, online, engineOk);
      } else {
        r := DeleteLocally(id, engineOk);
      }
    }

    /** The signed-in half of `deleteItem`: the remote document first, then
        the first local match. */
    method DeleteRemotely(id: string, user: Option<User>, online: bool, engineOk: bool)
      returns (r: Result<bool, Failure>)
      requires user.Some?
      modifies this`items, sync, sync.remote, sync.repo, sync.repo.store, sync.repo.store.instance
      ensures UserId(user).None? ==> r == Err(Remote(NotLoggedIn))
      ensures r.Ok? ==> sync.repo.cache.Loaded? && items == Visible(sync.repo.cache.items, searchQuery, selectedCategory)
      ensures r.Err? ==> items == old(items)
      ensures UserId(user).Some? && !online ==> r == Err(Remote(NoInternet))
      ensures r.Err? ==>
        RemoteState() == old(RemoteState()) && sync.repo.store.Contents() == old(sync.repo.store.Contents())
      ensures r.Ok? ==>
        var xs := old(sync.repo.Pending(engineOk));
        var uid := UserId(user).value;
        && r.value && UserId(user).Some? && online
        && sync.remote.clipboard == old(sync.remote.clipboard)[uid := Collection(old(sync.remote.clipboard), uid) - {id}]
        && sync.remote.userDocs == old(sync.remote.userDocs)
        && match FindIndex(xs, id)
           case None => sync.repo.cache == Loaded(xs) && sync.repo.store.Contents() == old(sync.repo.store.Contents())
           case Some(i) => sync.repo.cache == Loaded(RemovedAt(xs, i)) && sync.repo.Saved(engineOk)
    {
      var deleted := sync.DeleteFromFirebase(id, user, online, engineOk);
      if deleted.Err? {
        return Err(Remote(deleted.error));
      }
      LoadItems(engineOk);
      r := Ok(deleted.value);
    }

    /** The guest half of `deleteItem`. */
    method DeleteLocally(id: string, engineOk: bool) returns (r: Result<bool, Failure>)
      modifies this`items, sync.repo, sync.repo.store, sync.repo.store.instance
      ensures RemoteState() == old(RemoteState())
      ensures r == Ok(true) ==> sync.repo.cache.Loaded? && items == Visible(sync.repo.cache.items, searchQuery, selectedCategory)
      ensures r != Ok(true) ==> items == old(items)
      ensures var xs := old(sync.repo.Pending(engineOk));
        match FindIndex(xs, id)
        case None => r == Ok(false) && sync.repo.cache == Loaded(xs) && sync.repo.store.Contents() == old(sync.repo.store.Contents())
        case Some(i) => r == Ok(true) && sync.repo.cache == Loaded(RemovedAt(xs, i)) && sync.repo.Saved(engineOk)
    {
      var deleted := sync.repo.Delete(id, engineOk);
      if deleted {
        LoadItems(engineOk);
      }
      r := Ok(deleted);
    }

    /** `toggleFavorite`: the local toggle happens first; a signed-in user's
        remote update follows and its failure is ignored, so the remote
        store either stays as it was or holds the toggled item. The toggle
        stamps the item at `now`; the push reads the clock again, at
        `pushedAt`, and the returned item keeps the toggle time. */
    method ToggleFavorite(id: string, user: Option<User>, online: bool, now: string, pushedAt: string,
                          ivTitle: Iv, ivContent: Iv, engineOk: bool)
      returns (r: Option<Item>)
      modifies this`items, sync, sync.remote, sync.repo, sync.repo.store, sync.repo.store.instance
      ensures user.None? ==> RemoteState() == old(RemoteState())
      ensures r.Some? ==> sync.repo.cache.Loaded? && items == Visible(sync.repo.cache.items, searchQuery, selectedCategory)
      ensures r.None? ==> items == old(items)
      ensures var xs := old(sync.repo.Pending(engineOk));
        match FindIndex(xs, id)
        case None =>
          && r.None? && RemoteState() == old(RemoteState())
          && sync.repo.cache == Loaded(xs) && sync.repo.store.Contents() == old(sync.repo.store.Contents())
        case Some(i) =>
          var t := xs[i].(favorite := ToggledFavorite(xs[i].favorite), updatedAt := now);
          && r == Some(t)
          && sync.repo.Saved(engineOk)
          && (|| (RemoteState() == old(RemoteState()) && sync.repo.cache == Loaded(xs[i := t]))
              || (&& user.Some? && UserId(user).Some? && online
                  && sync.remote.clipboard == old(sync.remote.clipboard)[UserId(user).value :=
                       Collection(old(sync.remote.clipboard), UserId(user).value)[id := PushedFor(user, t, ivTitle, ivContent, pushedAt)]]
                  && sync.remote.userDocs == old(sync.remote.userDocs)
                  && sync.repo.cache == Loaded(Upserted(xs[i := t], SavedCopy(t, pushedAt)))))
    {
      ghost var xs := sync.repo.Pending(engineOk);
      r := sync.repo.ToggleFavorite(id, now, engineOk);
      if r.Some? {
        ToggledFound(xs, FindIndex(xs, id).value, r.value);
        ghost var open1, stored1, items1 := sync.repo.store.IsOpen(), sync.repo.store.Contents(), sync.repo.cache.items;
        Toggled(r.value, user, online, pushedAt, ivTitle, ivContent, engineOk);
        SavedTwice(old(sync.repo.store.IsOpen()), old(sync.repo.store.Contents()), open1, stored1, items1,
                   sync.repo.store.IsOpen(), sync.repo.store.Contents(), sync.repo.cache.items, engineOk);
      }
    }

    /** What `toggleFavorite` does after a successful toggle: the reload,
        then for a signed-in user the context's `updateItem` with only the
        favourite flag, whose failure is ignored. The item already carries
        the flag, so the patch changes only its time, and the push sets that
        again at `pushedAt`. */
    method Toggled(t: Item, user: Option<User>, online: bool, pushedAt: string,
                   ivTitle: Iv, ivContent: Iv, engineOk: bool)
      requires sync.repo.cache.Loaded? && FindById(sync.repo.cache.items, t.id) == Some(t)
      modifies this`items, sync, sync.remote, sync.repo, sync.repo.store, sync.repo.store.instance
      ensures sync.repo.store.Kept()
      ensures sync.repo.cache.Loaded? && items == Visible(sync.repo.cache.items, searchQuery, selectedCategory)
      ensures
        || (&& RemoteState() == old(RemoteState()) && sync.repo.cache == old(sync.repo.cache)
            && sync.repo.store.IsOpen() == old(sync.repo.store.IsOpen())
            && sync.repo.store.Contents() == old(sync.repo.store.Contents()))
        || (&& user.Some? && UserId(user).Some? && online
            && sync.remote.clipboard == old(sync.remote.clipboard)[UserId(user).value :=
                 Collection(old(sync.remote.clipboard), UserId(user).value)[t.id := PushedFor(user, t, ivTitle, ivContent, pushedAt)]]
            && sync.remote.userDocs == old(sync.remote.userDocs)
            && sync.repo.cache == Loaded(Upserted(old(sync.repo.cache.items), SavedCopy(t, pushedAt)))
            && sync.repo.Saved(engineOk))
    {
      LoadItems(engineOk);
      if user.Some? {
        var patch := NoChange.(favorite := Put(t.favorite));
        assert Merge(t, patch, pushedAt) == t.(updatedAt := pushedAt);
        PushIgnoresUpdatedAt(sync.suite, GetKey(sync.suite, user, sync.salt), t, pushedAt, ivTitle, ivContent, pushedAt);
        var _ := UpdateItem(t.id, patch, user, online, pushedAt, ivTitle, ivContent, engineOk);
      }
    }

    /** `addCustomCategory` as written: a signed-in user's push sends the
        list read before the new category is added, so the remote list
        gains only what was already stored locally. */
    method AddCustomCategoryAsWritten(category: string, user: Option<User>, online: bool, engineOk: bool)
      returns (err: Option<Failure>)
      modifies sync`initialized, sync.remote, sync.repo.store, sync.repo.store.instance
      ensures sync.remote.clipboard == old(sync.remote.clipboard)
      ensures sync.repo.store.Kept()
      ensures |category| > limits.maxCategory ==>
        && err == Some(Limit(CategoryTooLong)) && RemoteState() == old(RemoteState())
        && sync.repo.store.IsOpen() == old(sync.repo.store.IsOpen())
      ensures |category| <= limits.maxCategory && user.Some? && UserId(user).None? ==> err == Some(Remote(NotLoggedIn))
      ensures |category| <= limits.maxCategory && user.Some? && UserId(user).Some? && !online ==> err == Some(Remote(NoInternet))
      ensures |category| <= limits.maxCategory && user.None? ==> err.None?
      ensures user.None? ==> RemoteState() == old(RemoteState())
      ensures err.Some? ==>
        sync.remote.userDocs == old(sync.remote.userDocs) && sync.repo.store.Contents() == old(sync.repo.store.Contents())
      ensures err.None? ==>
        var cats := StoredCategories(old(sync.repo.store.Contents()));
        && sync.repo.store.IsOpen() == (old(sync.repo.store.IsOpen()) || engineOk)
        && sync.repo.store.Contents() ==
             if sync.repo.store.IsOpen() && !HasCategory(cats, category)
             then old(sync.repo.store.Contents())[CustomCategoriesKey := TextList(WithCustomCategory(cats, category))]
             else old(sync.repo.store.Contents())
      ensures user.Some? && err.None? ==>
        var uid := UserId(user).value;
        var local := if sync.repo.store.IsOpen() then StoredCategories(old(sync.repo.store.Contents())) else [];
        && UserId(user).Some? && online
        && sync.remote.userDocs == old(sync.remote.userDocs)[uid := UserDoc(Some(ArrayUnion(RemoteCategories(old(sync.remote.userDocs), uid), local)))]
    {
      if |category| > limits.maxCategory {
        return Some(Limit(CategoryTooLong));
      }
      if user.Some? {
        var cats := sync.repo.GetCustomCategories(engineOk);
        var pushed := sync.PushCustomCategories(cats, user, online);
        if pushed.Some? {
          return Some(Remote(pushed.value));
        }
        sync.repo.AddCustomCategory(category, engineOk);
      } else {
        sync.repo.AddCustomCategory(category, engineOk);
      }
      err := None;
    }

    /** `addCustomCategory` with the new category in the pushed list: after
        a successful push the remote list holds it. */
    method AddCustomCategory(category: string, user: Option<User>, online: bool, engineOk: bool)
      returns (err: Option<Failure>)
      modifies sync`initialized, sync.remote, sync.repo.store, sync.repo.store.instance
      ensures sync.remote.clipboard == old(sync.remote.clipboard)
      ensures sync.repo.store.Kept()
      ensures |category| > limits.maxCategory ==>
        && err == Some(Limit(CategoryTooLong)) && RemoteState() == old(RemoteState())
        && sync.repo.store.IsOpen() == old(sync.repo.store.IsOpen())
      ensures |category| <= limits.maxCategory && user.Some? && UserId(user).None? ==> err == Some(Remote(NotLoggedIn))
      ensures |category| <= limits.maxCategory && user.Some? && UserId(user).Some? && !online ==> err == Some(Remote(NoInternet))
      ensures |category| <= limits.maxCategory && user.None? ==> err.None?
      ensures user.None? ==> RemoteState() == old(RemoteState())
      ensures err.Some? ==>
        sync.remote.userDocs == old(sync.remote.userDocs) && sync.repo.store.Contents() == old(sync.repo.store.Contents())
      ensures err.None? ==>
        var cats := StoredCategories(old(sync.repo.store.Contents()));
        && sync.repo.store.IsOpen() == (old(sync.repo.store.IsOpen()) || engineOk)
        && sync.repo.store.Contents() ==
             if sync.repo.store.IsOpen() && !HasCategory(cats, category)
             then old(sync.repo.store.Contents())[CustomCategoriesKey := TextList(WithCustomCategory(cats, category))]
             else old(sync.repo.store.Contents())
      ensures user.Some? && err.None? ==>
        var uid := UserId(user).value;
        var local := if sync.repo.store.IsOpen() then StoredCategories(old(sync.repo.store.Contents())) else [];
        && UserId(user).Some? && online
        && sync.remote.userDocs == old(sync.remote.userDocs)[uid := UserDoc(Some(ArrayUnion(RemoteCategories(old(sync.remote.userDocs), uid), WithCustomCategory(local, category))))]
        && HasCategory(RemoteCategories(sync.remote.userDocs, uid), category)
    {
      if |category| > limits.maxCategory {
        return Some(Limit(CategoryTooLong));
      }
      if user.Some? {
        var cats := sync.repo.GetCustomCategories(engineOk);
        var uid := UserId(user);
        ghost var before := if uid.Some? then RemoteCategories(sync.remote.userDocs, uid.value) else [];
        var pushed := sync.PushCustomCategories(WithCustomCategory(cats, category), user, online);
        if pushed.Some? {
          return Some(Remote(pushed.value));
        }
        PushedListHoldsNewCategory(before, cats, category);
        sync.repo.AddCustomCategory(category, engineOk);
      } else {
        sync.repo.AddCustomCategory(category, engineOk);
      }
      err := None;
    }

    /** The item pushes of a sign-in, one after the other; a failed push is
        ignored and the next one is tried. `pushed[k]` says whether the k-th
        push succeeded, and an item pushed is in the remote collection at the
        end, since pushes only add or overwrite documents. Each push reads
        the clock: the k-th at `clock(k)`. */
    method PushLocalItems(localItems: seq<Item>, user: Option<User>, online: bool, clock: nat -> string,
                          ivs: nat -> Iv, engineOk: bool)
      returns (pushed: seq<bool>)
      modifies sync, sync.remote, sync.repo, sync.repo.store, sync.repo.store.instance
      ensures |pushed| == |localItems|
      ensures sync.isSyncing == old(sync.isSyncing)
      ensures sync.remote.userDocs == old(sync.remote.userDocs)
      ensures sync.repo.store.Kept()
      ensures UserId(user).None? || !online ==> sync.remote.clipboard == old(sync.remote.clipboard) && pushed == seq(|localItems|, _ => false)
      ensures UserId(user).Some? ==>
        var uid := UserId(user).value;
        && Collection(old(sync.remote.clipboard), uid).Keys <= Collection(sync.remote.clipboard, uid).Keys
        && forall k :: 0 <= k < |localItems| && pushed[k] ==> localItems[k].id in Collection(sync.remote.clipboard, uid)
    {
      pushed := [];
      var k := 0;
      while k < |localItems|
        invariant 0 <= k <= |localItems| && |pushed| == k
        invariant sync.isSyncing == old(sync.isSyncing)
        invariant sync.remote.userDocs == old(sync.remote.userDocs)
        invariant sync.repo.store.Kept()
        invariant UserId(user).None? || !online ==> sync.remote.clipboard == old(sync.remote.clipboard) && pushed == seq(k, _ => false)
        invariant UserId(user).Some? ==>
          var uid := UserId(user).value;
          && Collection(old(sync.remote.clipboard), uid).Keys <= Collection(sync.remote.clipboard, uid).Keys
          && forall j :: 0 <= j < k && pushed[j] ==> localItems[j].id in Collection(sync.remote.clipboard, uid)
      {
        var r := sync.PushToFirebase(localItems[k], user, online, clock(k), ivs(2 * k), ivs(2 * k + 1), engineOk);
        pushed := pushed + [r.Ok?];
        k := k + 1;
      }
    }

    /** The effect run when the signed-in state changes: a signed-in user's
        local categories and items are pushed, each failure ignored on its
        own, then the remote state is pulled; the list is reloaded whatever
        happened. `ivs(k)` is the k-th random IV drawn, `pushClock(k)` the
        k-th push's clock read and `pullClock(k)` the pull's k-th. */
    method SyncOnAuthChange(user: Option<User>, online: bool, pushClock: nat -> string, pullClock: nat -> string,
                            ivs: nat -> Iv, engineOk: bool)
      modifies this`items, sync, sync.remote, sync.repo, sync.repo.store, sync.repo.store.instance
      ensures user.None? ==> RemoteState() == old(RemoteState())
      ensures UserId(user).Some? ==>
        var uid := UserId(user).value;
        && Collection(old(sync.remote.clipboard), uid).Keys <= Collection(sync.remote.clipboard, uid).Keys
        && RemoteCategories(old(sync.remote.userDocs), uid) <= RemoteCategories(sync.remote.userDocs, uid)
      ensures sync.isSyncing == old(sync.isSyncing)
      ensures sync.repo.cache.Loaded?
      ensures items == Visible(sync.repo.cache.items, searchQuery, selectedCategory)
    {
      if user.Some? {
        PushLocalData(user, online, pushClock, ivs, engineOk);
        var _, _ := sync.PullFromFirebase(user, online, pullClock, engineOk);
      }
      LoadItems(engineOk);
    }

    /** The push half of the effect: the local categories, then the local
        items, when there are any. */
    method PushLocalData(user: Option<User>, online: bool, clock: nat -> string, ivs: nat -> Iv, engineOk: bool)
      modifies sync, sync.remote, sync.repo, sync.repo.store, sync.repo.store.instance
      ensures sync.isSyncing == old(sync.isSyncing)
      ensures sync.repo.store.Kept()
      ensures UserId(user).Some? ==>
        var uid := UserId(user).value;
        && Collection(old(sync.remote.clipboard), uid).Keys <= Collection(sync.remote.clipboard, uid).Keys
        && RemoteCategories(old(sync.remote.userDocs), uid) <= RemoteCategories(sync.remote.userDocs, uid)
    {
      var localItems := sync.repo.GetAll(engineOk);
      var localCategories := sync.repo.GetCustomCategories(engineOk);
      if |localItems| > 0 || |localCategories| > 0 {
        if |localCategories| > 0 {
          ghost var uid := UserId(user);
          var _ := sync.PushCustomCategories(localCategories, user, online);
          if uid.Some? {
            ArrayUnionSpec(RemoteCategories(old(sync.remote.userDocs), uid.value), localCategories);
          }
        }
        var _ := PushLocalItems(localItems, user, online, clock, ivs, engineOk);
      }
    }
  }
}
