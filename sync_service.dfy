/** The sync protocol with the remote document store
    (src/services/FirebaseSyncService.ts). Every write goes to the remote
    store first and is mirrored locally only after it succeeded; a pull
    replaces the local items wholesale by the remote ones. The remote store,
    the signed-in user, the network probe and the clock are inputs, and
    every remote call may fail. */
module Sync {
  import opened Wrappers
  import opened Text
  import opened Items
  import opened KeyValueStore
  import opened Repository
  import opened Encryption

  // ---------------------------------------------------------------------
  // Documents

  /** A field value as the application writes it: a string, a flag, or a
      timestamp (kept as the ISO-8601 string it converts to and from). */
  datatype FieldValue = Str(s: string) | Bool(b: bool) | Time(iso: string)

  type Doc = map<string, FieldValue>

  /** The user document `users/{uid}`; only its `customCategories` field
      matters here, and it may be missing. */
  datatype UserDoc = UserDoc(customCategories: Option<seq<string>>)

  datatype SyncError = NotLoggedIn | NoInternet | RemoteFailure | ItemNotFound

  datatype PullOutcome = Skipped | NoUser | Pulled

  /** `getUserId`: the uid of the signed-in user, when it is non-empty. */
  function UserId(user: Option<User>): Option<string> {
    if user.Some? && user.value.uid != [] then Some(user.value.uid) else None
  }

  /** No key occurs twice, as in the entries of an object. */
  predicate DistinctKeys(entries: seq<(string, Option<FieldValue>)>) {
    forall i, j :: 0 <= i < j < |entries| ==> entries[i].0 != entries[j].0
  }

  /** The object without its `undefined` properties. */
  function Defined(entries: seq<(string, Option<FieldValue>)>): map<string, FieldValue>
    decreases |entries|
  {
    if entries == [] then map[]
    else
      var m := Defined(entries[..|entries| - 1]);
      var (k, v) := entries[|entries| - 1];
      if v.Some? then m[k := v.value] else m
  }

  /** Exactly the defined properties are kept, each with its value. */
  lemma {:induction false} DefinedSpec(entries: seq<(string, Option<FieldValue>)>)
    requires DistinctKeys(entries)
    ensures forall k :: k in Defined(entries) <==> exists i :: 0 <= i < |entries| && entries[i].0 == k && entries[i].1.Some?
    ensures forall i :: 0 <= i < |entries| && entries[i].1.Some? ==> Defined(entries)[entries[i].0] == entries[i].1.value
    decreases |entries|
  {
    if entries != [] {
      var n := |entries| - 1;
      var init := entries[..n];
      assert DistinctKeys(init) by {
        forall i, j | 0 <= i < j < |init| ensures init[i].0 != init[j].0 {
          assert init[i] == entries[i] && init[j] == entries[j];
        }
      }
      DefinedSpec(init);
      forall k ensures k in Defined(entries) <==> exists i :: 0 <= i < |entries| && entries[i].0 == k && entries[i].1.Some? {
        if exists i :: 0 <= i < |entries| && entries[i].0 == k && entries[i].1.Some? {
          var i :| 0 <= i < |entries| && entries[i].0 == k && entries[i].1.Some?;
          if i < n {
            assert init[i] == entries[i];
          }
        }
        if k in Defined(init) {
          var i :| 0 <= i < |init| && init[i].0 == k && init[i].1.Some?;
          assert entries[i] == init[i];
        }
      }
      forall i | 0 <= i < |entries| && entries[i].1.Some? ensures Defined(entries)[entries[i].0] == entries[i].1.value {
        if i < n {
          assert init[i] == entries[i];
          assert entries[i].0 != entries[n].0;
        }
      }
    }
  }

  /** `removeUndefinedValues`: the loop over `Object.entries` filling a
      fresh object. */
  method RemoveUndefinedValues(entries: seq<(string, Option<FieldValue>)>) returns (cleaned: map<string, FieldValue>)
    ensures cleaned == Defined(entries)
  {
    cleaned := map[];
    var i := 0;
    while i < |entries|
      invariant 0 <= i <= |entries|
      invariant cleaned == Defined(entries[..i])
    {
      var (key, value) := entries[i];
      assert entries[..i + 1][..i] == entries[..i];
      if value.Some? {
        cleaned := cleaned[key := value.value];
      }
      i := i + 1;
    }
    assert entries[..i] == entries;
  }

  /** `item.createdAt || now`. */
  function CreatedOr(createdAt: string, now: string): string {
    if createdAt == [] then now else createdAt
  }

  /** The object `pushToFirebase` writes, before the undefined properties
      are dropped. */
  function PushEntries(item: Item, title: string, content: string, now: string): seq<(string, Option<FieldValue>)> {
    [ ("id", Some(Str(item.id))),
      ("title", Some(Str(title))),
      ("content", Some(Str(content))),
      ("category", if item.category.Some? then Some(Str(item.category.value)) else None),
      ("favorite", Some(Bool(item.favorite.GetOr(false)))),
      ("isTemplate", Some(Bool(item.isTemplate.GetOr(false)))),
      ("updatedAt", Some(Time(now))),
      ("createdAt", Some(Time(CreatedOr(item.createdAt, now)))) ]
  }

  /** The document stored for `item`, with title and content encrypted
      under `key` with the two fresh IVs. */
  function PushedDoc(suite: CryptoSuite, key: seq<byte>, item: Item, ivTitle: Iv, ivContent: Iv, now: string): Doc {
    Defined(PushEntries(item, Encrypt(suite, key, ivTitle, item.title), Encrypt(suite, key, ivContent, item.content), now))
  }

  /** The local copy `pushToFirebase` saves after the remote write. */
  function SavedCopy(item: Item, now: string): Item {
    item.(updatedAt := now, createdAt := CreatedOr(item.createdAt, now))
  }

  function StrField(doc: Doc, k: string): string {
    if k in doc && doc[k].Str? then doc[k].s else []
  }

  /** `data.x?.toDate?.()?.toISOString() || now`. */
  function TimeField(doc: Doc, k: string, now: string): string {
    if k in doc && doc[k].Time? && doc[k].iso != [] then doc[k].iso else now
  }

  /** Decryption of a truthy field; `None` is a thrown exception. */
  function DecryptField(suite: CryptoSuite, key: seq<byte>, s: string): Option<string> {
    if s == [] then Some(s) else Decrypt(suite, key, s)
  }

  /** The item a pull builds from one document: the content is decrypted
      first, then the title; an exception leaves the fields not yet
      decrypted as stored, and the item is kept either way. A missing
      `updatedAt` and a missing `createdAt` each read the clock, in that
      order: `updatedNow` and `createdNow` are those two reads. */
  function PulledItem(suite: CryptoSuite, key: seq<byte>, doc: Doc, updatedNow: string, createdNow: string): (it: Item)
    ensures DecryptField(suite, key, StrField(doc, "content")).None? ==>
      it.title == StrField(doc, "title") && it.content == StrField(doc, "content")
  {
    var title := StrField(doc, "title");
    var content := StrField(doc, "content");
    var (t, c) :=
      match DecryptField(suite, key, content)
      case None => (title, content)
      case Some(c) => (DecryptField(suite, key, title).GetOr(title), c);
    Item(
      StrField(doc, "id"), t, c,
      if "category" in doc && doc["category"].Str? then Some(doc["category"].s) else None,
      if "favorite" in doc && doc["favorite"].Bool? then Some(doc["favorite"].b) else None,
      if "isTemplate" in doc && doc["isTemplate"].Bool? then Some(doc["isTemplate"].b) else None,
      TimeField(doc, "createdAt", createdNow),
      TimeField(doc, "updatedAt", updatedNow))
  }

  lemma PushEntriesDistinct(item: Item, title: string, content: string, now: string)
    ensures DistinctKeys(PushEntries(item, title, content, now))
  {
  }

  /** The fields a push always writes, with their values. */
  lemma PushedFields(item: Item, title: string, content: string, now: string)
    ensures var doc := Defined(PushEntries(item, title, content, now));
      && "id" in doc && doc["id"] == Str(item.id)
      && "title" in doc && doc["title"] == Str(title)
      && "content" in doc && doc["content"] == Str(content)
      && "favorite" in doc && doc["favorite"] == Bool(item.favorite.GetOr(false))
      && "isTemplate" in doc && doc["isTemplate"] == Bool(item.isTemplate.GetOr(false))
      && "updatedAt" in doc && doc["updatedAt"] == Time(now)
      && "createdAt" in doc && doc["createdAt"] == Time(CreatedOr(item.createdAt, now))
  {
    var entries := PushEntries(item, title, content, now);
    PushEntriesDistinct(item, title, content, now);
    DefinedSpec(entries);
    assert entries[0].1.Some? && entries[1].1.Some? && entries[2].1.Some?;
    assert entries[4].1.Some? && entries[5].1.Some? && entries[6].1.Some? && entries[7].1.Some?;
  }

  /** A push writes the category exactly when the item has one. */
  lemma PushedCategory(item: Item, title: string, content: string, now: string)
    ensures var doc := Defined(PushEntries(item, title, content, now));
      && (item.category.Some? ==> "category" in doc && doc["category"] == Str(item.category.value))
      && (item.category.None? ==> "category" !in doc)
  {
    var entries := PushEntries(item, title, content, now);
    PushEntriesDistinct(item, title, content, now);
    DefinedSpec(entries);
    if item.category.Some? {
      assert entries[3].1.Some?;
    } else {
      forall i | 0 <= i < |entries| && entries[i].0 == "category" ensures entries[i].1.None? {
        assert i == 3;
      }
    }
  }

  /** A pushed item comes back from a pull as it was saved locally, except
      that unset flags come back as `false`. */
  lemma PushPullRoundTrip(suite: CryptoSuite, key: seq<byte>, item: Item, ivTitle: Iv, ivContent: Iv, now: string,
                           updatedLater: string, createdLater: string)
    requires RoundTrips(suite)
    requires now != []
    ensures PulledItem(suite, key, PushedDoc(suite, key, item, ivTitle, ivContent, now), updatedLater, createdLater) ==
      SavedCopy(item, now).(favorite := Some(item.favorite.GetOr(false)), isTemplate := Some(item.isTemplate.GetOr(false)))
  {
    var encTitle := Encrypt(suite, key, ivTitle, item.title);
    var encContent := Encrypt(suite, key, ivContent, item.content);
    PushedFields(item, encTitle, encContent, now);
    PushedCategory(item, encTitle, encContent, now);
    DecryptEncrypt(suite, key, ivTitle, item.title);
    DecryptEncrypt(suite, key, ivContent, item.content);
  }

  /** A push sets `updatedAt` itself, so the time an item carried before
      the push shows in neither the document nor the saved copy. This is why
      the merge time `updateItem` reads before its push is not a parameter. */
  lemma PushIgnoresUpdatedAt(suite: CryptoSuite, key: seq<byte>, item: Item, stamp: string,
                             ivTitle: Iv, ivContent: Iv, now: string)
    ensures PushedDoc(suite, key, item.(updatedAt := stamp), ivTitle, ivContent, now) ==
      PushedDoc(suite, key, item, ivTitle, ivContent, now)
    ensures SavedCopy(item.(updatedAt := stamp), now) == SavedCopy(item, now)
  {
  }

  // ---------------------------------------------------------------------
  // Array field operations

  /** `FieldValue.arrayUnion(...added)` applied to `existing`: each added
      element not yet present is appended, in order. */
  function ArrayUnion(existing: seq<string>, added: seq<string>): seq<string>
    decreases |added|
  {
    if added == [] then existing
    else ArrayUnion(AddDistinct(existing, added[0]), added[1..])
  }

  /** The union never removes or reorders what was there, holds every added
      element, and adds nothing else. */
  lemma {:induction false} ArrayUnionSpec(existing: seq<string>, added: seq<string>)
    ensures existing <= ArrayUnion(existing, added)
    ensures forall x :: x in added ==> x in ArrayUnion(existing, added)
    ensures forall x :: x in ArrayUnion(existing, added) ==> x in existing || x in added
    ensures Distinct(existing) ==> Distinct(ArrayUnion(existing, added))
    decreases |added|
  {
    if added != [] {
      var next := AddDistinct(existing, added[0]);
      ArrayUnionSpec(next, added[1..]);
      assert added == [added[0]] + added[1..];
      assert added[0] in next;
      assert forall x :: x in next ==> x in ArrayUnion(existing, added);
      if Distinct(existing) && added[0] !in existing {
        assert Distinct(next) by {
          forall i, j | 0 <= i < j < |next| ensures next[i] != next[j] {
            if j == |existing| {
              assert next[i] == existing[i];
            }
          }
        }
      }
    }
  }

  /** `FieldValue.arrayRemove(c)` applied to `existing`: every element equal
      to `c` goes. */
  function ArrayRemove(existing: seq<string>, c: string): seq<string> {
    Filter(existing, (x: string) => x != c)
  }

  lemma ArrayRemoveSpec(existing: seq<string>, c: string)
    ensures forall x :: x in ArrayRemove(existing, c) <==> x in existing && x != c
  {
    FilterSpec(existing, (x: string) => x != c);
  }

  /** The remote list removes only the exact string while the local list
      removes it up to case and surrounding white space. */
  lemma RemoteRemoveIsExact(stored: string, category: string)
    requires stored != category && Lower(stored) == Lower(Trim(category))
    ensures ArrayRemove([stored], category) == [stored]
    ensures WithoutCustomCategory([stored], category) == []
  {
    FilterAll([stored], (x: string) => x != category);
    FilterNone([stored], (c: string) => Lower(c) != Lower(Trim(category)));
  }

  // ---------------------------------------------------------------------
  // The remote store

  function Collection(clipboard: map<string, map<string, Doc>>, uid: string): map<string, Doc> {
    if uid in clipboard then clipboard[uid] else map[]
  }

  function RemoteCategories(userDocs: map<string, UserDoc>, uid: string): seq<string> {
    if uid in userDocs && userDocs[uid].customCategories.Some? then userDocs[uid].customCategories.value else []
  }

  /** The two maps agree on every user other than `uid`. */
  ghost predicate SameExcept<V>(a: map<string, V>, b: map<string, V>, uid: string) {
    forall u :: u != uid ==> (u in a <==> u in b) && (u in a ==> a[u] == b[u])
  }

  /** The remote document store: `users/{uid}/clipboard/{id}` and
      `users/{uid}`. Each call may fail; `ok` says whether it did. */
  class RemoteStore {
    var clipboard: map<string, map<string, Doc>>
    var userDocs: map<string, UserDoc>

    constructor (clipboard: map<string, map<string, Doc>>, userDocs: map<string, UserDoc>)
      ensures this.clipboard == clipboard && this.userDocs == userDocs
    {
      this.clipboard := clipboard;
      this.userDocs := userDocs;
    }

    method FetchClipboard(uid: string) returns (ok: bool, docs: map<string, Doc>)
      ensures ok ==> docs == Collection(clipboard, uid)
    {
      ok :| true;
      docs := if ok then Collection(clipboard, uid) else map[];
    }

    method FetchUserDoc(uid: string) returns (ok: bool, doc: Option<UserDoc>)
      ensures ok ==> doc == if uid in userDocs then Some(userDocs[uid]) else None
    {
      ok :| true;
      doc := if ok && uid in userDocs then Some(userDocs[uid]) else None;
    }

    /** `doc(id).set(data)`: replaces the whole document. */
    method SetDoc(uid: string, id: string, doc: Doc) returns (ok: bool)
      modifies this`clipboard
      ensures clipboard == if ok then old(clipboard)[uid := Collection(old(clipboard), uid)[id := doc]] else old(clipboard)
    {
      ok :| true;
      if ok {
        clipboard := clipboard[uid := Collection(clipboard, uid)[id := doc]];
      }
    }

    /** `doc(id).delete()`: succeeds whether or not the document exists. */
    method DeleteDoc(uid: string, id: string) returns (ok: bool)
      modifies this`clipboard
      ensures clipboard == if ok then old(clipboard)[uid := Collection(old(clipboard), uid) - {id}] else old(clipboard)
    {
      ok :| true;
      if ok {
        clipboard := clipboard[uid := Collection(clipboard, uid) - {id}];
      }
    }

    /** `set({ customCategories: value }, { merge: true })`: creates the user
        document when it is missing. */
    method SetCategories(uid: string, value: seq<string>) returns (ok: bool)
      modifies this`userDocs
      ensures userDocs == if ok then old(userDocs)[uid := UserDoc(Some(value))] else old(userDocs)
    {
      ok :| true;
      if ok {
        userDocs := userDocs[uid := UserDoc(Some(value))];
      }
    }
  }

  /** The order the fetched snapshot lists the documents in: every id once,
      in an order the model leaves open. */
  method ListDocs(docs: map<string, Doc>) returns (ids: seq<string>)
    ensures Distinct(ids)
    ensures forall id :: id in ids <==> id in docs
  {
    ids := [];
    var rest := docs.Keys;
    while rest != {}
      invariant rest <= docs.Keys
      invariant Distinct(ids)
      invariant forall id :: id in ids <==> id in docs && id !in rest
      decreases rest
    {
      var id :| id in rest;
      ids := ids + [id];
      rest := rest - {id};
    }
  }

  /** The item built from the i-th listed document, whose two clock reads
      are `clock(2 * i)` and `clock(2 * i + 1)`. */
  function PulledNth(suite: CryptoSuite, key: seq<byte>, doc: Doc, clock: nat -> string, i: nat): Item {
    PulledItem(suite, key, doc, clock(2 * i), clock(2 * i + 1))
  }

  /** The loop of `pullFromFirebase` that builds `remoteItems`; every
      document reads the clock afresh. */
  method PullItems(suite: CryptoSuite, key: seq<byte>, docs: map<string, Doc>, ids: seq<string>, clock: nat -> string)
    returns (items: seq<Item>)
    requires forall id :: id in ids ==> id in docs
    ensures |items| == |ids|
    ensures forall i :: 0 <= i < |ids| ==> items[i] == PulledNth(suite, key, docs[ids[i]], clock, i)
  {
    items := [];
    var i := 0;
    while i < |ids|
      invariant 0 <= i <= |ids|
      invariant |items| == i
      invariant forall j :: 0 <= j < i ==> items[j] == PulledNth(suite, key, docs[ids[j]], clock, j)
    {
      items := items + [PulledNth(suite, key, docs[ids[i]], clock, i)];
      i := i + 1;
    }
  }

  /** The device store after a pull that wrote `items`: the items key holds
      them when the store is open, and either nothing else changed or the
      custom-category key holds the remote list as well. */
  ghost predicate StoreAfterPull(after: map<string, Value>, before: map<string, Value>, open: bool,
                                 items: seq<Item>, userDocs: map<string, UserDoc>, uid: string) {
    var saved := if open then before[ClipboardItemsKey := ItemList(items)] else before;
    || after == saved
    || (open && uid in userDocs && after == saved[CustomCategoriesKey := TextList(RemoteCategories(userDocs, uid))])
  }

  /** A pull yields exactly one item per remote document. */
  ghost predicate PulledFrom(items: seq<Item>, suite: CryptoSuite, key: seq<byte>, docs: map<string, Doc>, ids: seq<string>, clock: nat -> string) {
    && Distinct(ids)
    && (forall id :: id in ids <==> id in docs)
    && |items| == |ids|
    && (forall i :: 0 <= i < |ids| ==> items[i] == PulledNth(suite, key, docs[ids[i]], clock, i))
  }

  // ---------------------------------------------------------------------
  // The service

  /** `FirebaseSyncService`. `salt` is the application's encryption salt. */
  class SyncService {
    var initialized: bool
    var isSyncing: bool
    const repo: ClipboardRepository
    const remote: RemoteStore
    const suite: CryptoSuite
    const salt: string

    constructor (repo: ClipboardRepository, remote: RemoteStore, suite: CryptoSuite, salt: string)
      ensures !initialized && !isSyncing
      ensures this.repo == repo && this.remote == remote && this.suite == suite && this.salt == salt
    {
      initialized := false;
      isSyncing := false;
      this.repo := repo;
      this.remote := remote;
      this.suite := suite;
      this.salt := salt;
    }

    /** `initialize`: the SDK initialises itself, so this only sets the
        flag and always succeeds. */
    method Initialize() returns (ok: bool)
      modifies this`initialized
      ensures initialized && ok
    {
      initialized := true;
      ok := true;
    }

    /** The local state the repository shows. */
    ghost function LocalState(): (Cache, map<string, Value>)
      reads repo, repo.store, repo.store.instance
    {
      (repo.cache, repo.store.Contents())
    }

    /** The first half of `pullFromFirebase`, up to and including setting
        `isSyncing`; the guard applies to a pull that is still running. */
    method StartPull(user: Option<User>, online: bool) returns (r: Result<PullOutcome, SyncError>)
      modifies this`isSyncing
      ensures old(isSyncing) ==> r == Ok(Skipped) && isSyncing
      ensures !old(isSyncing) && UserId(user).None? ==> r == Ok(NoUser) && !isSyncing
      ensures !old(isSyncing) && UserId(user).Some? && !online ==> r == Err(NoInternet) && !isSyncing
      ensures !old(isSyncing) && UserId(user).Some? && online ==> r == Ok(Pulled) && isSyncing
    {
      if isSyncing {
        return Ok(Skipped);
      }
      if UserId(user).None? {
        return Ok(NoUser);
      }
      if !online {
        return Err(NoInternet);
      }
      isSyncing := true;
      r := Ok(Pulled);
    }

    /** The second half of `pullFromFirebase`: fetch, decrypt, replace the
        local items, pull the categories, and clear `isSyncing` whatever
        happens. */
    method CompletePull(user: Option<User>, clock: nat -> string, engineOk: bool)
      returns (r: Result<PullOutcome, SyncError>, ids: seq<string>)
      requires UserId(user).Some?
      modifies this, repo, repo.store, repo.store.instance
      ensures repo.store.Kept()
      ensures !isSyncing
      ensures remote.clipboard == old(remote.clipboard) && remote.userDocs == old(remote.userDocs)
      ensures r.Err? ==> r.error == RemoteFailure && LocalState() == old(LocalState())
      ensures r.Ok? ==> r.value == Pulled
      ensures r.Ok? ==>
        var uid := UserId(user).value;
        && repo.cache.Loaded?
        && PulledFrom(repo.cache.items, suite, GetKey(suite, user, salt), Collection(old(remote.clipboard), uid), ids, clock)
        && repo.store.IsOpen() == (old(repo.store.IsOpen()) || engineOk)
        && StoreAfterPull(repo.store.Contents(), old(repo.store.Contents()), repo.store.IsOpen(), repo.cache.items, remote.userDocs, uid)
    {
      var uid := UserId(user).value;
      var _ := Initialize();
      var ok, docs := remote.FetchClipboard(uid);
      if !ok {
        isSyncing := false;
        return Err(RemoteFailure), [];
      }
      ids := ApplyPull(user, docs, clock, engineOk);
      isSyncing := false;
      r := Ok(Pulled);
    }

    /** The fetched documents, decrypted, replace the local items; then the
        categories are pulled. */
    method ApplyPull(user: Option<User>, docs: map<string, Doc>, clock: nat -> string, engineOk: bool)
      returns (ids: seq<string>)
      requires UserId(user).Some? && docs == Collection(remote.clipboard, UserId(user).value)
      modifies repo, repo.store, repo.store.instance
      ensures repo.store.Kept()
      ensures remote.clipboard == old(remote.clipboard) && remote.userDocs == old(remote.userDocs)
      ensures var uid := UserId(user).value;
        && repo.cache.Loaded?
        && PulledFrom(repo.cache.items, suite, GetKey(suite, user, salt), docs, ids, clock)
        && repo.store.IsOpen() == (old(repo.store.IsOpen()) || engineOk)
        && StoreAfterPull(repo.store.Contents(), old(repo.store.Contents()), repo.store.IsOpen(), repo.cache.items, remote.userDocs, uid)
    {
      ids := ListDocs(docs);
      var items := PullItems(suite, GetKey(suite, user, salt), docs, ids, clock);
      repo.ReplaceWithRemote(items, engineOk);
      PullCustomCategories(user, engineOk);
    }

    /** `pullCustomCategories`: a missing user document or a failed read
        leaves the local list alone; the failure is swallowed. */
    method PullCustomCategories(user: Option<User>, engineOk: bool)
      modifies repo.store, repo.store.instance
      ensures remote.clipboard == old(remote.clipboard) && remote.userDocs == old(remote.userDocs)
      ensures repo.store.Kept()
      ensures old(repo.store.IsOpen()) ==> repo.store.IsOpen()
      ensures repo.store.IsOpen() ==> old(repo.store.IsOpen()) || engineOk
      ensures repo.store.Contents() == old(repo.store.Contents()) ||
        (UserId(user).Some? && UserId(user).value in remote.userDocs && repo.store.IsOpen() &&
         repo.store.Contents() == old(repo.store.Contents())[CustomCategoriesKey := TextList(RemoteCategories(remote.userDocs, UserId(user).value))])
    {
      if UserId(user).None? {
        return;
      }
      var uid := UserId(user).value;
      var ok, doc := remote.FetchUserDoc(uid);
      if ok && doc.Some? {
        repo.ReplaceCustomCategories(RemoteCategories(remote.userDocs, uid), engineOk);
      }
    }

    /** `pullFromFirebase`, run without interruption; `clock(k)` is the
        k-th clock read of the pull. */
    method PullFromFirebase(user: Option<User>, online: bool, clock: nat -> string, engineOk: bool)
      returns (r: Result<PullOutcome, SyncError>, ids: seq<string>)
      modifies this, repo, repo.store, repo.store.instance
      ensures repo.store.Kept()
      ensures isSyncing == old(isSyncing)
      ensures remote.clipboard == old(remote.clipboard) && remote.userDocs == old(remote.userDocs)
      ensures old(isSyncing) ==> r == Ok(Skipped) && LocalState() == old(LocalState())
      ensures !old(isSyncing) && UserId(user).None? ==> r == Ok(NoUser) && LocalState() == old(LocalState())
      ensures !old(isSyncing) && UserId(user).Some? && !online ==> r == Err(NoInternet) && LocalState() == old(LocalState())
      ensures r == Err(RemoteFailure) ==> LocalState() == old(LocalState())
      ensures r == Ok(Pulled) ==>
        && UserId(user).Some?
        && repo.cache.Loaded?
        && PulledFrom(repo.cache.items, suite, GetKey(suite, user, salt), Collection(old(remote.clipboard), UserId(user).value), ids, clock)
        && repo.store.IsOpen() == (old(repo.store.IsOpen()) || engineOk)
        && StoreAfterPull(repo.store.Contents(), old(repo.store.Contents()), repo.store.IsOpen(), repo.cache.items, remote.userDocs, UserId(user).value)
    {
      ids := [];
      r := StartPull(user, online);
      if r == Ok(Pulled) {
        r, ids := CompletePull(user, clock, engineOk);
      }
    }

    /** The checks every remote write starts with. */
    method Precheck(user: Option<User>, online: bool) returns (err: Option<SyncError>)
      ensures err == if UserId(user).None? then Some(NotLoggedIn) else if !online then Some(NoInternet) else None
    {
      if UserId(user).None? {
        return Some(NotLoggedIn);
      }
      if !online {
        return Some(NoInternet);
      }
      err := None;
    }

    /** `pushToFirebase`: the remote document is written first; only when
        that succeeded is the local copy saved, with `updatedAt = now`. */
    method PushToFirebase(item: Item, user: Option<User>, online: bool, now: string, ivTitle: Iv, ivContent: Iv, engineOk: bool)
      returns (r: Result<Item, SyncError>)
      modifies this, remote, repo, repo.store, repo.store.instance
      ensures repo.store.Kept()
      ensures isSyncing == old(isSyncing)
      ensures remote.userDocs == old(remote.userDocs)
      ensures UserId(user).None? ==> r == Err(NotLoggedIn)
      ensures UserId(user).Some? && !online ==> r == Err(NoInternet)
      ensures r.Err? ==>
        && remote.clipboard == old(remote.clipboard) && LocalState() == old(LocalState())
        && repo.store.IsOpen() == old(repo.store.IsOpen())
      ensures r.Ok? ==>
        var uid := UserId(user).value;
        var doc := PushedDoc(suite, GetKey(suite, user, salt), item, ivTitle, ivContent, now);
        && UserId(user).Some? && online
        && r.value == SavedCopy(item, now)
        && remote.clipboard == old(remote.clipboard)[uid := Collection(old(remote.clipboard), uid)[item.id := doc]]
        && repo.cache == Loaded(Upserted(old(repo.Pending(engineOk)), r.value))
        && repo.Saved(engineOk)
    {
      var err := Precheck(user, online);
      if err.Some? {
        return Err(err.value);
      }
      var uid := UserId(user).value;
      var _ := Initialize();
      var key := GetKey(suite, user, salt);
      var entries := PushEntries(item, Encrypt(suite, key, ivTitle, item.title), Encrypt(suite, key, ivContent, item.content), now);
      var doc := RemoveUndefinedValues(entries);
      var ok := remote.SetDoc(uid, item.id, doc);
      if !ok {
        return Err(RemoteFailure);
      }
      var saved := SavedCopy(item, now);
      repo.SaveItem(saved, engineOk);
      r := Ok(saved);
    }

    /** `deleteFromFirebase`: the remote document goes first, then the local
        item. */
    method DeleteFromFirebase(id: string, user: Option<User>, online: bool, engineOk: bool)
      returns (r: Result<bool, SyncError>)
      modifies this, remote, repo, repo.store, repo.store.instance
      ensures repo.store.Kept()
      ensures isSyncing == old(isSyncing)
      ensures remote.userDocs == old(remote.userDocs)
      ensures UserId(user).None? ==> r == Err(NotLoggedIn)
      ensures UserId(user).Some? && !online ==> r == Err(NoInternet)
      ensures r.Err? ==> remote.clipboard == old(remote.clipboard) && LocalState() == old(LocalState())
      ensures r.Ok? ==>
        var uid := UserId(user).value;
        var xs := old(repo.Pending(engineOk));
        && r.value
        && remote.clipboard == old(remote.clipboard)[uid := Collection(old(remote.clipboard), uid) - {id}]
        && match FindIndex(xs, id)
           case None => repo.cache == Loaded(xs) && repo.Untouched(engineOk)
           case Some(i) => repo.cache == Loaded(RemovedAt(xs, i)) && repo.Saved(engineOk)
    {
      var err := Precheck(user, online);
      if err.Some? {
        return Err(err.value);
      }
      var uid := UserId(user).value;
      var _ := Initialize();
      var ok := remote.DeleteDoc(uid, id);
      if !ok {
        return Err(RemoteFailure);
      }
      var _ := repo.Delete(id, engineOk);
      r := Ok(true);
    }

    /** `pushCustomCategories`: an `arrayUnion` merge into the user
        document, which never removes a remote category. */
    method PushCustomCategories(cats: seq<string>, user: Option<User>, online: bool) returns (err: Option<SyncError>)
      modifies this`initialized, remote
      ensures remote.clipboard == old(remote.clipboard)
      ensures UserId(user).None? ==> err == Some(NotLoggedIn)
      ensures UserId(user).Some? && !online ==> err == Some(NoInternet)
      ensures err.Some? ==> remote.userDocs == old(remote.userDocs)
      ensures err.None? ==>
        var uid := UserId(user).value;
        && UserId(user).Some? && online
        && remote.userDocs == old(remote.userDocs)[uid := UserDoc(Some(ArrayUnion(RemoteCategories(old(remote.userDocs), uid), cats)))]
    {
      err := Precheck(user, online);
      if err.Some? {
        return;
      }
      var uid := UserId(user).value;
      var _ := Initialize();
      var ok := remote.SetCategories(uid, ArrayUnion(RemoteCategories(remote.userDocs, uid), cats));
      if !ok {
        return Some(RemoteFailure);
      }
    }

    /** `deleteCustomCategory`: the exact string leaves the remote list,
        then the local list drops it up to case. */
    method DeleteCustomCategory(category: string, user: Option<User>, online: bool, engineOk: bool) returns (err: Option<SyncError>)
      modifies this`initialized, remote, repo.store, repo.store.instance
      ensures repo.store.Kept()
      ensures remote.clipboard == old(remote.clipboard)
      ensures UserId(user).None? ==> err == Some(NotLoggedIn)
      ensures UserId(user).Some? && !online ==> err == Some(NoInternet)
      ensures err.Some? ==> remote.userDocs == old(remote.userDocs) && repo.store.Contents() == old(repo.store.Contents())
      ensures err.None? ==>
        var uid := UserId(user).value;
        var local := StoredCategories(old(repo.store.Contents()));
        && UserId(user).Some? && online
        && remote.userDocs == old(remote.userDocs)[uid := UserDoc(Some(ArrayRemove(RemoteCategories(old(remote.userDocs), uid), category)))]
        && repo.store.Contents() ==
          if repo.store.IsOpen()
          then old(repo.store.Contents())[CustomCategoriesKey := TextList(WithoutCustomCategory(local, category))]
          else old(repo.store.Contents())
    {
      err := Precheck(user, online);
      if err.Some? {
        return;
      }
      var uid := UserId(user).value;
      var _ := Initialize();
      var ok := remote.SetCategories(uid, ArrayRemove(RemoteCategories(remote.userDocs, uid), category));
      if !ok {
        return Some(RemoteFailure);
      }
      repo.RemoveCustomCategory(category, engineOk);
    }

    /** `deleteAllUserData`: every listed item document is deleted (all
        deletions are attempted; one failure fails the call), then the
        category list of an existing user document is emptied. */
    method DeleteAllUserData(user: Option<User>, online: bool) returns (err: Option<SyncError>)
      modifies this`initialized, remote
      ensures UserId(user).None? ==> err == Some(NotLoggedIn)
      ensures UserId(user).Some? && !online ==> err == Some(NoInternet)
      ensures err == Some(NotLoggedIn) || err == Some(NoInternet) ==>
        remote.clipboard == old(remote.clipboard) && remote.userDocs == old(remote.userDocs)
      ensures UserId(user).Some? ==>
        var uid := UserId(user).value;
        && SameExcept(remote.clipboard, old(remote.clipboard), uid)
        && SameExcept(remote.userDocs, old(remote.userDocs), uid)
        && Collection(remote.clipboard, uid).Keys <= Collection(old(remote.clipboard), uid).Keys
      ensures err.None? ==>
        var uid := UserId(user).value;
        && UserId(user).Some? && online
        && Collection(remote.clipboard, uid) == map[]
        && remote.userDocs == if uid in old(remote.userDocs) then old(remote.userDocs)[uid := UserDoc(Some([]))] else old(remote.userDocs)
    {
      err := Precheck(user, online);
      if err.Some? {
        return;
      }
      var uid := UserId(user).value;
      var _ := Initialize();
      var ok, docs := remote.FetchClipboard(uid);
      if !ok {
        return Some(RemoteFailure);
      }
      var ids := ListDocs(docs);
      var allOk := true;
      var i := 0;
      while i < |ids|
        invariant 0 <= i <= |ids|
        invariant remote.userDocs == old(remote.userDocs)
        invariant SameExcept(remote.clipboard, old(remote.clipboard), uid)
        invariant Collection(remote.clipboard, uid).Keys <= docs.Keys
        invariant allOk ==> forall id :: id in Collection(remote.clipboard, uid) ==> id !in ids[..i]
      {
        var deleted := remote.DeleteDoc(uid, ids[i]);
        allOk := allOk && deleted;
        i := i + 1;
      }
      if !allOk {
        return Some(RemoteFailure);
      }
      assert ids[..i] == ids;
      var got, doc := remote.FetchUserDoc(uid);
      if !got {
        return Some(RemoteFailure);
      }
      if doc.Some? {
        var reset := remote.SetCategories(uid, []);
        if !reset {
          return Some(RemoteFailure);
        }
      }
    }

    /** `createItem`: a new item with the given id and the two times read
        from the clock, pushed like any other (the push then overwrites
        `updatedAt`). */
    method CreateItem(draft: Draft, id: string, created: string, stamped: string, user: Option<User>, online: bool, now: string,
                      ivTitle: Iv, ivContent: Iv, engineOk: bool)
      returns (r: Result<Item, SyncError>)
      modifies this, remote, repo, repo.store, repo.store.instance
      ensures repo.store.Kept()
      ensures UserId(user).None? ==> r == Err(NotLoggedIn)
      ensures UserId(user).Some? && !online ==> r == Err(NoInternet)
      ensures remote.userDocs == old(remote.userDocs)
      ensures r.Err? ==>
        && remote.clipboard == old(remote.clipboard) && LocalState() == old(LocalState())
        && repo.store.IsOpen() == old(repo.store.IsOpen())
      ensures r.Ok? ==>
        var uid := UserId(user).value;
        var item := FromDraft(draft, id, created, stamped);
        && UserId(user).Some? && online
        && r.value == SavedCopy(item, now)
        && remote.clipboard == old(remote.clipboard)[uid := Collection(old(remote.clipboard), uid)[id := PushedDoc(suite, GetKey(suite, user, salt), item, ivTitle, ivContent, now)]]
        && repo.cache == Loaded(Upserted(old(repo.Pending(engineOk)), r.value))
        && repo.Saved(engineOk)
    {
      r := PushToFirebase(FromDraft(draft, id, created, stamped), user, online, now, ivTitle, ivContent, engineOk);
    }

    /** `updateItem`: merges the patch into the local item and pushes the
        result; an id that is not local is an error. */
    method UpdateItem(id: string, patch: Patch, user: Option<User>, online: bool, now: string,
                      ivTitle: Iv, ivContent: Iv, engineOk: bool)
      returns (r: Result<Item, SyncError>)
      modifies this, remote, repo, repo.store, repo.store.instance
      ensures repo.store.Kept()
      ensures FindById(old(repo.Pending(engineOk)), id).None? ==>
        r == Err(ItemNotFound)
      ensures FindById(old(repo.Pending(engineOk)), id).Some? && UserId(user).None? ==> r == Err(NotLoggedIn)
      ensures FindById(old(repo.Pending(engineOk)), id).Some? && UserId(user).Some? && !online ==> r == Err(NoInternet)
      ensures remote.userDocs == old(remote.userDocs)
      ensures r.Err? ==>
        && remote.clipboard == old(remote.clipboard)
        && repo.cache == Loaded(old(repo.Pending(engineOk)))
        && repo.Untouched(engineOk)
      ensures r.Ok? ==>
        var uid := UserId(user).value;
        var updated := Merge(FindById(old(repo.Pending(engineOk)), id).value, patch, now);
        && FindById(old(repo.Pending(engineOk)), id).Some?
        && UserId(user).Some? && online
        && r.value == SavedCopy(updated, now)
        && remote.clipboard == old(remote.clipboard)[uid := Collection(old(remote.clipboard), uid)[id := PushedDoc(suite, GetKey(suite, user, salt), updated, ivTitle, ivContent, now)]]
        && repo.cache == Loaded(Upserted(old(repo.Pending(engineOk)), r.value))
        && repo.Saved(engineOk)
    {
      var existing := repo.GetById(id, engineOk);
      if existing.None? {
        return Err(ItemNotFound);
      }
      var updated := Merge(existing.value, patch, now);
      r := PushToFirebase(updated, user, online, now, ivTitle, ivContent, engineOk);
    }
  }
}
