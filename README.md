# Smart-Clipboard: a verified model of the storage, sync and editing core

This project models, in Dafny, the logic at the centre of the Smart-Clipboard
React Native application: a store of clipboard items and templates kept on
the device, the protocol that keeps it in step with a per-user remote
document store, and the editing screens that feed both.

- `kv_store.dfy` (`KeyValueStore`): the key/value wrapper over the device
  storage engine. The engine is created lazily and at most once, and every
  failure is swallowed. Reads fall back to the caller's default.
- `items.dfy` (`Items`): the clipboard record, the drafts and partial patches
  callers pass in, the storage keys, and the sequence helpers (`find`,
  `findIndex`, `filter`, `Array.from(new Set(...))`).
- `repository.dfy` (`Repository`): `ClipboardRepository` as a class with a
  lazily loaded item cache. Every mutation re-persists the whole list. The
  custom-category list is read from the store on each call.
- `encryption.dfy` (`Encryption`): the field encryption wire format
  `ivHex:ciphertext`. Covers hex framing, the empty-string pass-through, the
  legacy path without a colon, and the key string `uid:email:salt`.
- `sync_service.dfy` (`Sync`): `FirebaseSyncService` over an abstract
  remote store.
  - Writes go to the remote store first and are mirrored locally only on
    success.
  - A pull replaces the local list wholesale ("remote wins"), under a
    re-entrancy flag.
  - Category lists use set-union on push and exact removal on delete.
  - Undefined fields are stripped before a write.
- `context.dfy` (`Context`): the clipboard context.
  - Length and count checks come first.
  - Writes take the signed-in path (sync service) or the guest path
    (repository).
  - On sign-in every local category and item is pushed, each failure
    ignored, then a pull follows.
- `templates.dfy` (`Templates`): the template dialog.
  - Variables are extracted by the regular expression
    `\{\{([^\s][^}]*[^\s])\}\}`, with its backtracking, scanned left to
    right and collected into a set.
  - Placeholders are replaced, and the dialog has its initial values and
    its copy guard.
- `notepad.dfy` (`Notepad`): the notepad's undo history. It is capped at 50
  entries and has a cursor, undo, redo and clear. The word count is also
  here.
- `categories.dfy` (`Categories`) and `edit_screens.dfy` (`EditScreens`):
  the two edit screens.
  - Categories: the merged category list (defaults, then custom, then
    in-use, keyed by lower case), the "is custom" test, and the create and
    delete guards.
  - Saving: the save validation, and the normaliser that rewrites
    `{{ name }}` to `{{name}}` (`\{\{\s*(.*?)\s*\}\}`, modelled with its
    greedy and lazy parts). For example, `TightenPadded` covers
    `{{ my name }}` becoming `{{my name}}`.
  - The template screen's information dialog.
- `ordered_map.dfy` (`OrderedMaps`): a JavaScript `Map` with string keys, as
  a list of entries in insertion order.
- `text.dfy` (`Text`): `toLowerCase` (A–Z), `trim` over the ECMAScript
  white-space set, `includes`, and literal global replacement.
- `wrappers.dfy` (`Wrappers`): `Option` and `Result`.

The clock, UUIDs, random IVs, the signed-in user, network availability and
the storage engine's availability are parameters. Each remote call may
succeed or fail, chosen nondeterministically.

## Model

| member | source | states |
|---|---|---|
| Text.Lower | src/storage/repositories/ClipboardRepository.ts:91 | same length, each character lower-cased on its own |
| Text.Trim | src/storage/repositories/ClipboardRepository.ts:130 | the result neither starts nor ends with white space and is no longer than the input |
| Text.TrimStart | src/storage/repositories/ClipboardRepository.ts:130 | a suffix of the input: only white space dropped, and none left at the front |
| Text.TrimEnd | src/storage/repositories/ClipboardRepository.ts:130 | a prefix of the input: only white space dropped, and none left at the back |
| Text.TrimSpec | src/storage/repositories/ClipboardRepository.ts:130 | the result is an infix of the input with only white space around it |
| Text.TrimIdempotent | src/storage/repositories/ClipboardRepository.ts:130 | trimming twice is trimming once |
| Text.BlankIffAllSpace | src/screens/clipboard/ClipboardEditScreen.tsx:159 | `!s.trim()` holds exactly when every character is white space |
| Text.LowerIdempotent | src/storage/repositories/ClipboardRepository.ts:91 | lower-casing twice is lower-casing once |
| Text.LowerTrim | src/storage/repositories/ClipboardRepository.ts:130 | lower-casing and trimming commute |
| Text.IncludesEmpty | src/storage/repositories/ClipboardRepository.ts:94 | every string includes the empty string |
| Text.ReplaceAllAbsent | src/components/clipboard/TemplateModal.tsx:44-45 | a global replace of an absent pattern changes nothing |
| Text.ReplaceAllSelf | src/components/clipboard/TemplateModal.tsx:44-45 | replacing a pattern by itself changes nothing |
| Text.ReplaceAllFirst | src/components/clipboard/TemplateModal.tsx:44-45 | the first occurrence is replaced and the scan resumes after it |
| OrderedMaps.Keys | src/screens/clipboard/ClipboardEditScreen.tsx:51 | the keys, in entry order |
| OrderedMaps.Values | src/screens/clipboard/ClipboardEditScreen.tsx:74 | `Array.from(map.values())`: the values, in entry order |
| OrderedMaps.IndexOfKey | src/screens/clipboard/ClipboardEditScreen.tsx:55 | the first index holding the key, or none exactly when the key is absent |
| OrderedMaps.AssignNew | src/screens/clipboard/ClipboardEditScreen.tsx:55 | `set` of a new key appends the entry at the end |
| OrderedMaps.AssignLookupSame | src/screens/clipboard/ClipboardEditScreen.tsx:61 | `get` after `set` of the same key returns the value set |
| OrderedMaps.AssignLookupOther | src/screens/clipboard/ClipboardEditScreen.tsx:61 | `set` leaves every other key's value alone |
| OrderedMaps.AssignKeys | src/screens/clipboard/ClipboardEditScreen.tsx:61 | `set` keeps keys distinct and in place; it grows the map only for a new key |
| Items.Merge | src/storage/repositories/ClipboardRepository.ts:69-73 | each supplied field overrides; id and createdAt are kept; updatedAt is the new time |
| Items.MergeNothing | src/storage/repositories/ClipboardRepository.ts:69-73 | an empty patch changes only updatedAt |
| Items.FilterAppend | src/storage/repositories/ClipboardRepository.ts:92-97 | filtering commutes with concatenation, so kept elements stay in input order |
| Items.FindIndex | src/storage/repositories/ClipboardRepository.ts:66 | the first index with the id, or none exactly when no item has it |
| Items.FindById | src/storage/repositories/ClipboardRepository.ts:44 | an item with the id, found exactly when one exists |
| Items.FilterSpec | src/storage/repositories/ClipboardRepository.ts:92-97 | `filter` keeps exactly the passing elements, each with its multiplicity |
| Items.DedupSpec | src/storage/repositories/ClipboardRepository.ts:107-113 | `Array.from(new Set(xs))` is duplicate-free and has the same members as xs |
| Items.DedupPrefix | src/storage/repositories/ClipboardRepository.ts:107-113 | the set of a prefix is a prefix of the set: first-occurrence order |
| Items.DedupOfDistinct | src/storage/repositories/ClipboardRepository.ts:172-173 | a duplicate-free list is its own set |
| Items.AddAllDistinctDedup | src/storage/repositories/ClipboardRepository.ts:107-113 | adding the rest of a list to the set of its prefix gives the set of the whole list |
| KeyValueStore.Storage.constructor | src/storage/storage.ts:4-5 | no engine handle yet; the device data as persisted |
| KeyValueStore.Storage.Open | src/storage/storage.ts:7-24 | the engine is created at most once; a failed creation is retried on the next call |
| KeyValueStore.Storage.Set | src/storage/storage.ts:26-34 | the key holds the value when the engine is up; otherwise nothing changes and nothing is raised |
| KeyValueStore.Storage.Get | src/storage/storage.ts:36-47 | the stored value, or the default when the key is absent or the engine is down |
| KeyValueStore.Storage.Remove | src/storage/storage.ts:49-55 | the key is gone when the engine is up; otherwise nothing changes |
| KeyValueStore.Storage.Clear | src/storage/storage.ts:57-63 | every key is gone when the engine is up; otherwise nothing changes |
| KeyValueStore.Storage.Contains | src/storage/storage.ts:65-72 | true exactly when the engine is up and holds the key |
| KeyValueStore.StorageFacade.constructor | src/storage/storage.ts:76 | no instance yet |
| KeyValueStore.StorageFacade.Instance | src/storage/storage.ts:78-83 | the instance is created on the first call and reused afterwards |
| KeyValueStore.StorageFacade.Set | src/storage/storage.ts:86 | through the one instance: the key holds the value when the engine is up |
| KeyValueStore.StorageFacade.Get | src/storage/storage.ts:87 | through the one instance: the stored value or the default; contents unchanged |
| KeyValueStore.StorageFacade.Remove | src/storage/storage.ts:88 | through the one instance: the key is gone when the engine is up |
| KeyValueStore.StorageFacade.Delete | src/storage/storage.ts:89 | the same effect as Remove |
| KeyValueStore.StorageFacade.Clear | src/storage/storage.ts:90 | through the one instance: the store is empty when the engine is up |
| KeyValueStore.StorageFacade.Contains | src/storage/storage.ts:91 | through the one instance: whether the key is held; contents unchanged |
| Repository.MatchingSpec | src/storage/repositories/ClipboardRepository.ts:89-98 | search keeps exactly the items whose lower-cased title, content or category includes the lower-cased query |
| Repository.MatchingEmpty | src/storage/repositories/ClipboardRepository.ts:91-97 | an empty query returns every item, in order |
| Repository.MatchingIgnoresCase | src/storage/repositories/ClipboardRepository.ts:91 | searching for the lower-cased query gives the same result |
| Repository.WithCategorySpec | src/storage/repositories/ClipboardRepository.ts:100-103 | exactly the items whose category equals the argument, and search by that name finds them too |
| Repository.FavoritesSpec | src/storage/repositories/ClipboardRepository.ts:182-185 | exactly the items whose favourite flag is true |
| Repository.CategoryNamesSpec | src/storage/repositories/ClipboardRepository.ts:108-112 | the names collected are exactly the non-empty item categories |
| Repository.DistinctCategoriesSpec | src/storage/repositories/ClipboardRepository.ts:105-114 | each non-empty item category once, nothing else, in first-occurrence order |
| Repository.CategoryNamesPrefix | src/storage/repositories/ClipboardRepository.ts:108-112 | the names of a prefix of the items are a prefix of the names |
| Repository.CollectCategories | src/storage/repositories/ClipboardRepository.ts:107-113 | the `forEach` loop filling a Set yields the distinct categories |
| Repository.UpsertedSpec | src/storage/repositories/ClipboardRepository.ts:207-212 | after an upsert the item is found under its id; the list grows only for a new id; other ids find what they found before |
| Repository.RemovedAt | src/storage/repositories/ClipboardRepository.ts:84 | `splice(i, 1)`: one shorter, the rest in order |
| Repository.RemovedAtBag | src/storage/repositories/ClipboardRepository.ts:84 | exactly the item at i leaves the bag |
| Repository.DeleteUndoesCreate | src/storage/repositories/ClipboardRepository.ts:47-87 | deleting an item just created under a new id gives back the previous list |
| Repository.ToggledFavorite | src/storage/repositories/ClipboardRepository.ts:179 | `!item.favorite` is a defined flag with the opposite truth value |
| Repository.ToggleTwice | src/storage/repositories/ClipboardRepository.ts:176-180 | toggling twice restores whether the item is a favourite |
| Repository.WithCustomCategory | src/storage/repositories/ClipboardRepository.ts:127-136 | unchanged when the trimmed name is present up to case; otherwise the trimmed name is appended |
| Repository.AddCategoryIdempotent | src/storage/repositories/ClipboardRepository.ts:127-136 | adding the same category twice is adding it once |
| Repository.WithoutCustomCategorySpec | src/storage/repositories/ClipboardRepository.ts:143-150 | removes every entry equal up to case to the trimmed argument, and only those |
| Repository.RemoveUndoesAdd | src/storage/repositories/ClipboardRepository.ts:127-155 | removing a category after adding it equals removing it |
| Repository.StrLeTotal | src/storage/repositories/ClipboardRepository.ts:173 | the default sort order is total |
| Repository.InsertSpec | src/storage/repositories/ClipboardRepository.ts:173 | insertion into a sorted list keeps it sorted and adds one occurrence |
| Repository.SortStringsSpec | src/storage/repositories/ClipboardRepository.ts:173 | the sort yields a sorted permutation |
| Repository.AllCategoriesSpec | src/storage/repositories/ClipboardRepository.ts:169-174 | sorted, and holds each item or custom category exactly once |
| Repository.ClearedStoreIsEmpty | src/storage/repositories/ClipboardRepository.ts:220-225 | after both keys are removed, the store yields no items and no categories |
| Repository.ClipboardRepository.constructor | src/storage/repositories/ClipboardRepository.ts:13-14 | nothing loaded |
| Repository.ClipboardRepository.EnsureLoaded | src/storage/repositories/ClipboardRepository.ts:16-29 | loads the stored list once (empty when absent or unreadable) and never writes |
| Repository.ClipboardRepository.SaveToStorage | src/storage/repositories/ClipboardRepository.ts:31-35 | the store holds the cached list when the engine is up |
| Repository.ClipboardRepository.GetAll | src/storage/repositories/ClipboardRepository.ts:37-40 | returns the loaded list as a value, so the caller's copy is independent |
| Repository.ClipboardRepository.GetById | src/storage/repositories/ClipboardRepository.ts:42-45 | the first item with the id, or none |
| Repository.ClipboardRepository.Create | src/storage/repositories/ClipboardRepository.ts:47-61 | appends exactly the new item (given fields, new id, createdAt and updatedAt from two clock reads) and persists |
| Repository.ClipboardRepository.Update | src/storage/repositories/ClipboardRepository.ts:63-76 | none and no change for an unknown id; otherwise only that index is merged, and the list is persisted |
| Repository.ClipboardRepository.Delete | src/storage/repositories/ClipboardRepository.ts:78-87 | false and no change for an unknown id; otherwise the first match is removed and the list persisted |
| Repository.ClipboardRepository.Search | src/storage/repositories/ClipboardRepository.ts:89-98 | the matching items of the loaded list; nothing written |
| Repository.ClipboardRepository.FilterByCategory | src/storage/repositories/ClipboardRepository.ts:100-103 | the items of exactly that category; nothing written |
| Repository.ClipboardRepository.GetCategories | src/storage/repositories/ClipboardRepository.ts:105-114 | the distinct item categories; nothing written |
| Repository.ClipboardRepository.GetCustomCategories | src/storage/repositories/ClipboardRepository.ts:116-125 | the stored list, or empty when absent or the engine is down |
| Repository.ClipboardRepository.AddCustomCategory | src/storage/repositories/ClipboardRepository.ts:127-141 | writes the list with the trimmed name appended, or writes nothing when it is present up to case |
| Repository.ClipboardRepository.RemoveCustomCategory | src/storage/repositories/ClipboardRepository.ts:143-155 | writes the list without every entry equal up to case to the trimmed name |
| Repository.ClipboardRepository.ReplaceCustomCategories | src/storage/repositories/ClipboardRepository.ts:160-167 | the stored list becomes the argument |
| Repository.ClipboardRepository.GetAllCategories | src/storage/repositories/ClipboardRepository.ts:169-174 | the sorted set of item and custom categories; the store instance is kept and its contents unchanged |
| Repository.ClipboardRepository.ToggleFavorite | src/storage/repositories/ClipboardRepository.ts:176-180 | none for an unknown id; otherwise only that item's flag is flipped and updatedAt set |
| Repository.ClipboardRepository.GetFavorites | src/storage/repositories/ClipboardRepository.ts:182-185 | the favourite items; nothing written |
| Repository.ClipboardRepository.ReplaceWithRemote | src/storage/repositories/ClipboardRepository.ts:191-196 | the items become exactly the argument and are persisted |
| Repository.ClipboardRepository.SaveItem | src/storage/repositories/ClipboardRepository.ts:202-214 | replaces the item with the same id in place, or appends it, and persists |
| Repository.ClipboardRepository.ClearAll | src/storage/repositories/ClipboardRepository.ts:220-225 | an empty loaded list, and both keys removed from the store |
| Encryption.HexEncode | src/utils/encryption.ts:42 | two hex digits per byte, never a colon |
| Encryption.HexDecode | src/utils/encryption.ts:62 | a decoded string has two digits per byte |
| Encryption.HexRoundTrip | src/utils/encryption.ts:42-62 | decoding the hex of some bytes gives them back |
| Encryption.IndexOf | src/utils/encryption.ts:51 | the first index of the character, or none exactly when it is absent |
| Encryption.SplitEncoded | src/utils/encryption.ts:51-60 | an encrypted value splits at its first colon into the IV's hex and the cipher text |
| Encryption.KeySource | src/utils/encryption.ts:15-21 | the salt alone without a user; otherwise the string starts with the uid |
| Encryption.KeySourceSeparatesUsers | src/utils/encryption.ts:15-17 | for a uid without a colon, the first colon of the key string ends the uid |
| Encryption.KeySourceExamples | src/utils/encryption.ts:15-21 | `uid:email:salt`, an empty email for a missing one, and the salt alone without a uid |
| Encryption.Encrypt | src/utils/encryption.ts:28-45 | empty exactly for empty input; otherwise 32 hex digits of the IV, then a colon, then the cipher text |
| Encryption.Decrypt | src/utils/encryption.ts:48-72 | empty passes through; without a colon it takes the legacy path; with one, a malformed IV throws and a well-formed one decrypts what follows the first colon |
| Encryption.DecryptAtFirstColon | src/utils/encryption.ts:52-65 | the split is at the first colon, so a cipher text with colons of its own reaches the cipher whole |
| Encryption.DecryptEncrypt | src/utils/encryption.ts:27-72 | under the cipher round trip, decrypt after encrypt with the same key gives the text back |
| Sync.DefinedSpec | src/services/FirebaseSyncService.ts:274-282 | exactly the defined properties are kept, each with its value |
| Sync.RemoveUndefinedValues | src/services/FirebaseSyncService.ts:274-282 | the loop yields the object without its undefined properties |
| Sync.PulledItem | src/services/FirebaseSyncService.ts:80-97 | when decrypting the content throws, both title and content stay as stored and the item is kept; a missing `updatedAt` and a missing `createdAt` each take their own clock read |
| Sync.PushedFields | src/services/FirebaseSyncService.ts:311-320 | a push writes id, encrypted title and content, flags defaulting to false, and both times |
| Sync.PushedCategory | src/services/FirebaseSyncService.ts:315 | the category is written exactly when the item has one |
| Sync.PushIgnoresUpdatedAt | src/services/FirebaseSyncService.ts:405-415 | the time an item carries before a push shows in neither the pushed document nor the saved copy, so `updateItem`'s merge time is overwritten by the push time |
| Sync.PushPullRoundTrip | src/services/FirebaseSyncService.ts:311-331 | pulling a pushed document gives the saved local copy, with unset flags as false, whatever the pull's clock reads |
| Sync.ArrayUnionSpec | src/services/FirebaseSyncService.ts:164-167 | the union keeps the existing list as a prefix, adds every pushed name, adds nothing else, and keeps it duplicate-free |
| Sync.ArrayRemoveSpec | src/services/FirebaseSyncService.ts:201-206 | exactly the elements different from the argument remain |
| Sync.RemoteRemoveIsExact | src/services/FirebaseSyncService.ts:201-209 | a case variant survives the remote removal but not the local one |
| Sync.RemoteStore.constructor | src/services/FirebaseSyncService.ts:75 | the given collections and user documents |
| Sync.RemoteStore.FetchClipboard | src/services/FirebaseSyncService.ts:78 | on success, the user's collection |
| Sync.RemoteStore.FetchUserDoc | src/services/FirebaseSyncService.ts:127 | on success, the user document if it exists |
| Sync.RemoteStore.SetDoc | src/services/FirebaseSyncService.ts:323 | on success the document is replaced; on failure nothing changes |
| Sync.RemoteStore.DeleteDoc | src/services/FirebaseSyncService.ts:367 | on success the document is gone, whether or not it existed |
| Sync.RemoteStore.SetCategories | src/services/FirebaseSyncService.ts:164-167 | on success the user document holds the list, created if absent |
| Sync.ListDocs | src/services/FirebaseSyncService.ts:80 | every document id once |
| Sync.PullItems | src/services/FirebaseSyncService.ts:79-98 | one item per document, in order, each built by PulledItem with that document's own two clock reads |
| Sync.SyncService.constructor | src/services/FirebaseSyncService.ts:14-16 | not initialised, not syncing |
| Sync.SyncService.Initialize | src/services/FirebaseSyncService.ts:18-32 | always succeeds and marks the service initialised |
| Sync.SyncService.StartPull | src/services/FirebaseSyncService.ts:48-66 | skips while syncing; no user returns quietly; offline fails before the flag is set; otherwise sets the flag |
| Sync.SyncService.CompletePull | src/services/FirebaseSyncService.ts:66-113 | the flag is cleared whatever happens; a fetch failure changes nothing local; success replaces the local items with the pulled ones and persists them, and the stored categories either stay or become the remote list; no other stored key changes |
| Sync.SyncService.ApplyPull | src/services/FirebaseSyncService.ts:78-106 | the pulled items replace the local list, which is persisted; the stored categories stay or become the remote list; no other stored key changes |
| Sync.SyncService.PullCustomCategories | src/services/FirebaseSyncService.ts:119-139 | the local list becomes the remote one when it is read; a missing document or a failure changes nothing |
| Sync.SyncService.PullFromFirebase | src/services/FirebaseSyncService.ts:48-114 | each early exit changes nothing; a failure changes nothing local; on success the stored list is the pulled items and the categories stay or become the remote list, nothing else stored changes; the flag ends as it started |
| Sync.SyncService.Precheck | src/services/FirebaseSyncService.ts:290-298 | no user, then no network, in that order |
| Sync.SyncService.PushToFirebase | src/services/FirebaseSyncService.ts:289-342 | fails before any write without user or network; a failed remote write leaves local state; success writes the document, then upserts the copy with updatedAt now and persists the list, no other stored key changing |
| Sync.SyncService.DeleteFromFirebase | src/services/FirebaseSyncService.ts:348-378 | remote deletion first, and a failure changes nothing; on success the first local match is removed and the list persisted, or nothing stored changes when the id is not local |
| Sync.SyncService.PushCustomCategories | src/services/FirebaseSyncService.ts:144-174 | on success the remote list is the union of the old list and the pushed names; nothing is removed |
| Sync.SyncService.DeleteCustomCategory | src/services/FirebaseSyncService.ts:179-217 | the exact string leaves the remote list, then every case variant leaves the local list |
| Sync.SyncService.DeleteAllUserData | src/services/FirebaseSyncService.ts:223-268 | on success the user's collection is empty and an existing user document has an empty list; other users untouched |
| Sync.SyncService.CreateItem | src/services/FirebaseSyncService.ts:383-394 | no user, then no network, each without any write; on success the new item (with its two clock reads) is written remotely under its id, the user document is untouched, and the saved copy is upserted locally and persisted |
| Sync.SyncService.UpdateItem | src/services/FirebaseSyncService.ts:399-416 | "Item not found" for an id that is not local, then no user, then no network, each without any write; on success the merged item is written remotely and its saved copy upserted locally and persisted, both stamped with the push's time |
| Context.CountsPartition | src/context/ClipboardContext.tsx:197-204 | templates and clipboard items together are all the items |
| Context.CheckLengths | src/context/ClipboardContext.tsx:171-190 | the content, title and category length errors, each exactly when its field is over the limit and the earlier ones pass |
| Context.ValidateNew | src/context/ClipboardContext.tsx:171-210 | each of the five errors exactly when its check fails and the earlier ones pass; no error exactly when the lengths and the count of the draft's kind are within the limits |
| Context.RoomBelowBothLimits | src/context/ClipboardContext.tsx:193-210 | below both count limits only the length checks can fail |
| Context.CountsIndependent | src/context/ClipboardContext.tsx:193-210 | an item of the other kind never changes the decision |
| Context.ValidatePatch | src/context/ClipboardContext.tsx:238-256 | only the fields present in the patch are measured |
| Context.Visible | src/context/ClipboardContext.tsx:52-62 | the shown items are items of the list |
| Context.QueryWins | src/context/ClipboardContext.tsx:56-60 | with a non-empty query the selected category is ignored |
| Context.AddedCategoryNeverPushed | src/context/ClipboardContext.tsx:341-345 | as written, a category added locally is missing from the pushed list |
| Context.PushedListHoldsNewCategory | src/context/ClipboardContext.tsx:341-345 | pushing the list with the new category puts it in the remote list |
| Context.ClipboardProvider.constructor | src/context/ClipboardContext.tsx:47-49 | no items, no query, no category |
| Context.ClipboardProvider.LoadItems | src/context/ClipboardContext.tsx:52-67 | the cache holds what the next read sees, the shown list is the query result, else the category filter, else everything; nothing written |
| Context.ClipboardProvider.AddItem | src/context/ClipboardContext.tsx:170-231 | a length error before anything is read or written; a count error with nothing written; a valid guest draft is appended and persisted as the new item; a signed-in user gets the no-user and no-network errors, and on success the item's document is written remotely and its saved copy upserted and persisted; the shown list is reloaded on success and unchanged on any error |
| Context.ClipboardProvider.UpdateItem | src/context/ClipboardContext.tsx:233-279 | a patch error with nothing written; a guest's known id has only that index merged and persisted, an unknown one gives none; a signed-in user gets not-found, no-user and no-network errors with nothing written, and on success the merged item's document is written remotely and its saved copy upserted and persisted; the shown list is reloaded after a change and unchanged otherwise |
| Context.ClipboardProvider.DeleteItem | src/context/ClipboardContext.tsx:281-306 | a guest removes the first match and persists, or gets false with nothing written; a signed-in user gets the no-user and no-network errors with nothing written, and on success the remote document is gone and the first local match removed; the shown list is reloaded after a deletion and unchanged otherwise |
| Context.ClipboardProvider.DeleteRemotely | src/context/ClipboardContext.tsx:285-297 | no user and no network fail with nothing written; success removes the remote document and the first local match, persisting the list; the shown list is reloaded on success and unchanged on an error |
| Context.ClipboardProvider.DeleteLocally | src/context/ClipboardContext.tsx:298-305 | the remote store is untouched; the first match is removed and the list persisted, or false with nothing written; the shown list is reloaded after a deletion and unchanged otherwise |
| Context.ClipboardProvider.ToggleFavorite | src/context/ClipboardContext.tsx:356-366 | an unknown id changes nothing; otherwise only that item's flag flips with updatedAt the toggle time and is persisted, and the remote store is either unchanged or holds the toggled item's document stamped with the later push time, whose saved copy is then upserted locally while the returned item keeps the toggle time; the shown list is reloaded after a toggle and unchanged for an unknown id |
| Context.ClipboardProvider.Toggled | src/context/ClipboardContext.tsx:358-364 | after the reload, the favourite-only update changes only the toggled item's time: for a guest or on failure nothing changes; on success its document is written and its saved copy upserted, both at the push time; the shown list is the reloaded one at the end |
| Context.ClipboardProvider.AddCustomCategoryAsWritten | src/context/ClipboardContext.tsx:334-354 | too long, then no user, then no network, each with nothing stored changed; on success the category is stored locally unless listed up to case, and the remote list gains only the local list read before the addition |
| Context.ClipboardProvider.AddCustomCategory | src/context/ClipboardContext.tsx:334-354 | too long, then no user, then no network, each with nothing stored changed; on success the category is stored locally unless listed up to case, and the remote list is the union of the old one with the local list holding the category, so it holds the category |
| Context.ClipboardProvider.PushLocalItems | src/context/ClipboardContext.tsx:101-112 | every item is tried, each with its own clock read, and each failure ignored; each pushed item is in the remote collection afterwards |
| Context.ClipboardProvider.PushLocalData | src/context/ClipboardContext.tsx:82-114 | the remote collection and category list only grow |
| Context.ClipboardProvider.SyncOnAuthChange | src/context/ClipboardContext.tsx:75-136 | push then pull for a signed-in user, each push and the pull with their own clock reads; nothing remote for a guest, and the list reloaded in every case |
| Templates.MatchAtSound | src/components/clipboard/TemplateModal.tsx:29 | what the matcher returns is a match of the pattern |
| Templates.MatchAtLongest | src/components/clipboard/TemplateModal.tsx:29 | the matcher finds every match, and the longest one, as backtracking does |
| Templates.FirstMatch | src/components/clipboard/TemplateModal.tsx:33 | `exec` from lastIndex: a match at or after it |
| Templates.FirstMatchIsFirst | src/components/clipboard/TemplateModal.tsx:33-35 | no match is skipped before the one found |
| Templates.MatchedNamesStep | src/components/clipboard/TemplateModal.tsx:33-35 | the scan takes a match's name and resumes after the match, without overlap |
| Templates.MatchedNamesWellFormed | src/components/clipboard/TemplateModal.tsx:29 | every name is at least two characters, non-space at both ends, with no `}` inside (a name may end in `}`, as in `{{a}}}`) |
| Templates.ExecFrom | src/components/clipboard/TemplateModal.tsx:33 | one `exec` yields the next name and moves strictly forward |
| Templates.ExtractTemplateVariables | src/components/clipboard/TemplateModal.tsx:28-38 | the loop yields the set of matched names, in first-occurrence order |
| Templates.VariablesSpec | src/components/clipboard/TemplateModal.tsx:28-38 | the variables are distinct, are exactly the matched names, and are well formed |
| Templates.VariablesExamples | src/components/clipboard/TemplateModal.tsx:29 | `{{x}}` and `{{ xy }}` yield nothing; `{{ab}}` yields `ab` |
| Templates.Placeholder | src/components/clipboard/TemplateModal.tsx:44 | `{{key}}` is four characters longer than the key |
| Templates.ReplaceTemplateVariables | src/components/clipboard/TemplateModal.tsx:41-48 | the loop over the keys is the fold of literal global replacements |
| Templates.FillUntouched | src/components/clipboard/TemplateModal.tsx:41-48 | text holding no key's placeholder is unchanged |
| Templates.FillOne | src/components/clipboard/TemplateModal.tsx:44-45 | a key's placeholder is replaced by its value and the rest is kept |
| Templates.InitialValues | src/components/clipboard/TemplateModal.tsx:82-87 | exactly the variables are keys, in order, each mapped to "" |
| Templates.CopyGuard | src/components/clipboard/TemplateModal.tsx:126 | copying (the button's condition at line 232) is disabled on opening and enabled once every value is non-blank |
| Notepad.Truncated | src/screens/notepad/NotepadScreen.tsx:63 | a prefix of the history, up to and including the cursor |
| Notepad.AddedEntriesSpec | src/screens/notepad/NotepadScreen.tsx:62-70 | a repeat changes nothing; otherwise the redo branch is cut, the text appended, the oldest entry dropped past 50, and the cursor is on the text |
| Notepad.UndoAfterAdd | src/screens/notepad/NotepadScreen.tsx:62-99 | undo right after recording goes back to the entry the cursor was on |
| Notepad.CursorAgreesOnAppend | src/screens/notepad/NotepadScreen.tsx:71-75 | when an entry is appended, the written cursor update is the right one |
| Notepad.CursorDriftsAsWritten | src/screens/notepad/NotepadScreen.tsx:65-75 | as written, repeats move the cursor past the end of the history |
| Notepad.WordCountIsRuns | src/screens/notepad/NotepadScreen.tsx:152 | the word count is the number of maximal runs of non-space characters |
| Notepad.WordCountExamples | src/screens/notepad/NotepadScreen.tsx:152 | `" a b"` has two words and `""` none |
| Notepad.NotepadScreen.constructor | src/screens/notepad/NotepadScreen.tsx:16-22 | empty text, history `[""]`, cursor 0 |
| Notepad.NotepadScreen.Load | src/screens/notepad/NotepadScreen.tsx:48-55 | a saved non-empty text becomes the text and the whole history; otherwise nothing changes |
| Notepad.NotepadScreen.AddToHistoryAsWritten | src/screens/notepad/NotepadScreen.tsx:61-76 | the history as recorded, and the cursor as written |
| Notepad.NotepadScreen.AddToHistory | src/screens/notepad/NotepadScreen.tsx:61-76 | the cursor stays on an entry, and that entry is the text |
| Notepad.NotepadScreen.Edit | src/screens/notepad/NotepadScreen.tsx:78-94 | the text changes, is saved, and is recorded in the history, the cursor moving to the new entry only when one was appended |
| Notepad.NotepadScreen.Undo | src/screens/notepad/NotepadScreen.tsx:96-105 | only when the cursor is above 0: one step back, and the text shown is saved |
| Notepad.NotepadScreen.Redo | src/screens/notepad/NotepadScreen.tsx:107-116 | only when the cursor is below the last entry: one step on, and the text shown is saved |
| Notepad.NotepadScreen.Clear | src/screens/notepad/NotepadScreen.tsx:137-150 | after confirmation of a non-empty text: text "", history `[""]`, cursor 0, saved; otherwise nothing |
| Categories.SeedLoop | src/screens/clipboard/ClipboardEditScreen.tsx:54-56 | the defaults loop computes the seeded map |
| Categories.MergeLoop | src/screens/clipboard/ClipboardEditScreen.tsx:59-70 | one source loop computes the merged map |
| Categories.KeepOthers | src/screens/clipboard/ClipboardEditScreen.tsx:74-75 | the filter keeps the values that are not exact defaults |
| Categories.AllCategories | src/screens/clipboard/ClipboardEditScreen.tsx:44-79 | the loops compute the merged list, whose map holds one entry per lower-case key (`CategoryMapKeysDistinct`) |
| Categories.StaysPresent | src/screens/clipboard/ClipboardEditScreen.tsx:59-70 | a later merge keeps some entry for a key that had one |
| Categories.MergeIntoCovers | src/screens/clipboard/ClipboardEditScreen.tsx:59-63 | every non-blank category of a source gets an entry under its lower-case key |
| Categories.MergedCategoriesShape | src/screens/clipboard/ClipboardEditScreen.tsx:73-77 | the six defaults come first, and the tail holds no exact default |
| Categories.ValueListed | src/screens/clipboard/ClipboardEditScreen.tsx:74-77 | whatever the map holds is listed, as a default or in the tail |
| Categories.MapCovers | src/screens/clipboard/ClipboardEditScreen.tsx:51-70 | every non-blank custom or in-use category has an entry |
| Categories.MergeIntoKeysDistinct | src/screens/clipboard/ClipboardEditScreen.tsx:59-70 | a merge writes a present key in place, so keys stay distinct |
| Categories.CategoryMapKeysDistinct | src/screens/clipboard/ClipboardEditScreen.tsx:50-70 | the map never holds two entries under one lower-case key |
| Categories.OneEntryPerKey | src/screens/clipboard/ClipboardEditScreen.tsx:50-70 | all spellings of a category with the same lower-cased key end in exactly one entry, so one listed value |
| Categories.MergedCategoriesCover | src/screens/clipboard/ClipboardEditScreen.tsx:44-79 | every non-blank custom or in-use category is listed, up to case and trimming |
| Categories.SeedFresh | src/screens/clipboard/ClipboardEditScreen.tsx:54-56 | names with new, distinct keys are appended in order |
| Categories.DefaultKeysDistinct | src/screens/clipboard/ClipboardEditScreen.tsx:14 | no two defaults share a lower-case key |
| Categories.SeededDefaults | src/screens/clipboard/ClipboardEditScreen.tsx:54-56 | the seeded map is the six defaults under their keys, in order |
| Categories.CaseVariantReplaces | src/screens/clipboard/ClipboardEditScreen.tsx:59-63 | a case variant of a default overwrites the display string in the default's place |
| Categories.ValuesKeyedUpdate | src/screens/clipboard/ClipboardEditScreen.tsx:74 | replacing one entry replaces its value |
| Categories.OnlyReplacementKept | src/screens/clipboard/ClipboardEditScreen.tsx:74-75 | of the defaults with one replaced, only the replacement passes the filter |
| Categories.CaseVariantListedTwice | src/screens/clipboard/ClipboardEditScreen.tsx:54-77 | a case variant of a default is listed after the six defaults |
| Categories.WorkListedTwice | src/screens/clipboard/ClipboardEditScreen.tsx:54-77 | the custom category "WORK" gives the defaults followed by "WORK" |
| Categories.CustomAfterAddAndRemove | src/screens/clipboard/ClipboardEditScreen.tsx:82-90 | a non-default name is custom after it is added and not after it is removed |
| Categories.DefaultsNeverCustom | src/screens/clipboard/ClipboardEditScreen.tsx:84-85 | a default in any case is never custom |
| Categories.SelectCategory | src/screens/clipboard/ClipboardEditScreen.tsx:206-213 | choosing the selected category clears it; any other choice selects it |
| Categories.SelectTwice | src/screens/clipboard/ClipboardEditScreen.tsx:206-213 | choosing a new category twice leaves nothing selected |
| Categories.UsageCount | src/screens/clipboard/ClipboardEditScreen.tsx:257-262 | positive exactly when some item uses the category up to case |
| Categories.CreateTarget | src/screens/clipboard/ClipboardEditScreen.tsx:216-226 | the trimmed name when non-empty and absent up to case; otherwise nothing |
| Categories.PaddedNotListed | src/screens/clipboard/TemplateEditScreen.tsx:84-86 | no default lower-cases to a name with a leading space |
| Categories.PaddedDuplicatePasses | src/screens/clipboard/TemplateEditScreen.tsx:84-87 | as written, " Work" passes the duplicate check and creates "Work" |
| Categories.PaddedDuplicateRefused | src/screens/clipboard/ClipboardEditScreen.tsx:216-226 | the trimmed check refuses " Work" |
| Categories.GuardsAgreeOnTrimmed | src/screens/clipboard/TemplateEditScreen.tsx:84-87 | both guards agree on input without surrounding white space |
| EditScreens.SkipSpacesSpec | src/screens/clipboard/TemplateEditScreen.tsx:172 | `\s*` takes the whole run of white space |
| EditScreens.LazyEndSpec | src/screens/clipboard/TemplateEditScreen.tsx:172 | the lazy group stops at the first place the closing part matches, never crossing a line end |
| EditScreens.PaddedMatchAt | src/screens/clipboard/TemplateEditScreen.tsx:172 | a match is `{{`, the group, and `}}`, in order within the text |
| EditScreens.NonSpaceTrim | src/screens/clipboard/TemplateEditScreen.tsx:173 | trimming removes white space only |
| EditScreens.MatchKeepsText | src/screens/clipboard/TemplateEditScreen.tsx:171-174 | a match and its replacement hold the same non-space text |
| EditScreens.NormalizeKeepsText | src/screens/clipboard/TemplateEditScreen.tsx:171-174 | normalising removes only white space |
| EditScreens.NormalizeShrinks | src/screens/clipboard/TemplateEditScreen.tsx:171-174 | normalising never lengthens the text |
| EditScreens.NormalizeWithoutPlaceholders | src/screens/clipboard/TemplateEditScreen.tsx:171-174 | text without `{{` is unchanged |
| EditScreens.TightenPadded | src/screens/clipboard/TemplateEditScreen.tsx:169-174 | `{{ name }}` with any white space around a name becomes `{{name}}` |
| EditScreens.FinalCategory | src/screens/clipboard/TemplateEditScreen.tsx:176 | a kept category is non-empty and trimmed |
| EditScreens.FinalCategoryDropped | src/screens/clipboard/ClipboardEditScreen.tsx:166 | the category becomes undefined exactly when it is all white space |
| EditScreens.ClipboardSave | src/screens/clipboard/ClipboardEditScreen.tsx:158-176 | refused exactly when the title or content is blank; otherwise the text as typed, not a template |
| EditScreens.TemplateSave | src/screens/clipboard/TemplateEditScreen.tsx:163-186 | refused exactly when the title or content is blank; otherwise the normalised text, always a template |
| EditScreens.SavedCategoryTrimmed | src/screens/clipboard/TemplateEditScreen.tsx:176 | both screens save the trimmed category, or none when it is blank |
| EditScreens.TemplateContentKept | src/screens/clipboard/TemplateEditScreen.tsx:164-174 | the saved template holds the typed non-space text and is not blank |
| EditScreens.CategoryPicker.constructor | src/screens/clipboard/ClipboardEditScreen.tsx:28-29 | the given selection and an empty input |
| EditScreens.CategoryPicker.Select | src/screens/clipboard/ClipboardEditScreen.tsx:206-213 | the selection after a choice |
| EditScreens.CategoryPicker.Create | src/screens/clipboard/ClipboardEditScreen.tsx:215-249 | the clipboard screen's handler: asks to add the trimmed name only when it is new up to case; once added it is selected and the input cleared |
| EditScreens.CategoryPicker.Delete | src/screens/clipboard/ClipboardEditScreen.tsx:251-291 | asks to delete only a confirmed category that no item uses; a deleted selection is cleared |
| EditScreens.InfoDialog.constructor | src/screens/clipboard/TemplateEditScreen.tsx:39-42 | hidden, box unticked |
| EditScreens.InfoDialog.Mount | src/screens/clipboard/TemplateEditScreen.tsx:139-146 | opens by itself unless the dismissal flag is stored |
| EditScreens.InfoDialog.OpenViaButton | src/screens/clipboard/TemplateEditScreen.tsx:366-370 | shown, marked as opened by the button |
| EditScreens.InfoDialog.Toggle | src/screens/clipboard/TemplateEditScreen.tsx:334-338 | the box, offered only while the dialog shows after opening by itself, flips |
| EditScreens.InfoDialog.Close | src/screens/clipboard/TemplateEditScreen.tsx:154-161 | the flag is stored only when the dialog opened by itself and the box is ticked |
| EditScreens.DismissThenRemount | src/screens/clipboard/TemplateEditScreen.tsx:139-161 | after ticking the box and closing, the flag is stored and the next mount stays hidden |

## Left out

- Presentation: rendering, toasts, alerts, loaders, navigation, scrolling and styles. The screens' calls into the context are returned as requests (`SaveRequest`, and the category picker's create and delete requests), not performed.
- Timers: the notepad's save and history debounces run at once (`Edit` saves and records straight away). Scheduling is not modelled.
- Concurrency:
  - The `Promise.all` fan-out of the sign-in pushes runs one push after another.
  - Pulls are sequential. The await between the network probe and setting `isSyncing` is the split between `StartPull` and `CompletePull`.
  - The reconnect listener and `refresh` are not modelled. Each is a pull followed by a reload, both of which are modelled.
- Remote store SDK:
  - Firestore, Firebase Auth and Google Sign-In are an abstract `RemoteStore`.
  - Each remote call succeeds or fails nondeterministically.
  - `initialize` always succeeds, as its body cannot throw.
  - Firestore timestamps are the ISO strings they are made from, and the `toDate` conversion is the identity.
- Cryptography:
  - AES-CBC and SHA-256 are function fields of `CryptoSuite`.
  - The cipher round trip is a precondition (`RoundTrips`), not a proof.
  - The random IV is a parameter.
  - A UTF-8 decoding failure is folded into an absent result.
- Device storage: the engine (MMKV) and JSON serialisation are a map of values. Serialisation is the identity, and a stored value of the wrong shape reads as the default.
- Oracles: the clock and `generateUUID` are parameters, one per clock read. `create` reads the clock twice, so its two times are two parameters. A pull reads the clock for each missing time of each document, and a sign-in reads it once per item push: these reads are functions from the read's index to a time. A favourite toggle stamps the item and its push then reads the clock again, so the two are separate parameters. The sync service's `updateItem` reads the clock for the merge and again in the push; the push overwrites the merge time (`Sync.PushIgnoresUpdatedAt`), so one parameter stands for both. No order between timestamps is assumed.
- Limits: the `APP_LIMITS` values are not part of this model. They are parameters (`Limits`).
- Strings:
  - `toLowerCase` is modelled on A–Z only.
  - White space is the ECMAScript WhiteSpace and LineTerminator characters listed in `text.dfy`.
  - The default sort compares characters, which matches UTF-16 order on the Basic Multilingual Plane only.
  - A string is a sequence of characters, so the length limits count characters where JavaScript counts UTF-16 code units: text outside the Basic Multilingual Plane is measured shorter than the source measures it.
  - The template variable pattern is matched over characters; without the `u` flag JavaScript matches UTF-16 code units, which differs for text outside the Basic Multilingual Plane.
- `replaceTemplateVariables`: keys and values are literal. Regular-expression metacharacters in a key, and `$` patterns in a value, are not modelled.
- Object key order: plain objects keep insertion order. The JavaScript rule that integer-like keys come first is not modelled.
- Telemetry: analytics, crash reporting and console logging are not modelled.
- Other screen logic: the notepad's own information dialog, copy and share, and the template dialog's direct copy are not modelled.
- Context.ClipboardProvider.SyncOnAuthChange: states that the user's remote collection and category list only grow and that the shown list is reloaded. It does not state the final local items, because each push and the pull may fail on their own.
- Encryption.HexDecode: decodes pairs of hex digits only and treats anything else as a thrown error. `CryptoJS.enc.Hex.parse` never throws and reads malformed hex leniently; its word packing is not modelled.
- Encryption.Decrypt: follows `HexDecode`, so for an IV that is not well-formed hex the model fails where the source decrypts under whatever IV the lenient parse gives. Every IV `encrypt` writes is well-formed (`Encryption.DecryptEncrypt`).
- Notepad.NotepadScreen.Edit: records the text with the corrected `AddToHistory`, which leaves the cursor alone on a repeated text; the source's own cursor update is `AddToHistoryAsWritten`, and the drift it causes is the notepad finding below.
- Sync.PulledItem: its contract states the failed-decryption path only. The successful path is stated by `Sync.PushPullRoundTrip`.

## Findings

| source | as written | input that shows it | evidently intended | confidence | as-written member | corrected member |
|---|---|---|---|---|---|---|
| src/context/ClipboardContext.tsx:341-345 | a signed-in `addCustomCategory` pushes the custom list read before the category is added locally | signed in with no local or remote categories, add "Work": the push sends `[]`, the remote list stays `[]`, and the next pull replaces the local `["Work"]` with `[]` | push the list that includes the new category | not executed | Context.AddedCategoryNeverPushed | Context.PushedListHoldsNewCategory |
| src/screens/notepad/NotepadScreen.tsx:71-75 | the cursor moves on even when the duplicate check skipped the append | from history `[""]`, record "a" three times: the history is `["", "a"]` and the cursor is 3, so undo reads entry 2, which does not exist | leave the cursor on the last entry when nothing is appended | not executed | Notepad.CursorDriftsAsWritten | Notepad.AddedEntriesSpec |
| src/screens/clipboard/TemplateEditScreen.tsx:84-87 | the template screen's duplicate check compares the untrimmed input | the input " Work" matches no listed category, so "Work" is created although it is a default | compare the trimmed input, as the clipboard screen does at src/screens/clipboard/ClipboardEditScreen.tsx:216-221 | not executed | Categories.PaddedDuplicatePasses | Categories.PaddedDuplicateRefused |
