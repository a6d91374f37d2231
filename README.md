# Stalcraft Companion: a verified model of the catalog core

This Dafny project models the core of the Stalcraft Companion Android app, a
catalog of game items. The app fetches the items from a remote database,
caches them in a local table and shows them grouped by category, with a
detail screen for each item. Each item carries a list of "info blocks"
describing its attributes.

The model covers these parts:

- **The info-block decoder** (`info_block_decoder.dfy`, over the JSON tree in
  `json_tree.dfy` and the entities in `models.dfy`). It decodes the two tagged
  unions: translation strings and info blocks. The string discriminant
  `type` picks the variant.
  - A missing `type` means "no block".
  - An unknown `type` is a parse error.
  - A list block's `elements` are decoded by the same decoder, entry by entry.
  - The Gson behaviour the decoder relies on is modelled explicitly. A missing
    or JSON-null element decodes to null. `asString`/`asFloat` look through a
    one-element array. The two helper records are filled reflectively.
  - A reference encoder is the decoder's partner: every block decodes back
    from its encoding.
- **The items table** (`dao.dfy`). It is a class holding a map from id to
  item. Inserts replace on conflict, and it supports lookup, listing and
  clearing. The pure function `ReplaceAll` specifies a batch insert.
- **The repository** (`repository.dfy`).
  - The `needsUpdate` timestamp rule.
  - The refresh loop, with per-item progress reports and an early exit on the
    first failed fetch.
  - The full replace of the table, done only after every fetch succeeds.
  - Storing the remote `updatedAt` last.
  - The accessors that hand straight through to the table.
- **The view model** (`view_model.dfy`). A class keeps the shown items, the
  expanded categories, the selection, and the loading, error and progress
  state. The pure projections of the items (sorted distinct categories,
  per-category filter, grouping) live in `catalog.dfy`. `string_order.dfy`
  holds the string order they use.
- **The detail screen** (`item_detail_screen.dfy`). It covers `stringify`,
  the rarity colour table and the numeric value-colour rule, including
  Android's `#RRGGBB` colour parsing. It also covers the rows each block
  renderer shows, the dispatch on the block's type, the in-order recursive
  visit of list blocks, and the characteristics header. `kotlin_text.dfy`
  holds Kotlin's two ways of showing a nullable string: `?: ""` and
  `toString()`.
- **The main screen** (`main_screen.dfy`). It covers the start-up update
  check, the item cards, and the category sections: count label, visibility,
  and one spacer between each two cards. It also covers the content built
  from the grouped items, and the update and progress dialog flags.
- **Navigation** (`navigation.dfy`). It covers the two routes and
  `createRoute`, with a reader for the route's argument as its partner.

Remote calls are parameters of the operations: the item listing, each item
fetch, the repository info and the connectivity flag. Each is a value or an
`ApiError` (a thrown exception). The locally stored update timestamp
(`Prefs`) is the repository's field `lastUpdate`.

Floating-point payloads stay opaque: each is kept as the literal text it was
read from. Strings are `seq<char>`, ordered character by character.

Coroutines and reactive streams are flattened into sequential state
changes. A refresh is one method call that returns its outcome and the
progress reports it made, in order.

Two texts go through Kotlin's `toString()` on a nullable string: the numeric
block's value and the text block's title. The renderers model both as the
code writes them, so a missing Russian line is shown as `null` in both
places. The title case is listed under "## Findings". The intended title text
is defined beside it, and its property is proved there.

## Model

| member | source | states |
|---|---|---|
| JsonTree.Get | app/src/main/java/com/example/stalcraft_companion_compose/api/InfoBlockDeserializer.kt:21-21 | `jsonObject.get(key)` is present exactly when the object has the key, and then it is that member |
| JsonTree.AsString | app/src/main/java/com/example/stalcraft_companion_compose/api/InfoBlockDeserializer.kt:72-72 | `asString` reads a JSON string as itself; JSON null and objects have no string value (they throw) |
| JsonTree.AsNumber | app/src/main/java/com/example/stalcraft_companion_compose/api/InfoBlockDeserializer.kt:27-31 | `asFloat` reads a JSON number as its literal; null, booleans and objects have no number value |
| InfoBlockDecoder.RequiredString | app/src/main/java/com/example/stalcraft_companion_compose/api/InfoBlockDeserializer.kt:72-72 | succeeds exactly when the member exists and has a string value, and gives that value |
| InfoBlockDecoder.RequiredFloat | app/src/main/java/com/example/stalcraft_companion_compose/api/InfoBlockDeserializer.kt:27-31 | succeeds exactly when the member exists and is numeric, and gives its literal |
| InfoBlockDecoder.ReflectedString | app/src/main/java/com/example/stalcraft_companion_compose/api/InfoBlockDeserializer.kt:75-75 | a reflectively filled String field is null when the member is absent and the string itself when it is a JSON string |
| InfoBlockDecoder.DecodeLines | app/src/main/java/com/example/stalcraft_companion_compose/api/InfoBlockDeserializer.kt:75-75 | the nested TranslationLines is null for a missing or null element, and only an object yields a record |
| InfoBlockDecoder.DecodeFormatted | app/src/main/java/com/example/stalcraft_companion_compose/api/InfoBlockDeserializer.kt:45-45 | the nested FormattedObject is null for a missing or null element |
| InfoBlockDecoder.DecodeTranslationString | app/src/main/java/com/example/stalcraft_companion_compose/api/InfoBlockDeserializer.kt:63-80 | non-objects are rejected; no `type` gives null; a decoded value's variant is the one its `type` names; any other tag is UnknownType |
| InfoBlockDecoder.NestedTranslationString | app/src/main/java/com/example/stalcraft_companion_compose/api/InfoBlockDeserializer.kt:23-23 | a nested translation string is null for a missing or JSON-null element, without calling the deserializer; otherwise the deserializer decides |
| InfoBlockDecoder.RequiredTranslationString | app/src/main/java/com/example/stalcraft_companion_compose/api/InfoBlockDeserializer.kt:34-34 | a translation string for a non-null parameter succeeds exactly when the nested decode gives a value, and is that value |
| InfoBlockDecoder.DecodeInfoBlock | app/src/main/java/com/example/stalcraft_companion_compose/api/InfoBlockDeserializer.kt:14-60 | non-objects are rejected before dispatch; no `type` gives no block; a `type` without a string value fails; a tag outside the eight is UnknownType; a decoded block's own tag equals its `type` |
| InfoBlockDecoder.DecodeText | app/src/main/java/com/example/stalcraft_companion_compose/api/InfoBlockDeserializer.kt:22-25 | the `text` branch only ever yields a text block |
| InfoBlockDecoder.DecodeDamage | app/src/main/java/com/example/stalcraft_companion_compose/api/InfoBlockDeserializer.kt:26-32 | the `damage` branch only ever yields a damage block |
| InfoBlockDecoder.DecodeRange | app/src/main/java/com/example/stalcraft_companion_compose/api/InfoBlockDeserializer.kt:33-37 | the `range` branch only ever yields a range block |
| InfoBlockDecoder.DecodeList | app/src/main/java/com/example/stalcraft_companion_compose/api/InfoBlockDeserializer.kt:38-41 | the `list` branch only ever yields a list block |
| InfoBlockDecoder.DecodeNumeric | app/src/main/java/com/example/stalcraft_companion_compose/api/InfoBlockDeserializer.kt:42-46 | the `numeric` branch only ever yields a numeric block |
| InfoBlockDecoder.DecodeKeyValue | app/src/main/java/com/example/stalcraft_companion_compose/api/InfoBlockDeserializer.kt:47-50 | the `key-value` branch only ever yields a key-value block |
| InfoBlockDecoder.DecodeBlockList | app/src/main/java/com/example/stalcraft_companion_compose/api/InfoBlockDeserializer.kt:40-40 | `elements` that are JSON null give a null list; an array gives its entries decoded in order; anything else is an error |
| InfoBlockDecoder.DecodeElements | app/src/main/java/com/example/stalcraft_companion_compose/api/InfoBlockDeserializer.kt:40-40 | the entries decode exactly when each one does; the result has the array's length, and entry k is the decoding of element k |
| InfoBlockDecoder.DecodeElement | app/src/main/java/com/example/stalcraft_companion_compose/api/InfoBlockDeserializer.kt:40-40 | a JSON-null list entry is an absent block; any other entry goes to the info-block deserializer |
| InfoBlockDecoder.RangeFields | app/src/main/java/com/example/stalcraft_companion_compose/api/InfoBlockDeserializer.kt:33-37 | a range object decodes to the range block whose name, min and max are read from the same-named members |
| InfoBlockDecoder.DamageFields | app/src/main/java/com/example/stalcraft_companion_compose/api/InfoBlockDeserializer.kt:26-32 | a damage object decodes to the damage block holding its five same-named members |
| InfoBlockDecoder.ListEntriesInOrder | app/src/main/java/com/example/stalcraft_companion_compose/api/InfoBlockDeserializer.kt:38-41 | a list object decodes exactly when every entry does, into a list block of the same length whose entry k is the decoding of element k |
| InfoBlockDecoder.UntypedEntryIsAbsent | app/src/main/java/com/example/stalcraft_companion_compose/api/InfoBlockDeserializer.kt:57-57 | a list entry without `type` becomes an absent entry, not an error |
| InfoBlockDecoder.TranslationStringRoundTrip | app/src/main/java/com/example/stalcraft_companion_compose/api/InfoBlockDeserializer.kt:70-76 | every translation string decodes back from its encoding |
| InfoBlockDecoder.OptionalTranslationStringRoundTrip | app/src/main/java/com/example/stalcraft_companion_compose/api/InfoBlockDeserializer.kt:23-23 | a nullable translation string decodes back from its encoding, null included |
| InfoBlockDecoder.FormattedRoundTrip | app/src/main/java/com/example/stalcraft_companion_compose/api/InfoBlockDeserializer.kt:45-45 | every formatted object decodes back from its encoding |
| InfoBlockDecoder.InfoBlockRoundTrip | app/src/main/java/com/example/stalcraft_companion_compose/api/InfoBlockDeserializer.kt:21-56 | every info block, nested lists included, decodes back from its encoding |
| InfoBlockDecoder.TextRoundTrip | app/src/main/java/com/example/stalcraft_companion_compose/api/InfoBlockDeserializer.kt:22-25 | text blocks decode back from their encoding |
| InfoBlockDecoder.DamageRoundTrip | app/src/main/java/com/example/stalcraft_companion_compose/api/InfoBlockDeserializer.kt:26-32 | damage blocks decode back from their encoding |
| InfoBlockDecoder.RangeRoundTrip | app/src/main/java/com/example/stalcraft_companion_compose/api/InfoBlockDeserializer.kt:33-37 | range blocks decode back from their encoding |
| InfoBlockDecoder.ListRoundTrip | app/src/main/java/com/example/stalcraft_companion_compose/api/InfoBlockDeserializer.kt:38-41 | list blocks decode back from their encoding, recursively through their entries |
| InfoBlockDecoder.NumericRoundTrip | app/src/main/java/com/example/stalcraft_companion_compose/api/InfoBlockDeserializer.kt:42-46 | numeric blocks decode back from their encoding |
| InfoBlockDecoder.KeyValueRoundTrip | app/src/main/java/com/example/stalcraft_companion_compose/api/InfoBlockDeserializer.kt:47-50 | key-value blocks decode back from their encoding |
| InfoBlockDecoder.EncodeElements | app/src/main/java/com/example/stalcraft_companion_compose/api/InfoBlockDeserializer.kt:40-40 | the reference encoding of a list keeps one element per entry |
| Dao.Lookup | app/src/main/java/com/example/stalcraft_companion_compose/data/database/ItemDao.kt:21-22 | the lookup finds a row exactly when the id is a key, and then gives that row |
| Dao.Ids | app/src/main/java/com/example/stalcraft_companion_compose/data/database/ItemDao.kt:12-13 | the ids of a batch are exactly the ids some item in it carries |
| Dao.ReplaceAll | app/src/main/java/com/example/stalcraft_companion_compose/data/database/ItemDao.kt:12-13 | after a REPLACE batch the last item of the batch is stored under its id; an empty batch changes nothing |
| Dao.ReplaceAllKeys | app/src/main/java/com/example/stalcraft_companion_compose/data/database/ItemDao.kt:12-13 | a batch insert adds exactly the batch's ids to the table's keys |
| Dao.ReplaceAllKeepsOthers | app/src/main/java/com/example/stalcraft_companion_compose/data/database/ItemDao.kt:12-16 | rows whose id the batch does not mention are unchanged |
| Dao.LastOccurrenceWins | app/src/main/java/com/example/stalcraft_companion_compose/data/database/ItemDao.kt:12-13 | for a duplicated id, the row holds the last item with that id |
| Dao.ReplaceAllKeyedById | app/src/main/java/com/example/stalcraft_companion_compose/data/database/ItemDao.kt:12-16 | replace-on-conflict keeps every row under its own id |
| Dao.ReplaceAllFromEmpty | app/src/main/java/com/example/stalcraft_companion_compose/data/database/ItemDao.kt:12-13 | filling an empty table gives exactly the batch's ids, each row one of the batch's items |
| Dao.ItemDao.constructor | app/src/main/java/com/example/stalcraft_companion_compose/data/database/ItemDao.kt:10-11 | a new table is empty |
| Dao.ItemDao.Insert | app/src/main/java/com/example/stalcraft_companion_compose/data/database/ItemDao.kt:15-16 | the row under the item's id becomes the item and a lookup finds it; other ids are unchanged; a duplicate id does not grow the row count |
| Dao.ItemDao.InsertAll | app/src/main/java/com/example/stalcraft_companion_compose/data/database/ItemDao.kt:12-13 | the table becomes the items inserted one after another with replace |
| Dao.ItemDao.GetItemById | app/src/main/java/com/example/stalcraft_companion_compose/data/database/ItemDao.kt:21-22 | returns the row with that id, and nothing when no row has it |
| Dao.ItemDao.GetAllItems | app/src/main/java/com/example/stalcraft_companion_compose/data/database/ItemDao.kt:18-19 | every row exactly once: as many items as rows, each row present, nothing else, ids pairwise different |
| Dao.ItemDao.ClearAll | app/src/main/java/com/example/stalcraft_companion_compose/data/database/ItemDao.kt:24-25 | the table is empty and every lookup finds nothing |
| Repository.NeedsUpdateOnFailure | app/src/main/java/com/example/stalcraft_companion_compose/data/database/ItemRepository.kt:18-19 | a failed remote call never asks for an update |
| Repository.NeedsUpdate | app/src/main/java/com/example/stalcraft_companion_compose/data/database/ItemRepository.kt:12-20 | an update is asked only after a successful remote call; it always is when nothing is stored, and never when the stored timestamp is the remote one |
| Repository.NeedsUpdateWhenNothingStored | app/src/main/java/com/example/stalcraft_companion_compose/data/database/ItemRepository.kt:14-16 | with no stored timestamp, any remote answer asks for an update |
| Repository.UpToDateAfterStoring | app/src/main/java/com/example/stalcraft_companion_compose/data/database/ItemRepository.kt:14-16 | once the remote timestamp is stored, the same answer asks for no update |
| Repository.NeedsUpdateExactlyOneWay | app/src/main/java/com/example/stalcraft_companion_compose/data/database/ItemRepository.kt:14-16 | for two different timestamps exactly one direction asks for an update |
| Repository.NoUpdateFromOlderRemote | app/src/main/java/com/example/stalcraft_companion_compose/data/database/ItemRepository.kt:14-16 | a remote timestamp below the stored one asks for no update |
| Repository.LeadingOk | app/src/main/java/com/example/stalcraft_companion_compose/data/database/ItemRepository.kt:29-33 | the number of item fetches that succeed before the first failure: all before it succeed, the one at it fails |
| Repository.FetchedItems | app/src/main/java/com/example/stalcraft_companion_compose/data/database/ItemRepository.kt:26-31 | one item per fetched listing, in listing order, each the fetch's result |
| Repository.Progress | app/src/main/java/com/example/stalcraft_companion_compose/data/database/ItemRepository.kt:32-32 | k fetched items give k progress reports |
| Repository.RefreshProgress | app/src/main/java/com/example/stalcraft_companion_compose/data/database/ItemRepository.kt:29-33 | no reports when the listing fails; otherwise one report per item fetched before the first failure, the i-th being `(i+1, total)` |
| Repository.ProgressAscending | app/src/main/java/com/example/stalcraft_companion_compose/data/database/ItemRepository.kt:29-33 | report i is `(i+1, total)`, so the counts rise strictly against a fixed total |
| Repository.ProgressEndsAtTotal | app/src/main/java/com/example/stalcraft_companion_compose/data/database/ItemRepository.kt:25-33 | with listings, the last report of a full fetch is `(total, total)` |
| Repository.RefreshOutcome | app/src/main/java/com/example/stalcraft_companion_compose/data/database/ItemRepository.kt:22-43 | a refresh ends normally exactly when the listing, every item fetch and the repository info all succeed |
| Repository.FetchErrorPropagates | app/src/main/java/com/example/stalcraft_companion_compose/data/database/ItemRepository.kt:29-42 | when fetch k is the first to fail, its exception ends the refresh and exactly k progress reports were made |
| Repository.ItemRepository.constructor | app/src/main/java/com/example/stalcraft_companion_compose/data/database/ItemRepository.kt:11-15 | the repository wraps the given table, and its stored timestamp is whatever `Prefs` holds from an earlier refresh (nothing on a first launch), so a later launch starts from the timestamp the last refresh stored |
| Repository.ItemRepository.RefreshData | app/src/main/java/com/example/stalcraft_companion_compose/data/database/ItemRepository.kt:22-43 | reports progress once per fetched item; on a full fetch the table becomes exactly the fetched items; on any earlier failure it is unchanged; the timestamp is stored only after a normal end |
| Repository.ItemRepository.GetItemById | app/src/main/java/com/example/stalcraft_companion_compose/data/database/ItemRepository.kt:45-45 | the table's lookup, unchanged |
| Repository.ItemRepository.GetAllItems | app/src/main/java/com/example/stalcraft_companion_compose/data/database/ItemRepository.kt:47-47 | the table's rows, each exactly once |
| Repository.ItemRepository.InsertAll | app/src/main/java/com/example/stalcraft_companion_compose/data/database/ItemRepository.kt:49-51 | the table's batch insert, unchanged |
| Repository.ItemRepository.InsertItem | app/src/main/java/com/example/stalcraft_companion_compose/data/database/ItemRepository.kt:53-55 | the table's single insert, unchanged |
| StringOrder.LexLess | app/src/main/java/com/example/stalcraft_companion_compose/data/database/ItemRepository.kt:16-16 | `String.compareTo` below zero: nothing is below the empty string, the empty string is below any other, and a proper prefix is below the longer string |
| StringOrder.LexLessIrreflexive | app/src/main/java/com/example/stalcraft_companion_compose/data/database/ItemRepository.kt:16-16 | no string compares greater than itself |
| StringOrder.LexLessTransitive | app/src/main/java/com/example/stalcraft_companion_compose/interf/ItemViewModel.kt:135-135 | the string order is transitive |
| StringOrder.LexLessTrichotomy | app/src/main/java/com/example/stalcraft_companion_compose/interf/ItemViewModel.kt:135-135 | two different strings are ordered one way and only one way |
| StringOrder.InsertSorted | app/src/main/java/com/example/stalcraft_companion_compose/interf/ItemViewModel.kt:134-135 | inserting into a strictly sorted list keeps it strictly sorted and adds exactly the new member |
| StringOrder.SortedDistinct | app/src/main/java/com/example/stalcraft_companion_compose/interf/ItemViewModel.kt:134-135 | `distinct().sorted()` is strictly sorted with exactly the input's members |
| StringOrder.StrictlySortedDistinct | app/src/main/java/com/example/stalcraft_companion_compose/interf/ItemViewModel.kt:134-134 | a strictly sorted list has no duplicates |
| StringOrder.FirstIsLeast | app/src/main/java/com/example/stalcraft_companion_compose/interf/ItemViewModel.kt:135-135 | the head of a strictly sorted list is below every other member |
| StringOrder.StrictlySortedUnique | app/src/main/java/com/example/stalcraft_companion_compose/interf/ItemViewModel.kt:134-135 | only one strictly sorted list has a given set of members, so the sorted distinct list is determined |
| Catalog.Categories | app/src/main/java/com/example/stalcraft_companion_compose/interf/ItemViewModel.kt:133-133 | `map { it.category }` keeps length and position |
| Catalog.CategorySet | app/src/main/java/com/example/stalcraft_companion_compose/interf/ItemViewModel.kt:115-116 | the categories present are exactly those some item carries |
| Catalog.UniqueCategories | app/src/main/java/com/example/stalcraft_companion_compose/interf/ItemViewModel.kt:131-136 | `uniqueCategories` is strictly sorted (so duplicate-free) and has exactly the items' categories |
| Catalog.Filter | app/src/main/java/com/example/stalcraft_companion_compose/interf/ItemViewModel.kt:139-143 | `getItemsByCategory(c)` holds exactly the items of category c, and no more items than the list |
| Catalog.FilterConcat | app/src/main/java/com/example/stalcraft_companion_compose/interf/ItemViewModel.kt:139-143 | filtering distributes over concatenation, so the items keep their order |
| Catalog.FilterSingleton | app/src/main/java/com/example/stalcraft_companion_compose/interf/ItemViewModel.kt:141-141 | a single item is kept exactly when its category matches |
| Catalog.FilterEmptyIffAbsent | app/src/main/java/com/example/stalcraft_companion_compose/interf/ItemViewModel.kt:139-143 | a category's filter is empty exactly when no item has that category |
| Catalog.GroupBy | app/src/main/java/com/example/stalcraft_companion_compose/MainScreen.kt:113-116 | the grouping has a key exactly for each category present, and its group is that category's items in order |
| Catalog.GroupOrEmpty | app/src/main/java/com/example/stalcraft_companion_compose/MainScreen.kt:152-152 | `itemsByCategory[category] ?: emptyList()`: the category's group when it has one, else the empty list |
| Catalog.CategorySetSnoc | app/src/main/java/com/example/stalcraft_companion_compose/MainScreen.kt:113-116 | appending an item adds exactly its category |
| Catalog.GroupByStep | app/src/main/java/com/example/stalcraft_companion_compose/MainScreen.kt:113-116 | adding the last item to its group keeps every group equal to its category's filter |
| Catalog.GroupByStepAt | app/src/main/java/com/example/stalcraft_companion_compose/MainScreen.kt:113-116 | the same, for one category |
| Catalog.GroupOrEmptyIsFilter | app/src/main/java/com/example/stalcraft_companion_compose/MainScreen.kt:152-152 | a category's group, or an empty list for a missing one, is that category's filter |
| Catalog.EveryItemInItsGroup | app/src/main/java/com/example/stalcraft_companion_compose/MainScreen.kt:113-116 | every item's category is listed, the item is in that category's group, and in no other group |
| ViewModel.ToggleFlips | app/src/main/java/com/example/stalcraft_companion_compose/interf/ItemViewModel.kt:104-112 | toggling flips the toggled category's membership and no other |
| ViewModel.ToggleTwice | app/src/main/java/com/example/stalcraft_companion_compose/interf/ItemViewModel.kt:104-112 | toggling the same category twice restores the expanded set |
| ViewModel.Toggle | app/src/main/java/com/example/stalcraft_companion_compose/interf/ItemViewModel.kt:104-112 | toggling changes whether the category is expanded, and the other categories stay as they were |
| ViewModel.UpdateFailedText | app/src/main/java/com/example/stalcraft_companion_compose/interf/ItemViewModel.kt:87-87 | the failure text starts with "Update failed: " and continues with the exception's message, or is "Update failed: null" when there is none |
| ViewModel.LastReport | app/src/main/java/com/example/stalcraft_companion_compose/interf/ItemViewModel.kt:78-80 | the progress pair is the last report, or stays as it was when none is made |
| ViewModel.ItemViewModel.constructor | app/src/main/java/com/example/stalcraft_companion_compose/interf/ItemViewModel.kt:34-47 | nothing shown, expanded or selected; not loading; no error; progress `(0, 100)` |
| ViewModel.ItemViewModel.CollectItems | app/src/main/java/com/example/stalcraft_companion_compose/interf/ItemViewModel.kt:49-61 | the error is cleared and the shown items become the table's rows, each exactly once |
| ViewModel.ItemViewModel.CheckForUpdates | app/src/main/java/com/example/stalcraft_companion_compose/interf/ItemViewModel.kt:64-72 | the repository's update rule against the stored timestamp; false when the remote call fails |
| ViewModel.ItemViewModel.PerformUpdate | app/src/main/java/com/example/stalcraft_companion_compose/interf/ItemViewModel.kt:74-95 | loading ends off; progress is the last `(current, total)` reported; the error is cleared on success and is the failure text otherwise; the table is replaced only on a full fetch; the remote timestamp is stored exactly on success |
| ViewModel.ItemViewModel.GetItemById | app/src/main/java/com/example/stalcraft_companion_compose/interf/ItemViewModel.kt:98-102 | the table's row with that id, read through the repository |
| ViewModel.ItemViewModel.ToggleCategoryExpansion | app/src/main/java/com/example/stalcraft_companion_compose/interf/ItemViewModel.kt:104-112 | the expanded set becomes its toggle; nothing else changes |
| ViewModel.ItemViewModel.ExpandAllCategories | app/src/main/java/com/example/stalcraft_companion_compose/interf/ItemViewModel.kt:113-117 | the expanded set becomes exactly the categories of the current items |
| ViewModel.ItemViewModel.CollapseAllCategories | app/src/main/java/com/example/stalcraft_companion_compose/interf/ItemViewModel.kt:118-120 | the expanded set becomes empty |
| ViewModel.ItemViewModel.SelectItem | app/src/main/java/com/example/stalcraft_companion_compose/interf/ItemViewModel.kt:122-124 | the selection becomes the item |
| ViewModel.ItemViewModel.ClearSelectedItem | app/src/main/java/com/example/stalcraft_companion_compose/interf/ItemViewModel.kt:126-128 | the selection becomes null |
| ItemDetailScreen.Stringify | app/src/main/java/com/example/stalcraft_companion_compose/ItemDetailScreen.kt:510-517 | a text gives its literal and a translation its Russian line; the result is absent exactly for a translation without a Russian line |
| KotlinText.ShownOrEmpty | app/src/main/java/com/example/stalcraft_companion_compose/ItemDetailScreen.kt:310-310 | an absent string is shown as "" and a present one as itself |
| KotlinText.NullableToString | app/src/main/java/com/example/stalcraft_companion_compose/ItemDetailScreen.kt:374-374 | `toString()` of a nullable string, and the string template of one, give "null" when it is absent and the string otherwise |
| ItemDetailScreen.Shown | app/src/main/java/com/example/stalcraft_companion_compose/ItemDetailScreen.kt:323-323 | a name is shown as its literal, or as its Russian line with "" when absent |
| ItemDetailScreen.RarityColour | app/src/main/java/com/example/stalcraft_companion_compose/ItemDetailScreen.kt:147-155 | the six ranks map to their fixed colours and every other value to 0x93FFFFFF |
| ItemDetailScreen.RarityColoursDistinct | app/src/main/java/com/example/stalcraft_companion_compose/ItemDetailScreen.kt:237-245 | the six ranks have six different colours, none of them the fallback |
| ItemDetailScreen.HexValue | app/src/main/java/com/example/stalcraft_companion_compose/ItemDetailScreen.kt:377-377 | n hex digits denote a value below 16^n |
| ItemDetailScreen.ParseColour | app/src/main/java/com/example/stalcraft_companion_compose/ItemDetailScreen.kt:377-377 | a colour parses exactly when it is `#` followed by 6 or 8 hex digits; its value is those digits, with alpha 0xFF added for 6 digits |
| ItemDetailScreen.HexValueSnoc | app/src/main/java/com/example/stalcraft_companion_compose/ItemDetailScreen.kt:377-377 | one more digit shifts the value by one hex place |
| ItemDetailScreen.HexValueSix | app/src/main/java/com/example/stalcraft_companion_compose/ItemDetailScreen.kt:377-377 | the value of six hex digits, digit by digit |
| ItemDetailScreen.GreenParses | app/src/main/java/com/example/stalcraft_companion_compose/ItemDetailScreen.kt:379-379 | `#53C353` is the colour 0xFF53C353 |
| ItemDetailScreen.RedParses | app/src/main/java/com/example/stalcraft_companion_compose/ItemDetailScreen.kt:379-379 | `#C15252` is the colour 0xFFC15252 |
| ItemDetailScreen.ValueColour | app/src/main/java/com/example/stalcraft_companion_compose/ItemDetailScreen.kt:376-381 | day mode always has a colour: 53C353 and C15252 keep theirs, all else is black; in night mode a null colour fails to parse |
| ItemDetailScreen.NightColourIsValueColour | app/src/main/java/com/example/stalcraft_companion_compose/ItemDetailScreen.kt:376-377 | in night mode a six-digit hex `valueColor` is shown as that opaque colour |
| ItemDetailScreen.TitleTextAsWritten | app/src/main/java/com/example/stalcraft_companion_compose/ItemDetailScreen.kt:451-451 | as written: no title shows "", and a title shows the `toString()` of its `stringify` |
| ItemDetailScreen.TitleText | app/src/main/java/com/example/stalcraft_companion_compose/ItemDetailScreen.kt:451-451 | as intended: no title shows "", and a title is shown like any other text |
| ItemDetailScreen.UntranslatedTitleShowsNull | app/src/main/java/com/example/stalcraft_companion_compose/ItemDetailScreen.kt:451-451 | a translated title without a Russian line shows "null" as written and "" as intended |
| ItemDetailScreen.TitleTextLikeOtherTexts | app/src/main/java/com/example/stalcraft_companion_compose/ItemDetailScreen.kt:451-455 | the corrected title is shown like the block's text; both versions agree whenever a line exists |
| ItemDetailScreen.TextLine | app/src/main/java/com/example/stalcraft_companion_compose/ItemDetailScreen.kt:444-459 | one pair: the left cell is "" for no title, "null" for a translated title without a Russian line, and the title's text otherwise; the right cell is the text's string, or "" when absent |
| ItemDetailScreen.DamageLine | app/src/main/java/com/example/stalcraft_companion_compose/ItemDetailScreen.kt:406-442 | one damage row holding the start damage with its decrease-start distance, and the end damage with its decrease-end and maximum distances |
| ItemDetailScreen.RangeLine | app/src/main/java/com/example/stalcraft_companion_compose/ItemDetailScreen.kt:329-344 | one range row with the block's min and max, and the name's string, or "" when absent |
| ItemDetailScreen.NumericLine | app/src/main/java/com/example/stalcraft_companion_compose/ItemDetailScreen.kt:363-384 | a null formatted value throws; otherwise the row shows the name and the value's `toString()` in the value colour, and fails exactly when the colour does |
| ItemDetailScreen.KeyValueLine | app/src/main/java/com/example/stalcraft_companion_compose/ItemDetailScreen.kt:346-361 | one pair: the key's string on the left and the value's on the right, each "" when absent |
| ItemDetailScreen.NameLine | app/src/main/java/com/example/stalcraft_companion_compose/ItemDetailScreen.kt:303-327 | usage and item blocks show one label: the name's string, or "" when absent |
| ItemDetailScreen.RenderEntry | app/src/main/java/com/example/stalcraft_companion_compose/ItemDetailScreen.kt:392-401 | the type dispatch never emits the characteristics header |
| ItemDetailScreen.RenderList | app/src/main/java/com/example/stalcraft_companion_compose/ItemDetailScreen.kt:386-404 | a null `elements` throws; rendered lists never emit the header |
| ItemDetailScreen.RenderElements | app/src/main/java/com/example/stalcraft_companion_compose/ItemDetailScreen.kt:391-402 | a list's entries render exactly when each one does |
| ItemDetailScreen.DispatchByVariant | app/src/main/java/com/example/stalcraft_companion_compose/ItemDetailScreen.kt:190-199 | each present block goes to exactly its own variant's renderer |
| ItemDetailScreen.NullEntryRendersNothing | app/src/main/java/com/example/stalcraft_companion_compose/ItemDetailScreen.kt:392-392 | a null entry renders nothing |
| ItemDetailScreen.AbsentStringsShowEmpty | app/src/main/java/com/example/stalcraft_companion_compose/ItemDetailScreen.kt:303-374 | on screen, every renderer shows an absent string as "": text, range, key-value, usage, item and numeric names; a text block without a title shows "" on the left |
| ItemDetailScreen.PresentStringsShowThemselves | app/src/main/java/com/example/stalcraft_companion_compose/ItemDetailScreen.kt:303-459 | on screen, a present string is shown as itself in every renderer, the text block's title included |
| ItemDetailScreen.UntranslatedTitleOnScreen | app/src/main/java/com/example/stalcraft_companion_compose/ItemDetailScreen.kt:451-451 | on screen, a text block whose title is a translation without a Russian line shows "null" as its title, unlike the intended text |
| ItemDetailScreen.RenderElementsInOrder | app/src/main/java/com/example/stalcraft_companion_compose/ItemDetailScreen.kt:391-402 | the rows of entry i follow those of the entries before it, inside the rows of any longer prefix |
| ItemDetailScreen.NestedListRendersInner | app/src/main/java/com/example/stalcraft_companion_compose/ItemDetailScreen.kt:395-395 | a list holding one nested list renders exactly as the nested list |
| ItemDetailScreen.NullEntriesRenderNothing | app/src/main/java/com/example/stalcraft_companion_compose/ItemDetailScreen.kt:391-402 | a list of null entries renders nothing |
| ItemDetailScreen.Characteristics | app/src/main/java/com/example/stalcraft_companion_compose/ItemDetailScreen.kt:175-202 | null `infoBlocks` throws; the header appears exactly when the blocks are non-empty, and then first |
| ItemDetailScreen.RenderEntries | app/src/main/java/com/example/stalcraft_companion_compose/ItemDetailScreen.kt:184-201 | the top-level entries render exactly when each one does, without a header among them |
| ItemDetailScreen.DetailScreen | app/src/main/java/com/example/stalcraft_companion_compose/ItemDetailScreen.kt:143-202 | the rarity card has the rank's colour; the screen renders exactly when the characteristics do |
| MainScreen.CheckForUpdates | app/src/main/java/com/example/stalcraft_companion_compose/MainScreen.kt:73-93 | true exactly with network and a positive answer; no network or a thrown check gives false; every false answer loads cached data once |
| MainScreen.ItemCard | app/src/main/java/com/example/stalcraft_companion_compose/MainScreen.kt:234-306 | the card's stripe has the rank's colour; the name line is the text of a text name and the Russian line of a translated name, and it is absent exactly when that line is absent |
| MainScreen.ItemColumn | app/src/main/java/com/example/stalcraft_companion_compose/MainScreen.kt:379-387 | n items give 2n-1 entries: card k at position 2k and spacers exactly at the odd positions |
| MainScreen.SpacerCount | app/src/main/java/com/example/stalcraft_companion_compose/MainScreen.kt:379-386 | such a column holds exactly n-1 spacers |
| MainScreen.OddCount | app/src/main/java/com/example/stalcraft_companion_compose/MainScreen.kt:384-386 | there are m odd positions below 2m |
| MainScreen.CategorySection | app/src/main/java/com/example/stalcraft_companion_compose/MainScreen.kt:309-392 | the count label appears exactly when the section is non-empty; the item column shows exactly when expanded and non-empty |
| MainScreen.ShowsSection | app/src/main/java/com/example/stalcraft_companion_compose/MainScreen.kt:309-392 | the section a category shows: its title, the expand icon, the count label only when non-empty, and the item column only when expanded and non-empty, with cards and spacers alternating |
| MainScreen.MainContent | app/src/main/java/com/example/stalcraft_companion_compose/MainScreen.kt:139-160 | the loading overlay shows exactly when there are no items; otherwise one section per unique category, in order, showing that category's items |
| MainScreen.UpdateDialogs.constructor | app/src/main/java/com/example/stalcraft_companion_compose/MainScreen.kt:107-108 | both dialogs start closed |
| MainScreen.UpdateDialogs.Launch | app/src/main/java/com/example/stalcraft_companion_compose/MainScreen.kt:119-125 | the update dialog opens exactly when the update check answers true |
| MainScreen.UpdateDialogs.Dismiss | app/src/main/java/com/example/stalcraft_companion_compose/MainScreen.kt:182-188 | the update dialog closes; the progress dialog is left as it was |
| MainScreen.UpdateDialogs.Confirm | app/src/main/java/com/example/stalcraft_companion_compose/MainScreen.kt:169-177 | the update dialog closes; the progress dialog opens exactly when the progress read before the update has first != second; the update then runs, with every effect of `performUpdate` on the view model, the table and the stored timestamp |
| MainScreen.ShowsProgressDialog | app/src/main/java/com/example/stalcraft_companion_compose/MainScreen.kt:173-173 | the progress dialog opens whenever the count differs from the total (below it while updating, above it never arising), and not once it has reached it |
| MainScreen.FirstUpdateShowsProgress | app/src/main/java/com/example/stalcraft_companion_compose/MainScreen.kt:173-173 | the initial progress `(0, 100)` opens the progress dialog |
| MainScreen.NoProgressDialogAfterFullRefresh | app/src/main/java/com/example/stalcraft_companion_compose/MainScreen.kt:173-173 | after a full refresh of a non-empty listing a later confirmation opens no progress dialog |
| Navigation.NatDecimal | app/src/main/java/com/example/stalcraft_companion_compose/Navigation.kt:6-6 | the decimal digits of a number, without a leading zero |
| Navigation.Decimal | app/src/main/java/com/example/stalcraft_companion_compose/Navigation.kt:6-6 | an `Int` renders with a leading minus exactly when negative |
| Navigation.CreateRoute | app/src/main/java/com/example/stalcraft_companion_compose/Navigation.kt:6-6 | the route is `item_detail/` followed by the decimal id |
| Navigation.CreateRouteFillsPlaceholder | app/src/main/java/com/example/stalcraft_companion_compose/Navigation.kt:5-6 | the route equals the detail route with `{itemId}` replaced by the decimal id |
| Navigation.CreateRouteIsNotMain | app/src/main/java/com/example/stalcraft_companion_compose/Navigation.kt:4-6 | a detail route is never the main route `main` |
| Navigation.ParseNatDecimal | app/src/main/java/com/example/stalcraft_companion_compose/Navigation.kt:6-6 | reading the digits back gives the number |
| Navigation.RouteArgumentRoundTrip | app/src/main/java/com/example/stalcraft_companion_compose/Navigation.kt:5-6 | the id read back from a created route is the id it was created from |
| Navigation.CreateRouteInjective | app/src/main/java/com/example/stalcraft_companion_compose/Navigation.kt:6-6 | different ids give different routes |

## Left out

- Network calls, connectivity and stored preferences are inputs, not code. The item listing, each item fetch, the repository info, the remote timestamp, the network flag and the view model's check answer are parameters. The stored timestamp is the field `lastUpdate`, given to the repository's constructor as the value `Prefs` holds at launch.
- Coroutines, `LiveData`/`StateFlow` observation and `withContext` are left out; each operation is one sequential state change.
- ViewModel.ItemViewModel.PerformUpdate: states only the state after the refresh has ended. The `isLoading = true` that observers see while it runs is not a state of a sequential model.
- ViewModel.ItemViewModel.CollectItems: takes one snapshot of the table instead of following the table's stream. The "Ошибка загрузки" error for a failing stream is not modelled, because reading the model's table cannot fail.
- Dao.ItemDao.GetAllItems: leaves the order of the rows open, because the query has no ORDER BY. The result is a list, not a stream.
- InfoBlockDecoder.RequiredFloat: rejects a JSON string holding a number. Gson would parse it with `Float.parseFloat`, which is not modelled.
- Floating-point values are never computed with: damage, range and numeric values are kept as their literal text. Their `toString` in the renderers and the progress percentage are not modelled.
- StringOrder.LexLess: compares Unicode code points. Kotlin compares UTF-16 code units, and the two orders differ only when characters outside the Basic Multilingual Plane are involved.
- ItemDetailScreen.ParseColour: accepts only `#` followed by 6 or 8 ASCII hex digits (`0-9`, `a-f`, `A-F`). The platform reads the digits with `Long.parseLong(…, 16)`, which also accepts a sign after `#`. Through `Character.digit` it also accepts non-ASCII decimal digits (Arabic-Indic digits, say) and the fullwidth letters `Ａ`-`Ｆ`. For such a `valueColor` in night mode the model reports an unparsable colour where the app shows one.
- The info-block model classes are not part of this model's sources. Their fields are rebuilt from the decoder's constructor calls. Nullability follows what the renderers dereference: a null given to a non-null parameter is a decode error. The `type` property of a block is taken to be its variant's fixed tag (`Models.TypeTag`). So the casts after the type dispatch cannot fail, and the "no branch matches" case of the renderer's dispatch cannot arise.
- The error texts of the thrown exceptions are not modelled. `UnknownType` carries the tag, `Malformed` the member's key.
- Layout, styling, images (`iconPath`), the status card (`item.status.state`), the top bar, animations and the other language lines of a translation are not modelled.
- The date formatting in `getLastUpdateInfo` and `isNetworkAvailable` are left out. The database singleton, the type converters, the Gson provider and `MainActivity` are not part of this model.
- `Navigation.RouteArgument` reads an id back from a route, as the navigation host does. It is a reference partner for `createRoute`, not code of the app.
- The log and `println` calls are left out.

## Findings

| source | as written | input that shows it | evidently intended | confidence | as-written member | corrected member |
|---|---|---|---|---|---|---|
| app/src/main/java/com/example/stalcraft_companion_compose/ItemDetailScreen.kt:451 | a text block's title is shown as `toString()` of its `stringify`, so a missing Russian line becomes the text "null" | a text block whose title is a translation without `ru` | "" for a missing line, as every other renderer shows an absent string (`?: ""` at :455 and :310-357) | medium, not executed | ItemDetailScreen.TitleTextAsWritten (ItemDetailScreen.UntranslatedTitleShowsNull, ItemDetailScreen.UntranslatedTitleOnScreen) | ItemDetailScreen.TitleText (ItemDetailScreen.TitleTextLikeOtherTexts) |
