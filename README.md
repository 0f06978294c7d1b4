# easy-snippet, modelled in Dafny

This project models the core of the VS Code extension *easy-snippet*. The
extension manages two kinds of snippets:

- **Language snippets.** One `<languageId>.json` file per language in the
  user's snippets directory. They are cached per language with a
  modification-time stamp and shown as a sorted listing.
- **Scope snippets.** Any number of `*.code-snippets` files. Each file is one
  group, cached with its text, its parsed document and its sorted children.

A snippet is edited as a text document. Its metadata is written as
comment-prefixed `@field` lines and its body follows. Saving that temporary
file parses the text back and stores the snippet. Snippets can be dragged
between and within the two trees. A drag is a copy into the target followed
by a forced delete at the source.

## Modules

- `Strings`: string helpers used by the source: `split`/`join`, `trim`, the
  `\s` and `\w` prefixes, ASCII `toLowerCase`, and the lexicographic
  order on strings that sorting uses.
- `Sorting`: `Array.prototype.sort` with a label comparator, as insertion
  sort.
- `Records`: the data model.
  - A snippet record is a map from field names to a string or a list of
    strings.
  - A patch is a record whose properties may be `undefined`.
  - A document is a sequence of `(key, record)` pairs with distinct keys, in
    JavaScript insertion order.
  - A listing is a sequence of tree items.
  - Also here: the upsert, delete and rename steps both stores share, with
    their listing invariants.
- `Files`: the file system as a `Disk` class holding a map from path to
  `(text, mtime)`. The comment-json codec is a `JsonCodec` parameter that
  parses back what it serialises.
- `Codec`: `snippet2text` and `text2snippet`.
  - As functions (`Encode`, `Decode`).
  - As methods with the source's loops (`Snippet2Text`, `Text2Snippet`),
    proved equal to them.
- `CodecLaws`: the round trip `text2snippet(snippet2text(s, L), L)`.
- `Utils`: the de-indent of `getSelectedText`, the ordering of
  `getLanguages`, and the `readJson`/`clearCaches` stamp cache.
- `LanguageStore`: the language tree provider as a class over its `caches`
  map.
  - Every operation is specified by a function from the state before (caches
    and files) to an effect: what it reports and the state after.
  - Lemmas about those functions give the listed properties.
- `ScopeStore`: the same for the scope tree provider, over its sequence of
  groups.
- `PrototypeKeys`: the language store's save and drop with the key test
  `data[key]` as written. It also finds the names a plain object inherits,
  and the module shows where that parts from the own-key reading.
- `DragAndDrop`: `handleDrop` over both stores and the disk, and
  `handleDrag`.
- `Extension`: the save handler's routing by suffix and file name, the
  temporary file names it inverts, and `deactivate`.

Interaction with the user is modelled as arguments:

- `confirm` is a boolean.
- An input box is the string it returned.
- A picker is the item already chosen.
- A picker that would open during a drag is taken as dismissed.

The clock is a `now` argument. `getLineComment`, the `lintDisableHeader`
setting, base64, md5 and comment-json are also parameters.

## Model

| member | source | states |
|---|---|---|
| Strings.Split | common/utils.js:64 | `split` on one character never yields an empty list, and no part holds the separator |
| Strings.SplitJoin | common/utils.js:71 | splitting joined separator-free parts gives the parts back |
| Strings.JoinSplit | common/utils.js:64-71 | joining the parts of a split gives the string back |
| Strings.Trim | common/utils.js:194 | `trim` is `s` with exactly its leading and trailing white space removed and the middle kept: the result is the slice after the leading white space, only white space follows it, it neither starts nor ends with white space, and it is empty exactly when `s` is all white space |
| Strings.LeadingSpaces | common/utils.js:67 | the length of the `^\s*` match: every character before it is white space and the next is not |
| Strings.WordPrefix | common/utils.js:212 | the length of the `\w*` match, maximal in the same way |
| Strings.Replace | src/SnippetNodeProvider.js:296 | every occurrence of the character is replaced in its position, and every other character is kept |
| Strings.Lower | extension.js:70 | lowercasing keeps the length, leaves no upper-case ASCII letter and keeps every other character |
| Strings.LexLeTotal | src/SnippetNodeProvider.js:43 | the label comparison orders any two labels |
| Strings.LexLeTransitive | src/SnippetNodeProvider.js:43 | the label comparison is transitive |
| Strings.LexLeAntisymmetric | src/SnippetNodeProvider.js:43 | labels that each sort no later than the other are equal |
| Sorting.SortBy | src/SnippetNodeProvider.js:43 | the sorted listing is a permutation of the input in ascending label order |
| Sorting.Insert | src/SnippetNodeProvider.js:344 | inserting into a sorted listing keeps it sorted and adds exactly that element |
| Records.Lift | src/SnippetNodeProvider.js:315 | a record seen as a patch defines exactly the record's properties with their values |
| Records.Merge | src/SnippetNodeProvider.js:326 | `Object.assign`: defined patch properties win, `undefined` ones disappear, others keep the record's value |
| Records.Get | src/SnippetNodeProvider.js:68 | looking up a key finds its record exactly when the key is an own key of the document (the intended reading of `data[key]`; see Findings) |
| Records.Put | src/SnippetNodeProvider.js:326-327 | the key then maps to the new record, other keys keep theirs, and a new key is appended last |
| Records.Delete | src/SnippetNodeProvider.js:246 | the key is gone, every other key keeps its record, and the key list is the old one with that key removed, the rest in their order |
| Records.Rename | src/SnippetNodeProvider.js:269-270 | the new key holds the old key's record, the old key is gone, every other key keeps its record; the key list loses the old key in place and gains the new key last when it was not there before |
| Records.KeyCount | src/SnippetNodeProvider.js:31-42 | in a document every key occurs at most once |
| Records.Entries | src/SnippetNodeProvider.js:31-42 | one tree item per document key, in key order, each opening its own key |
| Records.ListingOf | src/SnippetNodeProvider.js:30-43 | a (re)loaded listing has one entry per key, sorted by label |
| Records.BuildListing | src/SnippetNodeProvider.js:30-43 | the listing loop and sort build exactly `ListingOf` of the document |
| Records.LabelsPermutation | src/SnippetNodeProvider.js:43 | reordering a listing reorders its labels as a multiset |
| Records.TargetedPermutation | src/SnippetNodeProvider.js:43 | reordering a listing keeps every entry's command pointing at its own label |
| Records.FindLabel | src/SnippetNodeProvider.js:330 | `find` by label returns the first index with that label, or none when no entry has it |
| Records.Without | src/SnippetNodeProvider.js:248 | `filter` leaves no entry with the label and never adds one |
| Records.WithoutLabels | src/SnippetNodeProvider.js:248 | filtering removes every occurrence of the label from the label multiset and nothing else |
| Records.WithoutSorted | src/SnippetNodeProvider.js:248 | filtering a sorted listing leaves it sorted |
| Records.Relabel | src/SnippetNodeProvider.js:271-275 | the first entry labelled `o` gets label and command key `n` in place; other entries are unchanged |
| Records.RelabelLabels | src/SnippetNodeProvider.js:271-275 | relabelling trades one `o` for one `n` in the label multiset |
| Records.Describe | src/SnippetNodeProvider.js:330-331 | only the description of the entry with that label changes |
| Records.SaveRecord | src/SnippetNodeProvider.js:326-328 | the saved record is the merge of the patch over the existing record, without a falsy description |
| Records.SaveData | src/SnippetNodeProvider.js:326-328 | the key holds the saved record afterwards, and every other key is as before |
| Records.SaveListing | src/SnippetNodeProvider.js:330-345 | saving an existing key keeps every label; a new key adds exactly its entry and leaves the listing sorted |
| Records.SaveKeepsConsistent | src/SnippetNodeProvider.js:326-345 | after a save the listing still has one entry per key, and a sorted listing stays sorted |
| Records.SaveExistingConsistent | src/SnippetNodeProvider.js:330-331 | saving an existing key changes no label |
| Records.SaveNewConsistent | src/SnippetNodeProvider.js:332-345 | saving a new key adds exactly its entry |
| Records.DeleteKeepsConsistent | src/SnippetNodeProvider.js:246-248 | deleting a key removes exactly its entry, keeping one entry per key |
| Records.RenameListing | src/SnippetNodeProvider.js:264-275 | the listing after a rename never grows; `RenameKeepsConsistent` states what it lists |
| Records.OverwriteStep | src/SnippetNodeProvider.js:264-266 | dropping an overwritten target's entry leaves one entry per remaining key |
| Records.RenameKeepsConsistent | src/SnippetNodeProvider.js:264-275 | after a rename the listing still has one entry per key |
| Files.Disk.Write | src/SnippetNodeProvider.js:329 | writing sets the file's text and stamps it with the current time; no other file changes |
| Files.Disk.Unlink | src/SnippetScopeNodeProvider.js:248 | unlinking fails exactly when the file is missing; afterwards the file is gone and no other file changes |
| Codec.LineComment | common/utils.js:129-131 | the comment token is never empty; it is "//" when none is configured |
| Codec.EffectiveLanguage | common/utils.js:157 | a given language is used as is; with none, the first scope is used; a list-valued scope throws |
| Codec.EmittedFieldsShape | common/utils.js:160-162 | `filepath` and `key` are written iff truthy, `scope` iff one of them is, `prefix` and `description` always and last, with no field twice |
| Codec.Pad | common/utils.js:170 | a continuation marker is as long as `@name` |
| Codec.MarkedLines | common/utils.js:166-171 | one line per item: the comment token, a space, then `@name` for the first item or as many spaces for the others, a space, and the item |
| Codec.Encode | common/utils.js:156-181 | `snippet2text` throws exactly when no language can be determined |
| Codec.WriteElement | common/utils.js:167-171 | the inner loop writes one terminated line per line of the element |
| Codec.WriteField | common/utils.js:165-172 | the element loop writes the lines of every element of the field in order |
| Codec.WriteMeta | common/utils.js:163-173 | the field loop writes the lines of every emitted field in order |
| Codec.Snippet2Text | common/utils.js:156-181 | the loop-by-loop `snippet2text` computes `Encode` |
| Codec.HeaderSet | common/utils.js:192-196 | the dropped headers are exactly the non-empty trimmed header values |
| Codec.DropHeaders | common/utils.js:198 | every kept line comes from the input, and none trims to a header |
| Codec.BlockEnd | common/utils.js:200-207 | the metadata block is the longest prefix of lines starting with the comment token |
| Codec.LeadingEmpty | common/utils.js:203 | the `shift` loop removes exactly the leading empty lines |
| Codec.Marker | common/utils.js:212 | a `@word` match names a non-empty field and lies within the line |
| Codec.Accumulate | common/utils.js:216-218 | the first occurrence of a field, or one over an empty string, stores the value; a repeat on a list appends; a repeat on a non-empty string makes the two-element list of the old and the new value |
| Codec.Decode | common/utils.js:188-228 | `text2snippet` always sets `body` |
| Codec.SplitBody | common/utils.js:199-207 | the block search returns the metadata lines, and the following lines without leading empty ones as the body ("" when none follow) |
| Codec.ParseLine | common/utils.js:210-224 | one pass of the metadata loop is one step of the `Decode` fold |
| Codec.ParseBlock | common/utils.js:208-225 | the metadata loop computes the fold of `Decode` |
| Codec.Text2Snippet | common/utils.js:188-228 | the loop-by-loop `text2snippet` computes `Decode` |
| CodecLaws.RoundTrip | common/utils.js:156-228 | for safe records, decoding the encoding gives back every written field, with one-element lists as strings, missing fields as "" and the body lines |
| CodecLaws.ExpectedField | common/utils.js:164-165 | a written field comes back as itself, "" when missing, and not at all when it is an empty list |
| CodecLaws.HeaderDropped | common/utils.js:176 | the configured header line written by `snippet2text` is dropped when read |
| CodecLaws.SplitTerminated | common/utils.js:198 | lines each written with a newline split back into those lines plus one empty one |
| CodecLaws.MarkerFirst | common/utils.js:212-218 | the first written line of an element opens its field, and its value starts after the marker |
| CodecLaws.MarkerPadded | common/utils.js:219-220 | a padded continuation line opens no field and loses exactly its padding |
| CodecLaws.FoldField | common/utils.js:210-224 | reading the lines written for one field gives the field back, collapsed |
| CodecLaws.FoldMeta | common/utils.js:208-225 | reading the whole metadata block gives back every written field |
| CodecLaws.TextLines | common/utils.js:174-179 | the lines `text2snippet` keeps are the metadata lines, the separator and the body lines |
| Utils.MinIndent | common/utils.js:65-69 | the minimum indentation is at most every line's and equal to some line's |
| Utils.Dedented | common/utils.js:71 | every line loses exactly its first `m` characters; the line count is kept |
| Utils.SelectedText | common/utils.js:60-74 | the loop computes the de-indented selection, and "" without an editor |
| Utils.DedentShape | common/utils.js:64-72 | de-indenting keeps the line count, removes only white space, and leaves some line unindented |
| Utils.Distinct | common/utils.js:142 | `new Set` keeps every element exactly once |
| Utils.Remove | common/utils.js:145 | `set.delete` removes exactly that element |
| Utils.LanguageSet | common/utils.js:142-143 | the set holds every language once, plus "vue-html" when "vue" is present |
| Utils.OtherLanguages | common/utils.js:145-147 | the languages other than a truthy current one, once each, sorted |
| Utils.Languages | common/utils.js:139-154 | one picker item per language in order, tagged exactly when it is the current language |
| Utils.LanguagesListed | common/utils.js:139-154 | no language is listed twice, and exactly the known, additional, "vue-html" and current ones are listed |
| Utils.OrderShape | common/utils.js:145-148 | a truthy current language comes first and only there, and the rest is sorted |
| Utils.LanguagesOrdered | common/utils.js:148-152 | the first item is the tagged current language, no later item is tagged, and the rest ascend |
| Utils.ReadJsonSettles | common/utils.js:49-58 | a second read of an unchanged file hits the cache; a stale or missing entry re-evaluates the file's text |
| Utils.JsonCache.constructor | common/utils.js:44 | the cache starts empty |
| Utils.JsonCache.Read | common/utils.js:49-58 | `readJson` returns and caches what the stamp rule specifies |
| Utils.JsonCache.Clear | common/utils.js:45-47 | `clearCaches` empties the cache |
| LanguageStore.Payload | src/SnippetNodeProvider.js:54-60 | the drag payload keeps every other field of the record and sets `scope` and `languageId` to the language, `key` to the key and `type` to "snippetExplorer" |
| LanguageStore.LanguageStore.constructor | src/SnippetNodeProvider.js:9-15 | a new store has no cache entries |
| LanguageStore.LanguageStore.GetSnippets | src/SnippetNodeProvider.js:17-48 | returns and keeps what `Load` specifies; every listing stays one entry per key |
| LanguageStore.LanguageStore.SaveSnippet | src/SnippetNodeProvider.js:314-352 | the outcome, caches and files are those of `SaveEffect` |
| LanguageStore.LanguageStore.DeleteSnippet | src/SnippetNodeProvider.js:235-251 | the outcome, caches and files are those of `DeleteEffect` |
| LanguageStore.LanguageStore.RenameSnippet | src/SnippetNodeProvider.js:255-280 | the outcome, caches and files are those of `RenameEffect` |
| LanguageStore.LanguageStore.OnDrop | src/SnippetNodeProvider.js:63-81 | the outcome, caches and files are those of `DropEffect` |
| LanguageStore.LanguageStore.DeleteDropped | src/SnippetNodeProvider.js:160-179 | the forced delete of a payload is that of `DeleteDroppedEffect` |
| LanguageStore.LanguageStore.GetDragData | src/SnippetNodeProvider.js:50-61 | a group gives no payload; a snippet gives its record, tagged with where it came from |
| LanguageStore.KeepListed | src/SnippetNodeProvider.js:47 | keeping an entry that lists its document keeps every listing one entry per key |
| LanguageStore.LoadListed | src/SnippetNodeProvider.js:26-47 | a loaded entry lists one entry per key, a kept one is stamped no earlier than the file, and a freshly read one is sorted |
| LanguageStore.LoadSettles | src/SnippetNodeProvider.js:25-26 | once kept, an entry is returned again without reading the file |
| LanguageStore.SaveKeepsListed | src/SnippetNodeProvider.js:326-345 | saving keeps every cached listing one entry per key |
| LanguageStore.DeleteKeepsListed | src/SnippetNodeProvider.js:243-250 | deleting keeps every cached listing one entry per key |
| LanguageStore.RenameKeepsListed | src/SnippetNodeProvider.js:258-277 | renaming keeps every cached listing one entry per key |
| LanguageStore.DropKeepsListed | src/SnippetNodeProvider.js:63-81 | a drop keeps every cached listing one entry per key |
| LanguageStore.SaveRefused | src/SnippetNodeProvider.js:318-325 | a missing prefix or empty body writes nothing and changes no document |
| LanguageStore.Persist | src/SnippetNodeProvider.js:346 | after a write at time `now`, the next load gives back the written document |
| LanguageStore.SavePersists | src/SnippetNodeProvider.js:326-329 | after a save the document holds the merged record under the key and every other key as before |
| LanguageStore.DeletePersists | src/SnippetNodeProvider.js:243-249 | an absent key changes nothing; after a delete the key is gone and every other record stays |
| LanguageStore.RenamePersists | src/SnippetNodeProvider.js:258-277 | an empty or same name, or a declined overwrite, changes nothing; otherwise the record moves unchanged to the new name |
| LanguageStore.DropRecord | src/SnippetNodeProvider.js:64-79 | the saved record takes prefix, body and description from the payload |
| LanguageStore.DropIsSave | src/SnippetNodeProvider.js:71-80 | past its guards a drop is the save of those three fields |
| LanguageStore.DropCopies | src/SnippetNodeProvider.js:63-81 | a drop onto the payload's own language changes nothing; a successful one copies the fields under the same key, overwriting only when confirmed |
| LanguageStore.DeleteDroppedRemoves | src/SnippetNodeProvider.js:235-247 | a payload naming no language or snippet changes nothing; a successful delete removes the named key |
| LanguageStore.SnippetPathInjective | src/SnippetNodeProvider.js:146-148 | different languages have different files |
| LanguageStore.SaveTouchesOwn | src/SnippetNodeProvider.js:314-346 | a save changes only its own language's cache entry and file |
| LanguageStore.DeleteTouchesOwn | src/SnippetNodeProvider.js:243-249 | a delete changes only its own language's cache entry and file |
| LanguageStore.DropTouchesOwn | src/SnippetNodeProvider.js:63-81 | a drop changes only the target language's cache entry and file |
| LanguageStore.LoadUntouched | src/SnippetNodeProvider.js:17-47 | another language loads the same after a step that touches only one language |
| PrototypeKeys.SaveDataAsWritten | src/SnippetNodeProvider.js:326-328 | as written, saving under an inherited name the document lacks leaves the document as it was; every other key gets the intended upsert |
| PrototypeKeys.SaveAsWrittenAgrees | src/SnippetNodeProvider.js:326-328 | for a key that is not an inherited name, the save as written is exactly `LanguageStore.SaveEffect` |
| PrototypeKeys.DropAsWrittenAgrees | src/SnippetNodeProvider.js:63-81 | for a payload key that is not an inherited name, the drop as written is exactly `LanguageStore.DropEffect` |
| PrototypeKeys.ListingGainsLabel | src/SnippetNodeProvider.js:330-345 | saving a key the document lacks adds it to the listing, so if the document still lacks it the two disagree |
| PrototypeKeys.InheritedSaveLost | src/SnippetNodeProvider.js:314-346 | as written, saving a new snippet under an inherited name reports success, rewrites the old document, and leaves a kept listing naming a key the document lacks |
| PrototypeKeys.InheritedDropLost | src/SnippetNodeProvider.js:63-81 | as written, dropping a snippet with an inherited name onto a language without it asks to overwrite; declined, nothing is copied; confirmed, the drop reports success while the file keeps the old document. The intended drop asks nothing and writes the saved document |
| ScopeStore.IndexOf | src/SnippetScopeNodeProvider.js:27 | `find` by filepath gives the first group with that path, or none |
| ScopeStore.Pushed | src/SnippetScopeNodeProvider.js:27-38 | afterwards a group has the path, and the existing groups keep their places |
| ScopeStore.FindEffect | src/SnippetScopeNodeProvider.js:168-173 | a returned index points at a group with that path |
| ScopeStore.Rest | src/SnippetScopeNodeProvider.js:350 | the rest holds every field of the snippet except `filepath` and `key` |
| ScopeStore.Unlisted | src/SnippetScopeNodeProvider.js:249 | `filter` removes exactly the groups with that path |
| ScopeStore.Payload | src/SnippetScopeNodeProvider.js:64-69 | the drag payload is the record with `key`, `filepath` and `type` "snippetScopeExplorer" set |
| ScopeStore.ScopeStore.constructor | src/SnippetScopeNodeProvider.js:9-16 | a new store has no groups |
| ScopeStore.ScopeStore.OpenFile | src/SnippetScopeNodeProvider.js:18-60 | the groups after opening are those of `OpenEffect`, and stay valid |
| ScopeStore.ScopeStore.FindGroup | src/SnippetScopeNodeProvider.js:168-173 | the index and groups are those of `FindEffect` |
| ScopeStore.ScopeStore.SaveSnippet | src/SnippetScopeNodeProvider.js:349-401 | the outcome, groups and files are those of `SaveEffect` |
| ScopeStore.ScopeStore.DeleteSnippet | src/SnippetScopeNodeProvider.js:253-275 | the outcome, groups and files are those of `DeleteEffect` |
| ScopeStore.ScopeStore.RenameSnippet | src/SnippetScopeNodeProvider.js:277-308 | the outcome, groups and files are those of `RenameEffect` |
| ScopeStore.ScopeStore.DeleteGroup | src/SnippetScopeNodeProvider.js:241-251 | the outcome, groups and files are those of `DeleteGroupEffect` |
| ScopeStore.ScopeStore.OnDrop | src/SnippetScopeNodeProvider.js:72-90 | the outcome, groups and files are those of `DropEffect` |
| ScopeStore.ScopeStore.DeleteDropped | src/SnippetScopeNodeProvider.js:253-275 | the forced delete of a payload is that of `DeleteDroppedEffect` |
| ScopeStore.ScopeStore.DragData | src/SnippetScopeNodeProvider.js:62-70 | a group gives no payload; a child gives its record, tagged with its file, key and "snippetScopeExplorer" |
| ScopeStore.PushedValid | src/SnippetScopeNodeProvider.js:27-38 | pushing a group keeps one group per path |
| ScopeStore.OpenKeepsValid | src/SnippetScopeNodeProvider.js:18-60 | opening keeps one group per path, each with children listing its document and text agreeing with data |
| ScopeStore.FindKeepsValid | src/SnippetScopeNodeProvider.js:168-173 | finding a group keeps the groups valid |
| ScopeStore.RewrittenValid | src/SnippetScopeNodeProvider.js:271-273 | rewriting a group with its document's text and listing keeps the groups valid |
| ScopeStore.SaveKeepsValid | src/SnippetScopeNodeProvider.js:367-394 | saving keeps the groups valid |
| ScopeStore.DeleteKeepsValid | src/SnippetScopeNodeProvider.js:266-274 | deleting keeps the groups valid |
| ScopeStore.RenameKeepsValid | src/SnippetScopeNodeProvider.js:289-307 | renaming keeps the groups valid |
| ScopeStore.DeleteGroupKeepsValid | src/SnippetScopeNodeProvider.js:247-249 | deleting a group removes its file and only its group |
| ScopeStore.UnlistedValid | src/SnippetScopeNodeProvider.js:249 | filtering out a group keeps the others valid |
| ScopeStore.DropKeepsValid | src/SnippetScopeNodeProvider.js:72-90 | a drop keeps the groups valid |
| ScopeStore.DeleteDroppedKeepsValid | src/SnippetScopeNodeProvider.js:253-275 | removing a dropped snippet keeps the groups valid |
| ScopeStore.OpenLoads | src/SnippetScopeNodeProvider.js:19-58 | other paths are ignored; afterwards there is exactly one group for the file, showing its text's document unless the parse threw; unchanged text is not re-parsed |
| ScopeStore.SavePersists | src/SnippetScopeNodeProvider.js:367-374 | after a save the group holds the merged record under the key and every other key as before, and the file parses to it |
| ScopeStore.SaveSettles | src/SnippetScopeNodeProvider.js:372-374 | after a save, re-opening the file changes nothing |
| ScopeStore.ReopenSettles | src/SnippetScopeNodeProvider.js:39 | re-opening a file whose text is its group's text changes nothing |
| ScopeStore.SaveOutsideGroups | src/SnippetScopeNodeProvider.js:367-374 | a save to a path that is not `*.code-snippets` writes the file and then fails, leaving the groups unchanged |
| ScopeStore.DeletePersists | src/SnippetScopeNodeProvider.js:266-274 | a missing key writes nothing; after a delete the key is gone from the document and the children, and the file holds the document |
| ScopeStore.RenamePersists | src/SnippetScopeNodeProvider.js:289-305 | an empty or same name, or a declined overwrite, writes nothing; otherwise the record moves unchanged to the new name |
| ScopeStore.DropRecord | src/SnippetScopeNodeProvider.js:73-88 | the saved record takes prefix, body, scope and a non-empty description from the payload |
| ScopeStore.DropIsSave | src/SnippetScopeNodeProvider.js:74-89 | a successful drop saves its fields into the target's group, which is found without opening anything |
| ScopeStore.DropCopies | src/SnippetScopeNodeProvider.js:72-90 | a drop onto the payload's own file changes nothing; a successful one copies the fields under the same key, overwriting only when confirmed |
| ScopeStore.DropSaved | src/SnippetScopeNodeProvider.js:79-89 | the target group's document after a successful drop |
| ScopeStore.DeleteDroppedRemoves | src/SnippetScopeNodeProvider.js:253-272 | when removing a dropped snippet succeeds, its key is gone from the source group |
| ScopeStore.DeleteDroppedTouches | src/SnippetScopeNodeProvider.js:253-273 | removing a dropped snippet writes at most its own file, and nothing unless it succeeds |
| ScopeStore.ScopeAsWritten | src/SnippetScopeNodeProvider.js:219-225 | the scope as written: any substring of the JavaScript family gives the family, "vue" gives "vue,vue-html", no editor gives none |
| ScopeStore.NormalScope | src/SnippetScopeNodeProvider.js:219-225 | the intended scope: only the four JavaScript-like ids give the family, "vue" gives "vue,vue-html", and every other language is kept |
| ScopeStore.VueOutsideFamily | src/SnippetScopeNodeProvider.js:220-223 | "vue" is not a substring of the JavaScript family, so it reaches the vue branch |
| ScopeStore.ScopeAgrees | src/SnippetScopeNodeProvider.js:219-225 | both scopes agree on no editor, the four JavaScript ids and "vue" |
| ScopeStore.JavaScopedAsJavaScript | src/SnippetScopeNodeProvider.js:220-221 | in a Java editor the written scope is the JavaScript family while the intended one is "java" |
| DragAndDrop.Received | src/DragAndDropController.js:11-18 | a missing or empty item gives no payload; an object payload is taken as is |
| DragAndDrop.HandleDrop | src/DragAndDropController.js:10-25 | the two outcomes and the stores and files after are those of `DropEffect`; both stores stay valid |
| DragAndDrop.HandleLanguageDrag | src/DragAndDropController.js:27-34 | only the first node is dragged; a group or no node sets no payload; for a snippet node the language's document is loaded and committed to the caches, a parse failure throws, and otherwise the transfer is exactly `Payload` of the snippet's record |
| DragAndDrop.ScopeDrag | src/DragAndDropController.js:27-34 | a payload is set exactly for a snippet node, naming its file, key and store |
| DragAndDrop.NothingReceived | src/DragAndDropController.js:11-18 | without a payload, no store is called and nothing changes |
| DragAndDrop.DeleteFollowsCopy | src/DragAndDropController.js:20-22 | the delete runs only after a copy that returned `true` |
| DragAndDrop.DeleteGoesHome | src/DragAndDropController.js:21-22 | the delete goes to the store named by the payload's `type`, and the other store keeps what the copy left |
| DragAndDrop.DeclinedOverwrite | src/DragAndDropController.js:20 | a declined overwrite changes no document and deletes nothing |
| DragAndDrop.LanguageFileNotScoped | src/SnippetScopeNodeProvider.js:19 | a language snippet file is never a `*.code-snippets` file |
| DragAndDrop.LanguageToScope | src/DragAndDropController.js:10-25 | a completed move from a language into a group puts prefix and body under the key there and removes the snippet from its language |
| DragAndDrop.ScopeToLanguage | src/DragAndDropController.js:10-25 | a completed move from a group into a language puts prefix and body under the key there and removes the snippet from its group |
| DragAndDrop.LanguageToLanguage | src/DragAndDropController.js:10-25 | a completed move between two languages copies and then removes, between different languages |
| Extension.Basename | extension.js:76 | the base name holds no `/` |
| Extension.EditLanguage | src/SnippetScopeNodeProvider.js:323-324 | a list-valued scope throws (no language) and only it; otherwise the language holds no comma, and is "javascript" without a truthy scope |
| Extension.EditLanguageFirst | src/SnippetScopeNodeProvider.js:323-324 | a scope string `a,b,...` is edited in its first language `a` |
| Extension.LanguagePatch | extension.js:82 | the stored patch has every field of the parsed snippet except `languageId` and `key` |
| Extension.OnSave | extension.js:67-91 | the outcome, stores and files after a save are those of `SaveFileEffect` |
| Extension.Deactivate | extension.js:101-103 | deactivation empties the evaluated-JSON cache |
| Extension.BasenameJoin | extension.js:76 | the base name of `dir/b` is `b` |
| Extension.ReplaceBack | extension.js:79 | mapping `/` to `-` and back restores a string without `-` |
| Extension.SplitTwo | extension.js:77-78 | a name made of two dot-free parts splits into exactly those parts |
| Extension.StemOf | extension.js:86 | the base name of a temporary file, less its suffix |
| Extension.SuffixesDisjoint | extension.js:68-90 | no file name has two of the four suffixes, so at most one branch acts |
| Extension.SnippetTempRoutes | extension.js:75-80 | the save handler recovers the key and language from a language snippet's temporary file name, for every key |
| Extension.ScopeTempRoutes | extension.js:85-87 | a scope snippet's temporary file routes to a scope save in the language it was opened in |
| Extension.SavedTempFileStores | extension.js:75-83 | saving a snippet's temporary file leaves the groups alone, succeeds iff the language file loads, and stores every parsed field under the key |

## Left out

- The VS Code UI is not modelled: tree views, refresh events, messages,
  `tree.reveal`, showing documents and editor edits. Pickers, input boxes and
  `confirm` are arguments.
- `editSnippet` of both trees is not modelled beyond the temporary file name
  and editing language it produces. Writing that file and opening an editor
  are I/O.
- `addSnippet`, `addGroup`, `editGroup`, `search`, `refresh` and the
  workspace scan are left out, except for the scope normalisation of the
  scope tree's `addSnippet`. They are UI and directory I/O.
- Asynchrony is left out. Operations run one at a time, with no interleaving
  at `await` points and no external edits of files.
- The clock is a single `now` per operation. Stale stamps caused by clock
  skew are not modelled.
- Comment-json parse and stringify are a parameter that parses back what it
  serialises. `readJson`'s evaluation is a parameter. Base64 is a parameter
  that round-trips and never outputs `.` or `-`. md5 is the `tag` argument.
- `getLineComment` and the `lintDisableHeader` setting are maps passed in.
  Scanning installed extensions is left out.
- JavaScript key order: integer-like keys, which JavaScript enumerates
  first, are kept in insertion order. A `__proto__` key is an ordinary key.
- Records.Get: reads `data[key]` as "an own key of the document". In the
  source a plain object also answers the names it inherits from
  `Object.prototype` (`constructor`, `toString`, `valueOf`, ...). The
  language store's save and drop are also modelled as written, in
  `PrototypeKeys` (see Findings). The other key tests are modelled with own
  keys only. Here the source differs for an inherited name that is not an
  own key. A delete of such a name reports success and rewrites the
  unchanged document instead of doing nothing. A rename onto such a name
  asks a needless overwrite question. The scope store's save and drop
  (src/SnippetScopeNodeProvider.js:76, 369-371) lose the snippet the same
  way the language store's do.
- LanguageStore.SavePersists, LanguageStore.SaveKeepsListed,
  LanguageStore.DropCopies, ScopeStore.DropCopies,
  DragAndDrop.LanguageToLanguage and the other persistence and listing
  lemmas hold for the own-key reading. They hold for the code as written only for keys that are
  not inherited names (`PrototypeKeys.SaveAsWrittenAgrees`,
  `PrototypeKeys.DropAsWrittenAgrees`).
- Codec.Decode: a header `@constructor` (or another inherited name) finds
  a built-in function as the previous value, so the source stores a
  two-element list of that function and the text. The model stores the
  text, since a value here is a string or a list of strings.
- Records hold only strings and lists of strings. The source's records can
  also carry booleans and numbers, such as `isFileTemplate` in a
  `.code-snippets` file. Those fields are not modelled. Their truthiness and
  `join` behaviour are not captured.
- LanguageStore.SaveEffect: for a new key the source stores the snippet
  object itself, so `delete ….description` also removes the description
  from the object the caller passed in. The new tree item then shows no
  description rather than an empty one. The model's listing keeps the
  patch's (falsy) description. The difference is display only.
- Sorting is stable insertion sort. The source's comparator never returns
  0, so the order of equal labels may differ.
- Strings.LexLe: labels are ordered by Unicode code point, while
  JavaScript's `>` compares UTF-16 code units. The two orders differ only
  when a character above U+FFFF meets one in U+E000 to U+FFFF. For
  example, JavaScript puts "\u{1F600}" before "\uFFFF" because its lead
  surrogate is 0xD83D, and the model puts it after.
- `toLowerCase` is limited to ASCII letters.
- Paths are plain strings joined with `/`. There is no `path.join`
  normalisation, no Windows separator and no trailing-slash handling in
  `Extension.Basename`.
- A JSON file whose value is not an object is not modelled. Documents are
  objects of snippet records.
- Scope tree nodes refer to their group by file path. A node that keeps a
  stale group object after the group was replaced is not modelled.
- LanguageStore.DeleteDroppedEffect: when the payload names no snippet,
  the picker opens after the language's document was loaded. That load and
  its cache entry are not modelled; the step is a no-op.
- Codec.Decode: its own contract only says that `body` is set. What it
  computes is stated by `CodecLaws.RoundTrip` and by the loop methods proved
  equal to it.
- `text2snippet` on input that `snippet2text` cannot produce is modelled
  line by line but not characterised. This includes continuation lines
  before any marker and appending to a missing field, which creates the
  string "undefined…".
- An empty string and `undefined` are both falsy and are treated alike
  where the source tests truthiness.
- No lemma states a move between two scope groups. Its two halves are
  covered by `ScopeStore.DropCopies` and `ScopeStore.DeleteDroppedRemoves`.

## Findings

| source | as written | input that shows it | evidently intended | confidence | as-written member | corrected member |
|---|---|---|---|---|---|---|
| src/SnippetScopeNodeProvider.js:220 | the scope of a new scope snippet becomes the JavaScript family when the current language id is a substring of "javascript,typescript,javascriptreact,typescriptreact" | current language "java" (also "c", "r") | only the four JavaScript-like ids become the family; any other language keeps its own id | not executed | ScopeStore.JavaScopedAsJavaScript | ScopeStore.NormalScope |
| src/SnippetNodeProvider.js:326 | `cache.data[key]` also finds the names a plain object inherits. Saving a new snippet under such a name merges it into the built-in function, writes the document unchanged, and adds the name to the listing | save a snippet with key "constructor" into a language that has none | the test means "the document has this snippet" (an own-property test), so the snippet is stored under its key | not executed | PrototypeKeys.InheritedSaveLost | LanguageStore.SavePersists |
| src/SnippetNodeProvider.js:68 | a drop asks to overwrite whenever `cache.data[key]` is truthy, and then saves as above. For an inherited name it asks about a snippet that is not there. Confirmed, it reports success, so `handleDrop` deletes the source (src/DragAndDropController.js:20-22) and the snippet is lost | drag a snippet with key "toString" onto another language | ask only when the target has the key, and copy the snippet there | not executed | PrototypeKeys.InheritedDropLost | LanguageStore.DropCopies |
