/** The language store's key tests as src/SnippetNodeProvider.js writes
    them. A snippet document is a plain object, and `data[key]` on a plain
    object also finds the names it inherits from `Object.prototype`: for
    those, `if (data[key])` holds (the value is a built-in function) while
    the document has no such entry. The rest of the model reads
    `data[key]` as "an own key of the document" (`Records.Get`); this
    module keeps the code as written beside it and shows where the two part. */
module PrototypeKeys {
  import opened Records
  import opened Files
  import L = LanguageStore

  /** The names every plain object inherits from `Object.prototype`, all of
      them functions, so all of them truthy. (`__proto__` is left to the
      ordinary keys: on a document parsed from JSON it is an own key.) */
  const Inherited: set<string> := {
    "constructor", "hasOwnProperty", "isPrototypeOf", "propertyIsEnumerable",
    "toLocaleString", "toString", "valueOf",
    "__defineGetter__", "__defineSetter__", "__lookupGetter__", "__lookupSetter__"
  }

  /** `if (cache.data[key])` as written: an own key, or an inherited name. */
  predicate Present(d: Document, key: string) {
    key in Keys(d) || key in Inherited
  }

  /** The upsert of `saveSnippet` as written: for an inherited name that is
      not an own key, `Object.assign` merges the snippet into the built-in
      function and `delete ….description` deletes from it; the document
      gains no entry. */
  function SaveDataAsWritten(d: Document, key: string, patch: Patch): (r: Document)
    ensures key in Inherited && key !in Keys(d) ==> r == d
    ensures !(key in Inherited && key !in Keys(d)) ==> r == SaveData(d, key, patch)
  {
    if key in Inherited && key !in Keys(d) then d else SaveData(d, key, patch)
  }

  /** `saveSnippet` as written: `LanguageStore.SaveEffect` with the upsert
      above. The listing is still searched by label, so a new inherited
      name is pushed onto it. */
  function SaveEffectAsWritten(s: L.State, dir: string, json: JsonCodec, lang: string, key: string,
                               patch: Patch, now: int): L.Effect {
    var path := L.SnippetPath(dir, lang);
    var l := L.Load(s.caches, s.files, path, lang, json.parse);
    match l
    case Unreadable => L.Effect(Crashed, s)
    case Got(c, stored) =>
      if !Acceptable(patch) then L.Effect(Skipped, L.State(L.Commit(s.caches, lang, l), s.files))
      else
        var d := SaveDataAsWritten(c.data, key, patch);
        var c' := L.Cache(now, d, SaveListing(c.list, key, PatchField(patch, "description")));
        L.Effect(Done, L.State(L.Keep(s.caches, lang, c', stored), s.files[path := FileEntry(json.stringify(d), now)]))
  }

  /** `onDrop` as written: the overwrite question is asked whenever
      `cache.data[key]` is truthy, and the save is the one above. */
  function DropEffectAsWritten(s: L.State, dir: string, json: JsonCodec, target: Option<L.Node>, data: Record,
                               confirmed: bool, now: int): L.Effect {
    match target
    case None => L.Effect(Crashed, s)
    case Some(t) =>
      var lang := L.TargetLanguage(t);
      if LooseEquals(lang, Field(data, "languageId")) then L.Effect(Skipped, s)
      else
        var l := L.Load(s.caches, s.files, L.SnippetPath(dir, lang), lang, json.parse);
        match l
        case Unreadable => L.Effect(Crashed, s)
        case Got(c, stored) =>
          var s1 := L.State(L.Commit(s.caches, lang, l), s.files);
          var key := PropertyKey(Field(data, "key"));
          if Present(c.data, key) && !confirmed then L.Effect(Skipped, s1)
          else SaveEffectAsWritten(s1, dir, json, lang, key, L.DropPatch(data), now)
  }

  /** For a key that is not an inherited name, the save as written is the
      model the other modules use. */
  lemma SaveAsWrittenAgrees(s: L.State, dir: string, json: JsonCodec, lang: string, key: string, patch: Patch, now: int)
    requires key !in Inherited
    ensures SaveEffectAsWritten(s, dir, json, lang, key, patch, now) == L.SaveEffect(s, dir, json, lang, key, patch, now)
  {
  }

  /** So is the drop of a snippet whose key is not an inherited name. */
  lemma DropAsWrittenAgrees(s: L.State, dir: string, json: JsonCodec, target: Option<L.Node>, data: Record,
                            confirmed: bool, now: int)
    requires PropertyKey(Field(data, "key")) !in Inherited
    ensures DropEffectAsWritten(s, dir, json, target, data, confirmed, now) == L.DropEffect(s, dir, json, target, data, confirmed, now)
  {
    if target.Some? {
      var lang := L.TargetLanguage(target.value);
      var l := L.Load(s.caches, s.files, L.SnippetPath(dir, lang), lang, json.parse);
      var s1 := L.State(L.Commit(s.caches, lang, l), s.files);
      SaveAsWrittenAgrees(s1, dir, json, lang, PropertyKey(Field(data, "key")), L.DropPatch(data), now);
    }
  }

  /** The listing gains a label for a key the document lacks. */
  lemma ListingGainsLabel(d: Document, list: seq<Item>, key: string, desc: Option<Value>)
    requires Consistent(d, list) && key !in Keys(d)
    ensures key in Labels(SaveListing(list, key, desc))
    ensures !Consistent(d, SaveListing(list, key, desc))
  {
    var item := Item(key, desc, key);
    assert key !in multiset(Keys(d));
    assert key !in Labels(list) by {
      assert key !in multiset(Labels(list));
    }
    var r := SaveListing(list, key, desc);
    LabelsPermutation(r, list + [item]);
    LabelsAppend(list, [item]);
    assert Labels([item]) == [key];
    assert key in multiset(Labels(list + [item]));
    assert key in multiset(Labels(r));
  }

  /** Saving a new snippet under an inherited name, as written, reports
      success and rewrites the file with the document unchanged, while a
      kept listing gains the name: listing and document disagree, and the
      snippet is nowhere. `LanguageStore.SavePersists` is the intended
      behaviour: the saved record is in the document read back. */
  lemma InheritedSaveLost(s: L.State, dir: string, json: JsonCodec, lang: string, key: string, patch: Patch, now: int)
    requires L.Listed(s.caches)
    requires key in Inherited && Acceptable(patch)
    requires var l := L.Load(s.caches, s.files, L.SnippetPath(dir, lang), lang, json.parse);
      l.Got? && key !in Keys(l.cache.data)
    ensures var path := L.SnippetPath(dir, lang);
      var l := L.Load(s.caches, s.files, path, lang, json.parse);
      var e := SaveEffectAsWritten(s, dir, json, lang, key, patch, now);
      && e.outcome == Done
      && e.after.files[path].text == json.stringify(l.cache.data)
      && (l.stored ==> key in Labels(e.after.caches[lang].list) && key !in Keys(e.after.caches[lang].data)
                       && !Consistent(e.after.caches[lang].data, e.after.caches[lang].list))
  {
    var l := L.Load(s.caches, s.files, L.SnippetPath(dir, lang), lang, json.parse);
    L.LoadListed(s.caches, s.files, L.SnippetPath(dir, lang), lang, json.parse);
    ListingGainsLabel(l.cache.data, l.cache.list, key, PatchField(patch, "description"));
  }

  /** Dragging a snippet named by an inherited name onto a language that
      does not have it: as written, the user is asked to overwrite a
      snippet that does not exist; declined, nothing is copied, and
      confirmed, the drop reports success (so the drag deletes the source)
      while the target's file keeps its old document. The intended
      `LanguageStore.DropEffect` asks nothing and saves the snippet. */
  lemma InheritedDropLost(s: L.State, dir: string, json: JsonCodec, n: L.Node, data: Record, now: int)
    requires L.Listed(s.caches)
    requires var lang := L.TargetLanguage(n);
      var l := L.Load(s.caches, s.files, L.SnippetPath(dir, lang), lang, json.parse);
      && !LooseEquals(lang, Field(data, "languageId"))
      && l.Got? && PropertyKey(Field(data, "key")) in Inherited
      && PropertyKey(Field(data, "key")) !in Keys(l.cache.data)
      && Acceptable(L.DropPatch(data))
    ensures DropEffectAsWritten(s, dir, json, Some(n), data, false, now).outcome == Skipped
    ensures var lang := L.TargetLanguage(n);
      var path := L.SnippetPath(dir, lang);
      var l := L.Load(s.caches, s.files, path, lang, json.parse);
      var e := DropEffectAsWritten(s, dir, json, Some(n), data, true, now);
      && e.outcome == Done
      && e.after.files[path].text == json.stringify(l.cache.data)
    ensures var lang := L.TargetLanguage(n);
      var path := L.SnippetPath(dir, lang);
      var l := L.Load(s.caches, s.files, path, lang, json.parse);
      var e := L.DropEffect(s, dir, json, Some(n), data, false, now);
      && e.outcome == Done
      && e.after.files[path].text == json.stringify(SaveData(l.cache.data, PropertyKey(Field(data, "key")), L.DropPatch(data)))
  {
    var lang := L.TargetLanguage(n);
    var path := L.SnippetPath(dir, lang);
    var l := L.Load(s.caches, s.files, path, lang, json.parse);
    var s1 := L.State(L.Commit(s.caches, lang, l), s.files);
    var key := PropertyKey(Field(data, "key"));
    L.LoadSettles(s.caches, s.files, path, lang, json.parse);
    assert L.Load(s1.caches, s1.files, path, lang, json.parse) == l;
  }
}
