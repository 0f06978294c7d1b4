/** The language snippet store of src/SnippetNodeProvider.js: one snippet
    document per language (`<snippets dir>/<language>.json`), read through a
    per-language cache `{t, data, list}` whose stamp `t` is compared with the
    file's modification time.

    Each operation is specified by a function from the state before (the
    caches and the files) to an `Effect`: what the operation reports and the
    state after. The methods of `LanguageStore` do the work step by step and
    are proved equal to those functions; the lemmas at the end are about the
    functions. */
module LanguageStore {
  import opened Sorting
  import opened Records
  import opened Files

  /** A cache entry: stamp, document and sorted listing. */
  datatype Cache = Cache(t: int, data: Document, list: seq<Item>)

  /** What `getSnippets` returns: a cache entry, and whether it is (now) held
      in `this.caches`; `Unreadable` is a parse failure, which throws. */
  datatype Loaded = Unreadable | Got(cache: Cache, stored: bool)

  datatype State = State(caches: map<string, Cache>, files: map<string, FileEntry>)

  datatype Effect = Effect(outcome: Outcome, after: State)

  /** A node of the language tree: a language group, or a snippet of one. */
  datatype Node = GroupNode(name: string) | SnippetNode(languageId: string, name: string)

  /** `path.join(snippetsDir, languageId + ".json")`. */
  function SnippetPath(dir: string, lang: string): string {
    dir + "/" + lang + ".json"
  }

  /** Every cached listing has one entry per key of its document. */
  predicate Listed(caches: map<string, Cache>) {
    forall lang | lang in caches :: Consistent(caches[lang].data, caches[lang].list)
  }

  /** `getSnippets`: a missing file gives a fresh empty entry that is not
      kept; an entry stamped no earlier than the file is returned as is;
      otherwise the file is parsed and its listing rebuilt. */
  function Load(caches: map<string, Cache>, files: map<string, FileEntry>, path: string, lang: string,
                parse: string -> Option<Document>): Loaded
  {
    if path !in files then Got(Cache(0, [], []), false)
    else if lang in caches && caches[lang].t >= files[path].mtime then Got(caches[lang], true)
    else match parse(files[path].text)
      case None => Unreadable
      case Some(d) => Got(Cache(files[path].mtime, d, ListingOf(d)), true)
  }

  /** The caches once an entry is kept (`this.caches[languageId] = cache`)
      or not. */
  function Keep(caches: map<string, Cache>, lang: string, c: Cache, stored: bool): map<string, Cache> {
    if stored then caches[lang := c] else caches
  }

  /** Keeping an entry that lists its document keeps every listing. */
  lemma KeepListed(caches: map<string, Cache>, lang: string, c: Cache, stored: bool)
    requires Listed(caches) && Consistent(c.data, c.list)
    ensures Listed(Keep(caches, lang, c, stored))
  {
  }

  /** Keeping the entry already cached changes nothing. */
  lemma KeepCached(caches: map<string, Cache>, lang: string)
    requires lang in caches
    ensures Keep(caches, lang, caches[lang], true) == caches
  {
    assert caches[lang := caches[lang]] == caches;
  }

  function Commit(caches: map<string, Cache>, lang: string, l: Loaded): map<string, Cache> {
    if l.Got? then Keep(caches, lang, l.cache, l.stored) else caches
  }

  lemma KeepTwice(caches: map<string, Cache>, lang: string, a: Cache, b: Cache, stored: bool)
    ensures Keep(Keep(caches, lang, a, stored), lang, b, stored) == Keep(caches, lang, b, stored)
  {
    if stored {
      assert caches[lang := a][lang := b] == caches[lang := b];
    }
  }

  /** A save that goes ahead: the file and a kept entry get the merged
      document, and every listing stays consistent. */
  lemma SaveDone(s: State, dir: string, json: JsonCodec, lang: string, key: string, patch: Patch, now: int)
    requires Listed(s.caches)
    requires Load(s.caches, s.files, SnippetPath(dir, lang), lang, json.parse).Got? && Acceptable(patch)
    ensures var path := SnippetPath(dir, lang);
      var l := Load(s.caches, s.files, path, lang, json.parse);
      var d := SaveData(l.cache.data, key, patch);
      var c' := Cache(now, d, SaveListing(l.cache.list, key, PatchField(patch, "description")));
      var kept := Keep(s.caches, lang, c', l.stored);
      && SaveEffect(s, dir, json, lang, key, patch, now)
         == Effect(Done, State(kept, s.files[path := FileEntry(json.stringify(d), now)]))
      && Listed(kept)
      && kept == (if l.stored then Commit(s.caches, lang, l)[lang := c'] else Commit(s.caches, lang, l))
  {
    var l := Load(s.caches, s.files, SnippetPath(dir, lang), lang, json.parse);
    var c' := Cache(now, SaveData(l.cache.data, key, patch), SaveListing(l.cache.list, key, PatchField(patch, "description")));
    LoadListed(s.caches, s.files, SnippetPath(dir, lang), lang, json.parse);
    SaveKeepsConsistent(l.cache.data, l.cache.list, key, patch);
    KeepTwice(s.caches, lang, l.cache, c', l.stored);
    KeepListed(s.caches, lang, c', l.stored);
  }

  /** A rename that goes ahead: the file and a kept entry get the renamed
      document, and every listing stays consistent. */
  lemma RenameDone(s: State, dir: string, json: JsonCodec, lang: string, key: string, name: string,
                   confirmed: bool, now: int)
    requires Listed(s.caches)
    requires var l := Load(s.caches, s.files, SnippetPath(dir, lang), lang, json.parse);
      && l.Got? && key in Keys(l.cache.data) && name != "" && name != key
      && (name !in Keys(l.cache.data) || confirmed)
    ensures var path := SnippetPath(dir, lang);
      var l := Load(s.caches, s.files, path, lang, json.parse);
      var d := Rename(l.cache.data, key, name);
      var c' := Cache(now, d, RenameListing(l.cache.list, key, name, name in Keys(l.cache.data)));
      var kept := Keep(s.caches, lang, c', l.stored);
      && RenameEffect(s, dir, json, lang, key, name, confirmed, now)
         == Effect(Done, State(kept, s.files[path := FileEntry(json.stringify(d), now)]))
      && Listed(kept)
      && kept == (if l.stored then Commit(s.caches, lang, l)[lang := c'] else Commit(s.caches, lang, l))
  {
    var l := Load(s.caches, s.files, SnippetPath(dir, lang), lang, json.parse);
    var c' := Cache(now, Rename(l.cache.data, key, name), RenameListing(l.cache.list, key, name, name in Keys(l.cache.data)));
    LoadListed(s.caches, s.files, SnippetPath(dir, lang), lang, json.parse);
    RenameKeepsConsistent(l.cache.data, l.cache.list, key, name);
    KeepTwice(s.caches, lang, l.cache, c', l.stored);
    KeepListed(s.caches, lang, c', l.stored);
  }

  /** `saveSnippet({languageId, key, ...patch})`. The document is loaded
      first (and kept) even when the patch is then refused. */
  function SaveEffect(s: State, dir: string, json: JsonCodec, lang: string, key: string, patch: Patch, now: int): Effect {
    var path := SnippetPath(dir, lang);
    var l := Load(s.caches, s.files, path, lang, json.parse);
    match l
    case Unreadable => Effect(Crashed, s)
    case Got(c, stored) =>
      if !Acceptable(patch) then Effect(Skipped, State(Commit(s.caches, lang, l), s.files))
      else
        var d := SaveData(c.data, key, patch);
        var c' := Cache(now, d, SaveListing(c.list, key, PatchField(patch, "description")));
        Effect(Done, State(Keep(s.caches, lang, c', stored), s.files[path := FileEntry(json.stringify(d), now)]))
  }

  /** `deleteSnippet` of `key` once the snippet is picked: confirmation
      first (unless forced), then an absent key is left alone. */
  function DeleteEffect(s: State, dir: string, json: JsonCodec, lang: string, key: string,
                        isForce: bool, confirmed: bool, now: int): Effect {
    if !isForce && !confirmed then Effect(Skipped, s)
    else
      var path := SnippetPath(dir, lang);
      var l := Load(s.caches, s.files, path, lang, json.parse);
      match l
      case Unreadable => Effect(Crashed, s)
      case Got(c, stored) =>
        if key !in Keys(c.data) then Effect(Skipped, State(Commit(s.caches, lang, l), s.files))
        else
          var d := Delete(c.data, key);
          var c' := Cache(now, d, Without(c.list, key));
          Effect(Done, State(Keep(s.caches, lang, c', stored), s.files[path := FileEntry(json.stringify(d), now)]))
  }

  /** `renameSnippet` of `key` to the entered `name` ("" when the input box
      is dismissed). */
  function RenameEffect(s: State, dir: string, json: JsonCodec, lang: string, key: string, name: string,
                        confirmed: bool, now: int): Effect {
    var path := SnippetPath(dir, lang);
    var l := Load(s.caches, s.files, path, lang, json.parse);
    match l
    case Unreadable => Effect(Crashed, s)
    case Got(c, stored) =>
      if key !in Keys(c.data) || name == "" || name == key || (name in Keys(c.data) && !confirmed) then
        Effect(Skipped, State(Commit(s.caches, lang, l), s.files))
      else
        var d := Rename(c.data, key, name);
        var c' := Cache(now, d, RenameListing(c.list, key, name, name in Keys(c.data)));
        Effect(Done, State(Keep(s.caches, lang, c', stored), s.files[path := FileEntry(json.stringify(d), now)]))
  }

  /** `target.languageId || target.label`. */
  function TargetLanguage(n: Node): string {
    match n
    case GroupNode(l) => l
    case SnippetNode(l, name) => if l != "" then l else name
  }

  /** The object `onDrop` hands to `saveSnippet`, less `languageId` and `key`. */
  function DropPatch(data: Record): Patch {
    map["prefix" := Field(data, "prefix"), "body" := Field(data, "body"), "description" := Field(data, "description")]
  }

  /** `onDrop(target, data)`: a drop outside any node throws; a drop onto
      the payload's own language does nothing; an existing key needs
      confirmation; then the three fields are saved under the same key. */
  function DropEffect(s: State, dir: string, json: JsonCodec, target: Option<Node>, data: Record,
                      confirmed: bool, now: int): Effect {
    match target
    case None => Effect(Crashed, s)
    case Some(t) =>
      var lang := TargetLanguage(t);
      if LooseEquals(lang, Field(data, "languageId")) then Effect(Skipped, s)
      else
        var l := Load(s.caches, s.files, SnippetPath(dir, lang), lang, json.parse);
        match l
        case Unreadable => Effect(Crashed, s)
        case Got(c, stored) =>
          var s1 := State(Commit(s.caches, lang, l), s.files);
          var key := PropertyKey(Field(data, "key"));
          if key in Keys(c.data) && !confirmed then Effect(Skipped, s1)
          else SaveEffect(s1, dir, json, lang, key, DropPatch(data), now)
  }

  /** Dropping onto a language that already has the key, without the
      overwrite confirmed, writes nothing. */
  lemma DropDeclined(s: State, dir: string, json: JsonCodec, n: Node, data: Record, now: int)
    requires var lang := TargetLanguage(n);
      var l := Load(s.caches, s.files, SnippetPath(dir, lang), lang, json.parse);
      l.Got? && PropertyKey(Field(data, "key")) in Keys(l.cache.data)
    ensures var e := DropEffect(s, dir, json, Some(n), data, false, now);
      e.outcome == Skipped && e.after.files == s.files
  {
    var lang := TargetLanguage(n);
    if !LooseEquals(lang, Field(data, "languageId")) {
      var l := Load(s.caches, s.files, SnippetPath(dir, lang), lang, json.parse);
      assert DropEffect(s, dir, json, Some(n), data, false, now) == Effect(Skipped, State(Commit(s.caches, lang, l), s.files));
    }
  }

  /** The snippet `label || key` names in a drag payload. */
  function DroppedName(data: Record): Option<Value> {
    if Truthy(Field(data, "label")) then Field(data, "label") else Field(data, "key")
  }

  /** `deleteSnippet(data, true)` for a drag payload, through `pickSnippet`:
      a payload without a language, or without a key and a label, opens a
      picker, taken as dismissed; otherwise the named snippet is deleted
      without confirmation. */
  function DeleteDroppedEffect(s: State, dir: string, json: JsonCodec, data: Record, now: int): Effect {
    if !Truthy(Field(data, "languageId")) || !Truthy(DroppedName(data)) then Effect(Skipped, s)
    else DeleteEffect(s, dir, json, PropertyKey(Field(data, "languageId")), PropertyKey(DroppedName(data)), true, false, now)
  }

  /** The drag payload of a snippet: its record, with the fields that name
      where it came from. */
  function Payload(rec: Option<Record>, lang: string, key: string): (r: Record)
    ensures forall f :: f !in {"scope", "key", "languageId", "type"} ==> Field(r, f) == if rec.Some? then Field(rec.value, f) else None
    ensures Field(r, "type") == Some(Str("snippetExplorer"))
    ensures Field(r, "key") == Some(Str(key)) && Field(r, "languageId") == Some(Str(lang))
    ensures Field(r, "scope") == Some(Str(lang))
  {
    rec.GetOr(map[])["scope" := Str(lang)]["key" := Str(key)]["languageId" := Str(lang)]["type" := Str("snippetExplorer")]
  }

  class LanguageStore {
    const dir: string
    const json: JsonCodec
    var caches: map<string, Cache>

    ghost predicate Valid()
      reads this
    {
      Listed(caches)
    }

    constructor(dir: string, json: JsonCodec)
      ensures this.dir == dir && this.json == json && caches == map[]
      ensures Valid()
    {
      this.dir := dir;
      this.json := json;
      caches := map[];
    }

    /** `getSnippets(languageId)`. */
    method GetSnippets(disk: Disk, lang: string) returns (r: Loaded)
      requires Valid()
      modifies this
      ensures Valid()
      ensures r == Load(old(caches), disk.files, SnippetPath(dir, lang), lang, json.parse)
      ensures caches == Commit(old(caches), lang, r)
    {
      var path := SnippetPath(dir, lang);
      if path !in disk.files {
        r := Got(Cache(0, [], []), false);
        assert Load(caches, disk.files, path, lang, json.parse) == r;
        assert Commit(caches, lang, r) == caches;
        return;
      }
      var mtime := disk.files[path].mtime;
      if lang in caches && caches[lang].t >= mtime {
        r := Got(caches[lang], true);
        assert Load(caches, disk.files, path, lang, json.parse) == r;
        KeepCached(caches, lang);
        assert Commit(caches, lang, r) == caches;
        return;
      }
      var parsed := json.parse(disk.files[path].text);
      if parsed.None? {
        r := Unreadable;
        assert Load(caches, disk.files, path, lang, json.parse) == r;
        return;
      }
      var list := BuildListing(parsed.value);
      var c := Cache(mtime, parsed.value, list);
      r := Got(c, true);
      assert Load(caches, disk.files, path, lang, json.parse) == r;
      KeepListed(caches, lang, c, true);
      assert Commit(caches, lang, r) == caches[lang := c];
      caches := caches[lang := c];
    }

    /** `saveSnippet`. */
    method SaveSnippet(disk: Disk, lang: string, key: string, patch: Patch, now: int) returns (r: Outcome)
      requires Valid()
      modifies this, disk
      ensures Valid()
      ensures Effect(r, State(caches, disk.files)) == SaveEffect(State(old(caches), old(disk.files)), dir, json, lang, key, patch, now)
    {
      ghost var e := SaveEffect(State(caches, disk.files), dir, json, lang, key, patch, now);
      var l := GetSnippets(disk, lang);
      if l.Unreadable? {
        assert e == Effect(Crashed, State(caches, disk.files));
        return Crashed;
      }
      if !Acceptable(patch) {
        assert e == Effect(Skipped, State(caches, disk.files));
        return Skipped;
      }
      var c := l.cache;
      var d := SaveData(c.data, key, patch);
      var c' := Cache(now, d, SaveListing(c.list, key, PatchField(patch, "description")));
      SaveDone(State(old(caches), old(disk.files)), dir, json, lang, key, patch, now);
      disk.Write(SnippetPath(dir, lang), json.stringify(d), now);
      if l.stored {
        caches := caches[lang := c'];
      }
      r := Done;
    }

    /** `deleteSnippet(e, isForce)` once `e` is picked. */
    method DeleteSnippet(disk: Disk, lang: string, key: string, isForce: bool, confirmed: bool, now: int)
      returns (r: Outcome)
      requires Valid()
      modifies this, disk
      ensures Valid()
      ensures Effect(r, State(caches, disk.files)) == DeleteEffect(State(old(caches), old(disk.files)), dir, json, lang, key, isForce, confirmed, now)
    {
      ghost var e := DeleteEffect(State(caches, disk.files), dir, json, lang, key, isForce, confirmed, now);
      if !isForce && !confirmed {
        return Skipped;
      }
      var l := GetSnippets(disk, lang);
      if l.Unreadable? {
        return Crashed;
      }
      var c := l.cache;
      if key !in Keys(c.data) {
        assert e == Effect(Skipped, State(caches, disk.files));
        return Skipped;
      }
      var d := Delete(c.data, key);
      var c' := Cache(now, d, Without(c.list, key));
      assert e == Effect(Done, State(Keep(old(caches), lang, c', l.stored),
                                     old(disk.files)[SnippetPath(dir, lang) := FileEntry(json.stringify(d), now)]));
      DeleteKeepsConsistent(c.data, c.list, key);
      KeepTwice(old(caches), lang, c, c', l.stored);
      KeepListed(caches, lang, c', l.stored);
      disk.Write(SnippetPath(dir, lang), json.stringify(d), now);
      if l.stored {
        caches := caches[lang := c'];
      }
      r := Done;
    }

    /** `renameSnippet(e)` once `e` is picked; `name` is what the input box
      returned. */
    method RenameSnippet(disk: Disk, lang: string, key: string, name: string, confirmed: bool, now: int)
      returns (r: Outcome)
      requires Valid()
      modifies this, disk
      ensures Valid()
      ensures Effect(r, State(caches, disk.files)) == RenameEffect(State(old(caches), old(disk.files)), dir, json, lang, key, name, confirmed, now)
    {
      ghost var e := RenameEffect(State(caches, disk.files), dir, json, lang, key, name, confirmed, now);
      var l := GetSnippets(disk, lang);
      if l.Unreadable? {
        assert e == Effect(Crashed, State(caches, disk.files));
        return Crashed;
      }
      var c := l.cache;
      if key !in Keys(c.data) || name == "" || name == key {
        assert e == Effect(Skipped, State(caches, disk.files));
        return Skipped;
      }
      var overwrite := name in Keys(c.data);
      if overwrite && !confirmed {
        assert e == Effect(Skipped, State(caches, disk.files));
        return Skipped;
      }
      var d := Rename(c.data, key, name);
      var c' := Cache(now, d, RenameListing(c.list, key, name, overwrite));
      RenameDone(State(old(caches), old(disk.files)), dir, json, lang, key, name, confirmed, now);
      disk.Write(SnippetPath(dir, lang), json.stringify(d), now);
      if l.stored {
        caches := caches[lang := c'];
      }
      r := Done;
    }

    /** `onDrop(target, data)`; `Done` is the `true` it returns. */
    method OnDrop(disk: Disk, target: Option<Node>, data: Record, confirmed: bool, now: int) returns (r: Outcome)
      requires Valid()
      modifies this, disk
      ensures Valid()
      ensures Effect(r, State(caches, disk.files)) == DropEffect(State(old(caches), old(disk.files)), dir, json, target, data, confirmed, now)
    {
      if target.None? {
        return Crashed;
      }
      var lang := TargetLanguage(target.value);
      if LooseEquals(lang, Field(data, "languageId")) {
        return Skipped;
      }
      var l := GetSnippets(disk, lang);
      if l.Unreadable? {
        return Crashed;
      }
      var key := PropertyKey(Field(data, "key"));
      if key in Keys(l.cache.data) && !confirmed {
        return Skipped;
      }
      LoadSettles(old(caches), disk.files, SnippetPath(dir, lang), lang, json.parse);
      r := SaveSnippet(disk, lang, key, DropPatch(data), now);
    }

    /** `deleteSnippet(data, true)`, run for the source of a move. */
    method DeleteDropped(disk: Disk, data: Record, now: int) returns (r: Outcome)
      requires Valid()
      modifies this, disk
      ensures Valid()
      ensures Effect(r, State(caches, disk.files)) == DeleteDroppedEffect(State(old(caches), old(disk.files)), dir, json, data, now)
    {
      if !Truthy(Field(data, "languageId")) || !Truthy(DroppedName(data)) {
        return Skipped;
      }
      r := DeleteSnippet(disk, PropertyKey(Field(data, "languageId")), PropertyKey(DroppedName(data)), true, false, now);
    }

    /** `getDragData(node)`: nothing for a group; for a snippet, its record
      from the (re)loaded document. */
    method GetDragData(disk: Disk, node: Node) returns (payload: Option<Record>, crashed: bool)
      requires Valid()
      modifies this
      ensures Valid()
      ensures node.GroupNode? ==> payload == None && !crashed && caches == old(caches)
      ensures node.SnippetNode? ==>
        var l := Load(old(caches), disk.files, SnippetPath(dir, node.languageId), node.languageId, json.parse);
        && caches == Commit(old(caches), node.languageId, l)
        && crashed == l.Unreadable?
        && payload == if l.Got? then Some(Payload(Get(l.cache.data, node.name), node.languageId, node.name)) else None
    {
      if node.GroupNode? {
        return None, false;
      }
      var l := GetSnippets(disk, node.languageId);
      if l.Unreadable? {
        return None, true;
      }
      payload := Some(Payload(Get(l.cache.data, node.name), node.languageId, node.name));
      crashed := false;
    }
  }

  // ----- properties of the operations -----

  /** A loaded entry always lists one entry per key; a freshly read one is
      also sorted, and a stale entry is never returned. */
  lemma LoadListed(caches: map<string, Cache>, files: map<string, FileEntry>, path: string, lang: string,
                   parse: string -> Option<Document>)
    requires Listed(caches)
    ensures var l := Load(caches, files, path, lang, parse);
      && Listed(Commit(caches, lang, l))
      && (l.Got? ==> Consistent(l.cache.data, l.cache.list))
      && (l.Got? && l.stored ==> path in files && l.cache.t >= files[path].mtime)
      && (l.Got? && !(lang in caches && l.cache == caches[lang]) ==> SortedBy(l.cache.list, ByLabel))
  {
  }

  /** Once kept, an entry is returned again without reading the file. */
  lemma LoadSettles(caches: map<string, Cache>, files: map<string, FileEntry>, path: string, lang: string,
                    parse: string -> Option<Document>)
    ensures var l := Load(caches, files, path, lang, parse);
      l.Got? ==> Load(Commit(caches, lang, l), files, path, lang, parse) == l
  {
  }

  /** Each operation keeps every cached listing one entry per key. */
  lemma SaveKeepsListed(s: State, dir: string, json: JsonCodec, lang: string, key: string, patch: Patch, now: int)
    requires Listed(s.caches)
    ensures Listed(SaveEffect(s, dir, json, lang, key, patch, now).after.caches)
  {
    var path := SnippetPath(dir, lang);
    var l := Load(s.caches, s.files, path, lang, json.parse);
    LoadListed(s.caches, s.files, path, lang, json.parse);
    if l.Got? && Acceptable(patch) {
      var c := l.cache;
      SaveKeepsConsistent(c.data, c.list, key, patch);
      var c' := Cache(now, SaveData(c.data, key, patch), SaveListing(c.list, key, PatchField(patch, "description")));
      KeepListed(s.caches, lang, c', l.stored);
      assert SaveEffect(s, dir, json, lang, key, patch, now).after.caches == Keep(s.caches, lang, c', l.stored);
    }
  }

  lemma DeleteKeepsListed(s: State, dir: string, json: JsonCodec, lang: string, key: string,
                          isForce: bool, confirmed: bool, now: int)
    requires Listed(s.caches)
    ensures Listed(DeleteEffect(s, dir, json, lang, key, isForce, confirmed, now).after.caches)
  {
    var path := SnippetPath(dir, lang);
    var l := Load(s.caches, s.files, path, lang, json.parse);
    LoadListed(s.caches, s.files, path, lang, json.parse);
    if (isForce || confirmed) && l.Got? && key in Keys(l.cache.data) {
      var c := l.cache;
      DeleteKeepsConsistent(c.data, c.list, key);
      var c' := Cache(now, Delete(c.data, key), Without(c.list, key));
      KeepListed(s.caches, lang, c', l.stored);
      assert DeleteEffect(s, dir, json, lang, key, isForce, confirmed, now).after.caches == Keep(s.caches, lang, c', l.stored);
    }
  }

  lemma RenameKeepsListed(s: State, dir: string, json: JsonCodec, lang: string, key: string, name: string,
                          confirmed: bool, now: int)
    requires Listed(s.caches)
    ensures Listed(RenameEffect(s, dir, json, lang, key, name, confirmed, now).after.caches)
  {
    var path := SnippetPath(dir, lang);
    var l := Load(s.caches, s.files, path, lang, json.parse);
    LoadListed(s.caches, s.files, path, lang, json.parse);
    if l.Got? && key in Keys(l.cache.data) && name != "" && name != key && (name !in Keys(l.cache.data) || confirmed) {
      var c := l.cache;
      var c' := Cache(now, Rename(c.data, key, name), RenameListing(c.list, key, name, name in Keys(c.data)));
      assert RenameEffect(s, dir, json, lang, key, name, confirmed, now).after.caches == Keep(s.caches, lang, c', l.stored);
      assert Consistent(c'.data, c'.list) by {
        RenameKeepsConsistent(c.data, c.list, key, name);
      }
      KeepListed(s.caches, lang, c', l.stored);
    }
  }

  lemma DropKeepsListed(s: State, dir: string, json: JsonCodec, target: Option<Node>, data: Record,
                        confirmed: bool, now: int)
    requires Listed(s.caches)
    ensures Listed(DropEffect(s, dir, json, target, data, confirmed, now).after.caches)
  {
    var e := DropEffect(s, dir, json, target, data, confirmed, now);
    if target.Some? {
      var lang := TargetLanguage(target.value);
      var path := SnippetPath(dir, lang);
      var l := Load(s.caches, s.files, path, lang, json.parse);
      if !LooseEquals(lang, Field(data, "languageId")) && l.Got? {
        LoadListed(s.caches, s.files, path, lang, json.parse);
        var s1 := State(Commit(s.caches, lang, l), s.files);
        var key := PropertyKey(Field(data, "key"));
        if key in Keys(l.cache.data) && !confirmed {
          assert e.after == s1;
        } else {
          assert e == SaveEffect(s1, dir, json, lang, key, DropPatch(data), now);
          SaveKeepsListed(s1, dir, json, lang, key, DropPatch(data), now);
        }
      } else {
        assert e.after == s;
      }
    } else {
      assert e.after == s;
    }
  }

  /** A refused patch writes nothing and leaves every document as it was. */
  lemma SaveRefused(s: State, dir: string, json: JsonCodec, lang: string, key: string, patch: Patch, now: int)
    requires !Acceptable(patch)
    ensures var e := SaveEffect(s, dir, json, lang, key, patch, now);
      && e.outcome != Done
      && e.after.files == s.files
      && Load(e.after.caches, e.after.files, SnippetPath(dir, lang), lang, json.parse)
         == Load(s.caches, s.files, SnippetPath(dir, lang), lang, json.parse)
  {
    LoadSettles(s.caches, s.files, SnippetPath(dir, lang), lang, json.parse);
  }

  /** After a write of document `d` at time `now`, the next `getSnippets`
      gives back `d` (from the kept entry, or by re-reading the file when the
      entry was not kept), provided the clock is past any older stamp. */
  lemma Persist(json: JsonCodec, caches: map<string, Cache>, files: map<string, FileEntry>, path: string, lang: string,
                c: Cache, stored: bool, d: Document, list: seq<Item>, now: int)
    requires Lawful(json)
    requires Load(caches, files, path, lang, json.parse) == Got(c, stored)
    requires path !in files && lang in caches ==> caches[lang].t < now
    ensures var l := Load(Keep(caches, lang, Cache(now, d, list), stored), files[path := FileEntry(json.stringify(d), now)], path, lang, json.parse);
      l.Got? && l.stored && l.cache.data == d
  {
    assert json.parse(json.stringify(d)) == Some(d);
  }

  /** Saving is read back: the document then holds the merged record under
      `key` and every other key as before. */
  lemma SavePersists(s: State, dir: string, json: JsonCodec, lang: string, key: string, patch: Patch, now: int)
    requires Lawful(json)
    requires SnippetPath(dir, lang) !in s.files && lang in s.caches ==> s.caches[lang].t < now
    ensures var path := SnippetPath(dir, lang);
      var e := SaveEffect(s, dir, json, lang, key, patch, now);
      e.outcome == Done ==>
        var before := Load(s.caches, s.files, path, lang, json.parse);
        var after := Load(e.after.caches, e.after.files, path, lang, json.parse);
        && Acceptable(patch)
        && after.Got? && after.stored
        && after.cache.data == SaveData(before.cache.data, key, patch)
  {
    var path := SnippetPath(dir, lang);
    var l := Load(s.caches, s.files, path, lang, json.parse);
    if l.Got? && Acceptable(patch) {
      var d := SaveData(l.cache.data, key, patch);
      Persist(json, s.caches, s.files, path, lang, l.cache, l.stored, d,
        SaveListing(l.cache.list, key, PatchField(patch, "description")), now);
    }
  }

  /** Deleting is read back: the key is gone and every other record stays. */
  lemma DeletePersists(s: State, dir: string, json: JsonCodec, lang: string, key: string,
                       isForce: bool, confirmed: bool, now: int)
    requires Lawful(json)
    requires SnippetPath(dir, lang) !in s.files && lang in s.caches ==> s.caches[lang].t < now
    ensures var path := SnippetPath(dir, lang);
      var e := DeleteEffect(s, dir, json, lang, key, isForce, confirmed, now);
      var before := Load(s.caches, s.files, path, lang, json.parse);
      && (e.outcome == Done ==>
        var after := Load(e.after.caches, e.after.files, path, lang, json.parse);
        && (isForce || confirmed)
        && key in Keys(before.cache.data)
        && after.Got? && after.cache.data == Delete(before.cache.data, key))
      && (before.Got? && key !in Keys(before.cache.data) ==> e.after.files == s.files)
  {
    var path := SnippetPath(dir, lang);
    var l := Load(s.caches, s.files, path, lang, json.parse);
    if l.Got? && (isForce || confirmed) && key in Keys(l.cache.data) {
      var d := Delete(l.cache.data, key);
      Persist(json, s.caches, s.files, path, lang, l.cache, l.stored, d, Without(l.cache.list, key), now);
    }
  }

  /** Renaming is read back: the record moves unchanged to `name`, replacing
      an existing `name` only when confirmed. */
  lemma RenamePersists(s: State, dir: string, json: JsonCodec, lang: string, key: string, name: string,
                       confirmed: bool, now: int)
    requires Lawful(json)
    requires SnippetPath(dir, lang) !in s.files && lang in s.caches ==> s.caches[lang].t < now
    ensures var path := SnippetPath(dir, lang);
      var e := RenameEffect(s, dir, json, lang, key, name, confirmed, now);
      var before := Load(s.caches, s.files, path, lang, json.parse);
      && (name == "" || name == key ==> e.after.files == s.files)
      && (e.outcome == Done ==>
        var after := Load(e.after.caches, e.after.files, path, lang, json.parse);
        && key in Keys(before.cache.data) && name != key
        && (name in Keys(before.cache.data) ==> confirmed)
        && after.Got? && after.cache.data == Rename(before.cache.data, key, name)
        && Get(after.cache.data, name) == Get(before.cache.data, key)
        && Get(after.cache.data, key) == None)
  {
    var path := SnippetPath(dir, lang);
    var l := Load(s.caches, s.files, path, lang, json.parse);
    var e := RenameEffect(s, dir, json, lang, key, name, confirmed, now);
    if l.Got? && key in Keys(l.cache.data) && name != "" && name != key && (name !in Keys(l.cache.data) || confirmed) {
      var d := Rename(l.cache.data, key, name);
      var list := RenameListing(l.cache.list, key, name, name in Keys(l.cache.data));
      assert e == Effect(Done, State(Keep(s.caches, lang, Cache(now, d, list), l.stored),
                                     s.files[path := FileEntry(json.stringify(d), now)]));
      Persist(json, s.caches, s.files, path, lang, l.cache, l.stored, d, list, now);
    } else {
      assert e.outcome != Done;
    }
  }

  /** The record a drop saves over `existing`. */
  lemma DropRecord(existing: Option<Record>, data: Record)
    ensures var r := SaveRecord(existing, DropPatch(data));
      && Field(r, "prefix") == Field(data, "prefix")
      && Field(r, "body") == Field(data, "body")
      && Field(r, "description") == if Truthy(Field(data, "description")) then Field(data, "description") else None
  {
    var p := DropPatch(data);
    var m := Merge(existing.GetOr(map[]), p);
    assert Field(m, "description") == Field(data, "description");
  }

  /** Past its guards a drop is the save of its three fields. */
  lemma DropIsSave(s: State, dir: string, json: JsonCodec, target: Option<Node>, data: Record, confirmed: bool, now: int)
    requires target.Some?
    ensures var lang := TargetLanguage(target.value);
      var l := Load(s.caches, s.files, SnippetPath(dir, lang), lang, json.parse);
      var s1 := State(Commit(s.caches, lang, l), s.files);
      var key := PropertyKey(Field(data, "key"));
      !LooseEquals(lang, Field(data, "languageId")) && l.Got? && (key !in Keys(l.cache.data) || confirmed) ==>
        && DropEffect(s, dir, json, target, data, confirmed, now) == SaveEffect(s1, dir, json, lang, key, DropPatch(data), now)
        && Load(s1.caches, s1.files, SnippetPath(dir, lang), lang, json.parse) == l
  {
    var lang := TargetLanguage(target.value);
    LoadSettles(s.caches, s.files, SnippetPath(dir, lang), lang, json.parse);
  }

  /** A drop that writes copies prefix, body and (a non-empty) description
      into the target language under the payload's key, and overwrote an
      existing snippet only when confirmed; a drop onto the payload's own
      language changes nothing. */
  lemma DropCopies(s: State, dir: string, json: JsonCodec, target: Option<Node>, data: Record, confirmed: bool, now: int)
    requires Lawful(json)
    requires target.Some? ==> var lang := TargetLanguage(target.value);
      SnippetPath(dir, lang) !in s.files && lang in s.caches ==> s.caches[lang].t < now
    ensures var e := DropEffect(s, dir, json, target, data, confirmed, now);
      && (target.Some? && LooseEquals(TargetLanguage(target.value), Field(data, "languageId")) ==> e.after == s)
      && (e.outcome == Done ==>
        var lang := TargetLanguage(target.value);
        var path := SnippetPath(dir, lang);
        var key := PropertyKey(Field(data, "key"));
        var before := Load(s.caches, s.files, path, lang, json.parse);
        var after := Load(e.after.caches, e.after.files, path, lang, json.parse);
        && !LooseEquals(lang, Field(data, "languageId"))
        && (key in Keys(before.cache.data) ==> confirmed)
        && after.Got?
        && Get(after.cache.data, key).Some?
        && Field(Get(after.cache.data, key).value, "prefix") == Field(data, "prefix")
        && Field(Get(after.cache.data, key).value, "body") == Field(data, "body")
        && Field(Get(after.cache.data, key).value, "description") ==
           if Truthy(Field(data, "description")) then Field(data, "description") else None)
  {
    var e := DropEffect(s, dir, json, target, data, confirmed, now);
    if e.outcome == Done {
      var lang := TargetLanguage(target.value);
      var path := SnippetPath(dir, lang);
      var key := PropertyKey(Field(data, "key"));
      var l := Load(s.caches, s.files, path, lang, json.parse);
      var s1 := State(Commit(s.caches, lang, l), s.files);
      DropIsSave(s, dir, json, target, data, confirmed, now);
      SavePersists(s1, dir, json, lang, key, DropPatch(data), now);
      var after := Load(e.after.caches, e.after.files, path, lang, json.parse);
      assert after.cache.data == SaveData(l.cache.data, key, DropPatch(data));
      DropRecord(Get(l.cache.data, key), data);
    }
  }

  /** Removing the source of a move: a payload that names no language or no
      snippet changes nothing; otherwise, when it succeeds, the named
      snippet is gone from that language's document. */
  lemma DeleteDroppedRemoves(s: State, dir: string, json: JsonCodec, data: Record, now: int)
    requires Lawful(json)
    requires var path := SnippetPath(dir, PropertyKey(Field(data, "languageId")));
      path !in s.files && PropertyKey(Field(data, "languageId")) in s.caches ==> s.caches[PropertyKey(Field(data, "languageId"))].t < now
    ensures var e := DeleteDroppedEffect(s, dir, json, data, now);
      && (!Truthy(Field(data, "languageId")) || !Truthy(DroppedName(data)) ==> e == Effect(Skipped, s))
      && (e.outcome == Done ==>
          var lang := PropertyKey(Field(data, "languageId"));
          var after := Load(e.after.caches, e.after.files, SnippetPath(dir, lang), lang, json.parse);
          after.Got? && PropertyKey(DroppedName(data)) !in Keys(after.cache.data))
  {
    var e := DeleteDroppedEffect(s, dir, json, data, now);
    if e.outcome == Done {
      var lang := PropertyKey(Field(data, "languageId"));
      var key := PropertyKey(DroppedName(data));
      DeletePersists(s, dir, json, lang, key, true, false, now);
      var before := Load(s.caches, s.files, SnippetPath(dir, lang), lang, json.parse);
      assert Get(Delete(before.cache.data, key), key) == None;
    }
  }

  /** `after` differs from `s` at most in the cache entry of `lang` and in
      the file at `path`. */
  ghost predicate OnlyTouches(s: State, after: State, lang: string, path: string) {
    && (forall other :: other != lang ==> (other in after.caches <==> other in s.caches))
    && (forall other :: other != lang && other in s.caches && other in after.caches ==> after.caches[other] == s.caches[other])
    && (forall p :: p != path ==> (p in after.files <==> p in s.files))
    && (forall p :: p != path && p in s.files && p in after.files ==> after.files[p] == s.files[p])
  }

  /** Different languages have different files. */
  lemma SnippetPathInjective(dir: string, a: string, b: string)
    requires SnippetPath(dir, a) == SnippetPath(dir, b)
    ensures a == b
  {
    var p := SnippetPath(dir, a);
    assert |a| == |b|;
    assert a == p[|dir| + 1..|dir| + 1 + |a|];
    assert b == SnippetPath(dir, b)[|dir| + 1..|dir| + 1 + |b|];
  }

  /** Saving touches only its own language's entry and file. */
  lemma SaveTouchesOwn(s: State, dir: string, json: JsonCodec, lang: string, key: string, patch: Patch, now: int)
    ensures OnlyTouches(s, SaveEffect(s, dir, json, lang, key, patch, now).after, lang, SnippetPath(dir, lang))
  {
    var path := SnippetPath(dir, lang);
    var l := Load(s.caches, s.files, path, lang, json.parse);
    if l.Got? && Acceptable(patch) {
      var d := SaveData(l.cache.data, key, patch);
      var c' := Cache(now, d, SaveListing(l.cache.list, key, PatchField(patch, "description")));
      var f := FileEntry(json.stringify(d), now);
      assert SaveEffect(s, dir, json, lang, key, patch, now).after == State(Keep(s.caches, lang, c', l.stored), s.files[path := f]);
      KeepTouches(s, lang, path, c', l.stored, f);
    } else if l.Got? {
      assert SaveEffect(s, dir, json, lang, key, patch, now).after == State(Keep(s.caches, lang, l.cache, l.stored), s.files);
      KeepTouches(s, lang, path, l.cache, l.stored, FileEntry("", 0));
    }
  }

  /** Deleting touches only its own language's entry and file. */
  lemma DeleteTouchesOwn(s: State, dir: string, json: JsonCodec, lang: string, key: string,
                         isForce: bool, confirmed: bool, now: int)
    ensures OnlyTouches(s, DeleteEffect(s, dir, json, lang, key, isForce, confirmed, now).after, lang, SnippetPath(dir, lang))
  {
    var path := SnippetPath(dir, lang);
    var l := Load(s.caches, s.files, path, lang, json.parse);
    if (isForce || confirmed) && l.Got? && key in Keys(l.cache.data) {
      var d := Delete(l.cache.data, key);
      var c' := Cache(now, d, Without(l.cache.list, key));
      var f := FileEntry(json.stringify(d), now);
      assert DeleteEffect(s, dir, json, lang, key, isForce, confirmed, now).after
          == State(Keep(s.caches, lang, c', l.stored), s.files[path := f]);
      KeepTouches(s, lang, path, c', l.stored, f);
    } else if (isForce || confirmed) && l.Got? {
      assert DeleteEffect(s, dir, json, lang, key, isForce, confirmed, now).after
          == State(Keep(s.caches, lang, l.cache, l.stored), s.files);
      KeepTouches(s, lang, path, l.cache, l.stored, FileEntry("", 0));
    }
  }

  /** Keeping an entry and writing a file touches only that entry and file. */
  lemma KeepTouches(s: State, lang: string, path: string, c: Cache, stored: bool, f: FileEntry)
    ensures OnlyTouches(s, State(Keep(s.caches, lang, c, stored), s.files[path := f]), lang, path)
    ensures OnlyTouches(s, State(Keep(s.caches, lang, c, stored), s.files), lang, path)
  {
  }

  /** A drop touches only the target language's entry and file. */
  lemma DropTouchesOwn(s: State, dir: string, json: JsonCodec, n: Node, data: Record, confirmed: bool, now: int)
    ensures var lang := TargetLanguage(n);
      OnlyTouches(s, DropEffect(s, dir, json, Some(n), data, confirmed, now).after, lang, SnippetPath(dir, lang))
  {
    var lang := TargetLanguage(n);
    var path := SnippetPath(dir, lang);
    var l := Load(s.caches, s.files, path, lang, json.parse);
    var e := DropEffect(s, dir, json, Some(n), data, confirmed, now);
    if !LooseEquals(lang, Field(data, "languageId")) && l.Got? {
      var s1 := State(Commit(s.caches, lang, l), s.files);
      var key := PropertyKey(Field(data, "key"));
      KeepTouches(s, lang, path, l.cache, l.stored, FileEntry("", 0));
      if key in Keys(l.cache.data) && !confirmed {
        assert e.after == s1;
      } else {
        assert e.after == SaveEffect(s1, dir, json, lang, key, DropPatch(data), now).after;
        SaveTouchesOwn(s1, dir, json, lang, key, DropPatch(data), now);
        TouchesTwice(s, s1, e.after, lang, path);
      }
    } else {
      assert e.after == s;
    }
  }

  /** Two steps that each touch only `lang` and `path` together touch only those. */
  lemma TouchesTwice(s: State, s1: State, s2: State, lang: string, path: string)
    requires OnlyTouches(s, s1, lang, path) && OnlyTouches(s1, s2, lang, path)
    ensures OnlyTouches(s, s2, lang, path)
  {
  }

  /** Writing some other file does not change what a language loads. */
  lemma LoadOtherFile(caches: map<string, Cache>, files: map<string, FileEntry>, path: string, lang: string,
                      parse: string -> Option<Document>, other: string, f: FileEntry)
    requires other != path
    ensures Load(caches, files[other := f], path, lang, parse) == Load(caches, files, path, lang, parse)
  {
    assert (path in files[other := f]) == (path in files);
  }

  /** What another language loads is not changed by a step that touches
      only `lang`. */
  lemma LoadUntouched(s: State, after: State, dir: string, lang: string, other: string, parse: string -> Option<Document>)
    requires OnlyTouches(s, after, lang, SnippetPath(dir, lang)) && other != lang
    ensures Load(after.caches, after.files, SnippetPath(dir, other), other, parse)
         == Load(s.caches, s.files, SnippetPath(dir, other), other, parse)
  {
    if SnippetPath(dir, other) == SnippetPath(dir, lang) {
      SnippetPathInjective(dir, other, lang);
    }
  }
}
