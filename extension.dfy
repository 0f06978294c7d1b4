/** The save handler of extension.js (`onDidSaveTextDocument`) and
    `deactivate`. A saved file is routed by its suffix: a language snippet
    file refreshes the language tree, a `*.code-snippets` file is re-opened
    in the scope store, and the temporary files the two trees open for
    editing (`*.snippet`, `*.scopesnippet`) are parsed back into a snippet
    and saved into the store their name points to. */
module Extension {
  import opened Strings
  import opened Records
  import opened Files
  import Codec
  import Utils
  import L = LanguageStore
  import S = ScopeStore
  import D = DragAndDrop

  /** Node's base64 codec (`Buffer.from(s).toString("base64")` and back). */
  datatype Base64 = Base64(encode: string -> string, decode: string -> string)

  /** Decoding inverts encoding, and an encoding never holds `.` or `-`
      (its alphabet is letters, digits, `+`, `/` and `=`). */
  ghost predicate Lawful64(b: Base64) {
    && (forall k :: b.decode(b.encode(k)) == k)
    && (forall k :: '.' !in b.encode(k) && '-' !in b.encode(k))
  }

  /** `path.basename(p)`: the part after the last `/`. */
  function Basename(p: string): (b: string)
    ensures '/' !in b
    decreases |p|
  {
    if |p| == 0 || p[|p| - 1] == '/' then "" else Basename(p[..|p| - 1]) + [p[|p| - 1]]
  }

  /** `path.basename(p, ext)`: the base name less `ext`, unless it is `ext`
      itself. */
  function Stem(p: string, ext: string): string {
    var b := Basename(p);
    if EndsWith(b, ext) && b != ext then b[..|b| - |ext|] else b
  }

  /** Where a saved file goes. */
  datatype Route =
    | RefreshLanguages
    | OpenScope
    | SaveLanguage(lang: string, key: string)
    | SaveScope(lang: string)
    | Ignore

  /** The branches of the save handler, tried in order; a `*.snippet`
      name must split on `.` into exactly two parts. */
  function RouteOf(fileName: string, snippetsDir: string, b: Base64): Route {
    if EndsWith(fileName, ".json") && StartsWith(Lower(fileName), Lower(snippetsDir)) then RefreshLanguages
    else if EndsWith(fileName, ".code-snippets") then OpenScope
    else if EndsWith(fileName, ".snippet") then
      var ss := Split(Stem(fileName, ".snippet"), '.');
      if |ss| != 2 then Ignore else SaveLanguage(ss[1], b.decode(Replace(ss[0], '-', '/')))
    else if EndsWith(fileName, ".scopesnippet") then
      var ss := Split(Stem(fileName, ".scopesnippet"), '.');
      SaveScope(ss[|ss| - 1])
    else Ignore
  }

  /** The temporary file `editSnippet` of the language tree opens for
      snippet `key` of `lang` (src/SnippetNodeProvider.js). */
  function SnippetTempName(tmp: string, b: Base64, key: string, lang: string): string {
    tmp + "/" + Replace(b.encode(key), '/', '-') + "." + lang + ".snippet"
  }

  /** The temporary file `editSnippet` of the scope tree opens; `tag` is the
      first eight hex digits of an MD5 digest. */
  function ScopeTempName(tmp: string, tag: string, lang: string): string {
    tmp + "/" + tag + "." + lang + ".scopesnippet"
  }

  /** The language `editSnippet` of the scope tree edits in: the first of
      the snippet's scopes, else `javascript`. A list-valued scope has no
      `split`, so the call throws: `None`. */
  function EditLanguage(scope: Option<Value>): (lang: Option<string>)
    ensures lang.None? <==> scope.Some? && scope.value.List?
    ensures lang.Some? ==> ',' !in lang.value
    ensures !Truthy(scope) ==> lang == Some("javascript")
  {
    match scope
    case Some(List(_)) => None
    case Some(Str(s)) => if s != "" then Some(Split(s, ',')[0]) else Some("javascript")
    case None => Some("javascript")
  }

  /** A scope list written as `a,b,...` is edited in its first language. */
  lemma EditLanguageFirst(langs: seq<string>)
    requires |langs| >= 1 && langs[0] != ""
    requires forall i :: 0 <= i < |langs| ==> ',' !in langs[i]
    ensures EditLanguage(Some(Str(Join(langs, ',')))) == Some(langs[0])
  {
    SplitJoin(langs, ',');
  }

  /** The record `provider.saveSnippet({...snippet, languageId, key})`
      stores, less the `languageId` and `key` it destructures away. */
  function LanguagePatch(snippet: Record): (p: Patch)
    ensures forall f :: f != "languageId" && f != "key" ==> PatchField(p, f) == Field(snippet, f)
    ensures forall f :: f in p <==> f in snippet && f != "languageId" && f != "key"
  {
    Lift(snippet) - {"languageId", "key"}
  }

  /** What saving `fileName` with text `text` does to both stores. */
  function SaveFileEffect(w: D.World, dir: string, ljson: JsonCodec, sjson: JsonCodec, snippetsDir: string, b: Base64,
                          commentOf: map<string, string>, headers: map<string, string>,
                          fileName: string, text: string, now: int): D.Step
  {
    RouteEffect(w, dir, ljson, sjson, RouteOf(fileName, snippetsDir, b), commentOf, headers, fileName, text, now)
  }

  /** What the handler does once the file name has been routed. */
  function RouteEffect(w: D.World, dir: string, ljson: JsonCodec, sjson: JsonCodec, route: Route,
                       commentOf: map<string, string>, headers: map<string, string>,
                       fileName: string, text: string, now: int): D.Step
  {
    match route
    case RefreshLanguages => D.Step(Done, w)
    case OpenScope =>
      var o := S.OpenEffect(w.groups, w.files, fileName, text, sjson.parse);
      D.Step(if o.threw then Crashed else Done, D.World(w.caches, o.groups, w.files))
    case SaveLanguage(lang, key) =>
      var snippet := Codec.Decode(text, lang, commentOf, headers);
      var e := L.SaveEffect(L.State(w.caches, w.files), dir, ljson, lang, key, LanguagePatch(snippet), now);
      D.Step(e.outcome, D.World(e.after.caches, w.groups, e.after.files))
    case SaveScope(lang) =>
      var snippet := Codec.Decode(text, lang, commentOf, headers);
      var e := S.SaveEffect(S.State(w.groups, w.files), sjson, Lift(snippet), now);
      D.Step(e.outcome, D.World(w.caches, e.after.groups, e.after.files))
    case Ignore => D.Step(Skipped, w)
  }

  /** Saving a `*.snippet` file is the language store's save of the
      decoded snippet. */
  lemma LanguageRoute(w: D.World, dir: string, ljson: JsonCodec, sjson: JsonCodec, route: Route,
                      commentOf: map<string, string>, headers: map<string, string>,
                      fileName: string, text: string, now: int)
    requires route.SaveLanguage?
    ensures var e := L.SaveEffect(L.State(w.caches, w.files), dir, ljson, route.lang, route.key,
                                  LanguagePatch(Codec.Decode(text, route.lang, commentOf, headers)), now);
      RouteEffect(w, dir, ljson, sjson, route, commentOf, headers, fileName, text, now)
        == D.Step(e.outcome, D.World(e.after.caches, w.groups, e.after.files))
  {
  }

  /** Saving a `*.scopesnippet` file is the scope store's save of the
      decoded snippet. */
  lemma ScopeRoute(w: D.World, dir: string, ljson: JsonCodec, sjson: JsonCodec, route: Route,
                   commentOf: map<string, string>, headers: map<string, string>,
                   fileName: string, text: string, now: int)
    requires route.SaveScope?
    ensures var e := S.SaveEffect(S.State(w.groups, w.files), sjson, Lift(Codec.Decode(text, route.lang, commentOf, headers)), now);
      RouteEffect(w, dir, ljson, sjson, route, commentOf, headers, fileName, text, now)
        == D.Step(e.outcome, D.World(w.caches, e.after.groups, e.after.files))
  {
  }

  /** The `onDidSaveTextDocument` handler over the two stores and the disk. */
  method OnSave(lang: L.LanguageStore, scope: S.ScopeStore, disk: Disk, snippetsDir: string, b: Base64,
                commentOf: map<string, string>, headers: map<string, string>,
                fileName: string, text: string, now: int) returns (r: Outcome)
    requires lang.Valid() && scope.Valid()
    modifies lang, scope, disk
    ensures lang.Valid() && scope.Valid()
    ensures D.Step(r, D.World(lang.caches, scope.groups, disk.files))
      == SaveFileEffect(D.World(old(lang.caches), old(scope.groups), old(disk.files)), lang.dir, lang.json, scope.json,
                        snippetsDir, b, commentOf, headers, fileName, text, now)
  {
    ghost var w := D.World(lang.caches, scope.groups, disk.files);
    var route := RouteOf(fileName, snippetsDir, b);
    assert SaveFileEffect(w, lang.dir, lang.json, scope.json, snippetsDir, b, commentOf, headers, fileName, text, now)
      == RouteEffect(w, lang.dir, lang.json, scope.json, route, commentOf, headers, fileName, text, now);
    match route {
      case RefreshLanguages =>
        r := Done;
        assert RouteEffect(w, lang.dir, lang.json, scope.json, route, commentOf, headers, fileName, text, now) == D.Step(r, w);
      case OpenScope =>
        ghost var o := S.OpenEffect(w.groups, w.files, fileName, text, scope.json.parse);
        var threw := scope.OpenFile(disk, fileName, text);
        r := if threw then Crashed else Done;
        assert RouteEffect(w, lang.dir, lang.json, scope.json, route, commentOf, headers, fileName, text, now) == D.Step(r, D.World(w.caches, o.groups, w.files));
      case SaveLanguage(l, key) =>
        var snippet := Codec.Text2Snippet(text, l, commentOf, headers);
        r := lang.SaveSnippet(disk, l, key, LanguagePatch(snippet), now);
        LanguageRoute(w, lang.dir, lang.json, scope.json, route, commentOf, headers, fileName, text, now);
      case SaveScope(l) =>
        var snippet := Codec.Text2Snippet(text, l, commentOf, headers);
        r := scope.SaveSnippet(disk, Lift(snippet), now);
        ScopeRoute(w, lang.dir, lang.json, scope.json, route, commentOf, headers, fileName, text, now);
      case Ignore =>
        r := Skipped;
        assert RouteEffect(w, lang.dir, lang.json, scope.json, route, commentOf, headers, fileName, text, now) == D.Step(r, w);
    }
  }

  /** `deactivate()`: the evaluated-JSON cache is emptied. */
  method Deactivate<V>(cache: Utils.JsonCache<V>)
    modifies cache
    ensures cache.entries == map[]
  {
    cache.Clear();
  }

  // ----- properties of the routing -----

  /** The base name of a path ending in `/b` is `b`. */
  lemma {:induction false} BasenameJoin(dir: string, b: string)
    requires '/' !in b
    ensures Basename(dir + "/" + b) == b
    decreases |b|
  {
    var p := dir + "/" + b;
    if |b| == 0 {
      assert p[|p| - 1] == '/';
    } else {
      assert b[|b| - 1] in b;
      assert p[..|p| - 1] == dir + "/" + b[..|b| - 1];
      assert b[..|b| - 1] <= b;
      BasenameJoin(dir, b[..|b| - 1]);
      assert b[..|b| - 1] + [b[|b| - 1]] == b;
    }
  }

  /** Mapping `/` to `-` and back gives back a string without `-`. */
  lemma ReplaceBack(s: string)
    requires '-' !in s
    ensures Replace(Replace(s, '/', '-'), '-', '/') == s
  {
  }

  /** A two-part name splits back into its parts. */
  lemma SplitTwo(a: string, c: string)
    requires '.' !in a && '.' !in c
    ensures Split(a + "." + c, '.') == [a, c]
  {
    SplitCons(a, '.', c);
    SplitPlain(c, '.');
  }

  /** The base name of a temporary file, less its extension. */
  lemma StemOf(tmp: string, name: string, ext: string)
    requires '/' !in name && '/' !in ext && |ext| > 0 && '.' in name
    ensures Stem(tmp + "/" + name + ext, ext) == name
  {
    assert tmp + "/" + name + ext == tmp + "/" + (name + ext);
    assert forall i :: 0 <= i < |name + ext| ==> (name + ext)[i] in name || (name + ext)[i] in ext;
    BasenameJoin(tmp, name + ext);
    var b := name + ext;
    assert b[|b| - |ext|..] == ext;
    assert b[..|b| - |ext|] == name;
    assert |b| > |ext|;
  }

  /** No file name ends with two of the four suffixes, so at most one
      branch of the handler acts. */
  lemma SuffixesDisjoint(s: string)
    ensures !(EndsWith(s, ".json") && EndsWith(s, ".code-snippets"))
    ensures !(EndsWith(s, ".json") && EndsWith(s, ".snippet"))
    ensures !(EndsWith(s, ".json") && EndsWith(s, ".scopesnippet"))
    ensures !(EndsWith(s, ".code-snippets") && EndsWith(s, ".snippet"))
    ensures !(EndsWith(s, ".code-snippets") && EndsWith(s, ".scopesnippet"))
    ensures !(EndsWith(s, ".snippet") && EndsWith(s, ".scopesnippet"))
  {
    if |s| > 0 {
      var last := s[|s| - 1];
      assert EndsWith(s, ".json") ==> last == 'n';
      assert EndsWith(s, ".code-snippets") ==> last == 's';
      assert EndsWith(s, ".snippet") ==> last == 't';
      assert EndsWith(s, ".scopesnippet") ==> last == 't';
      if |s| >= 8 {
        assert EndsWith(s, ".snippet") ==> s[|s| - 8] == '.';
        assert EndsWith(s, ".scopesnippet") ==> s[|s| - 8] == 'e';
      }
    }
  }

  /** Saving the temporary file of snippet `key` of `lang` routes it back
      to that snippet: the file name inverts the name `editSnippet` gave it,
      for every key, whenever the language id holds no `.` and no `/`. */
  lemma SnippetTempRoutes(tmp: string, snippetsDir: string, b: Base64, key: string, lang: string)
    requires Lawful64(b)
    requires '.' !in lang && '/' !in lang
    ensures RouteOf(SnippetTempName(tmp, b, key, lang), snippetsDir, b) == SaveLanguage(lang, key)
  {
    var enc := b.encode(key);
    var name := Replace(enc, '/', '-');
    assert '/' !in name && '.' !in name && '-' !in enc;
    var stem := name + "." + lang;
    assert '/' !in stem && '.' in stem by {
      assert stem[|name|] == '.';
    }
    var fileName := SnippetTempName(tmp, b, key, lang);
    assert fileName == tmp + "/" + stem + ".snippet";
    StemOf(tmp, stem, ".snippet");
    SplitTwo(name, lang);
    ReplaceBack(enc);
    SuffixesDisjoint(fileName);
    assert EndsWith(fileName, ".snippet");
  }

  /** Saving the temporary file of a scope snippet routes it to a scope
      save in the language it was opened in. */
  lemma ScopeTempRoutes(tmp: string, snippetsDir: string, b: Base64, tag: string, lang: string)
    requires '.' !in tag && '/' !in tag && '.' !in lang && '/' !in lang
    ensures RouteOf(ScopeTempName(tmp, tag, lang), snippetsDir, b) == SaveScope(lang)
  {
    var stem := tag + "." + lang;
    assert '/' !in stem && '.' in stem by {
      assert stem[|tag|] == '.';
    }
    var fileName := ScopeTempName(tmp, tag, lang);
    assert fileName == tmp + "/" + stem + ".scopesnippet";
    StemOf(tmp, stem, ".scopesnippet");
    SplitTwo(tag, lang);
    SuffixesDisjoint(fileName);
    assert EndsWith(fileName, ".scopesnippet");
  }

  /** Saving the temporary file of snippet `key` of `lang` with text that
      parses to a snippet with a prefix and a body stores that snippet:
      afterwards the language's document holds, under `key`, every field
      the text gave other than `languageId`, `key` and `description`; it
      succeeds exactly when the language's file can be read. */
  lemma SavedTempFileStores(w: D.World, dir: string, ljson: JsonCodec, sjson: JsonCodec, snippetsDir: string,
                            b: Base64, commentOf: map<string, string>, headers: map<string, string>,
                            tmp: string, key: string, lang: string, text: string, now: int)
    requires Lawful64(b) && Lawful(ljson)
    requires '.' !in lang && '/' !in lang
    requires L.SnippetPath(dir, lang) !in w.files && lang in w.caches ==> w.caches[lang].t < now
    requires Acceptable(LanguagePatch(Codec.Decode(text, lang, commentOf, headers)))
    ensures var s := SaveFileEffect(w, dir, ljson, sjson, snippetsDir, b, commentOf, headers,
                                    SnippetTempName(tmp, b, key, lang), text, now);
      var snippet := Codec.Decode(text, lang, commentOf, headers);
      var l := L.Load(s.after.caches, s.after.files, L.SnippetPath(dir, lang), lang, ljson.parse);
      && s.after.groups == w.groups
      && (s.outcome == Done <==> L.Load(w.caches, w.files, L.SnippetPath(dir, lang), lang, ljson.parse).Got?)
      && (s.outcome == Done ==>
          && l.Got? && Get(l.cache.data, key).Some?
          && forall f :: f in snippet && f != "languageId" && f != "key" && f != "description" ==>
               Field(Get(l.cache.data, key).value, f) == Field(snippet, f))
  {
    SnippetTempRoutes(tmp, snippetsDir, b, key, lang);
    var snippet := Codec.Decode(text, lang, commentOf, headers);
    var p := LanguagePatch(snippet);
    var s0 := L.State(w.caches, w.files);
    L.SavePersists(s0, dir, ljson, lang, key, p, now);
    var e := L.SaveEffect(s0, dir, ljson, lang, key, p, now);
    var name := SnippetTempName(tmp, b, key, lang);
    LanguageRoute(w, dir, ljson, sjson, SaveLanguage(lang, key), commentOf, headers, name, text, now);
    assert SaveFileEffect(w, dir, ljson, sjson, snippetsDir, b, commentOf, headers, name, text, now)
      == D.Step(e.outcome, D.World(e.after.caches, w.groups, e.after.files));
    if e.outcome == Done {
      var before := L.Load(w.caches, w.files, L.SnippetPath(dir, lang), lang, ljson.parse);
      var r := Get(SaveData(before.cache.data, key, p), key).value;
      forall f | f in snippet && f != "languageId" && f != "key" && f != "description"
        ensures Field(r, f) == Field(snippet, f)
      {
        assert f in p;
      }
    }
  }
}
