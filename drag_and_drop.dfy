/** The drag-and-drop controller of src/DragAndDropController.js, shared by
    both trees. A drop copies the payload into the store of the tree it
    lands on (`onDrop`); only when that returns `true` is the snippet
    deleted from the store its payload's `type` names, without a second
    confirmation. The two steps are not atomic: a failed delete leaves the
    copy in place. */
module DragAndDrop {
  import opened Strings
  import opened Records
  import opened Files
  import L = LanguageStore
  import S = ScopeStore

  /** The `text/easy-snippet` item of a drop: absent, the object set by a
      drag in this window, or a string from elsewhere. */
  datatype Transfer = NoTransfer | ObjectValue(rec: Record) | StringValue(text: string)

  /** The payload `handleDrop` goes on with: nothing when the item is
      missing or empty, or when its string does not parse. */
  function Received(t: Transfer, parseJson: string -> Option<Record>): (r: Option<Record>)
    ensures t.NoTransfer? || t == StringValue("") ==> r.None?
    ensures t.ObjectValue? ==> r == Some(t.rec)
  {
    match t
    case NoTransfer => None
    case ObjectValue(rec) => Some(rec)
    case StringValue(text) => if text == "" then None else parseJson(text)
  }

  /** The node a drop lands on, in the tree it belongs to. */
  datatype Target = LanguageTarget(lnode: Option<L.Node>) | ScopeTarget(snode: Option<S.Node>)

  /** Both stores and the files they share. */
  datatype World = World(caches: map<string, L.Cache>, groups: seq<S.Group>, files: map<string, FileEntry>)

  /** One step's outcome and the world after it. */
  datatype Step = Step(outcome: Outcome, after: World)

  /** What a drop did: the copy, the delete, and the world after both. */
  datatype Moved = Moved(copied: Outcome, removed: Outcome, after: World)

  /** A scope node that is shown belongs to a group that exists. */
  predicate Anchored(groups: seq<S.Group>, target: Target) {
    target.ScopeTarget? && target.snode.Some? ==> S.IndexOf(groups, target.snode.value.filepath).Some?
  }

  /** `this.tree.onDrop(target, data)`. */
  function CopyEffect(w: World, dir: string, ljson: JsonCodec, sjson: JsonCodec, target: Target, data: Record,
                      confirmed: bool, now: int): Step
    requires Anchored(w.groups, target)
  {
    match target
    case LanguageTarget(n) =>
      var e := L.DropEffect(L.State(w.caches, w.files), dir, ljson, n, data, confirmed, now);
      Step(e.outcome, World(e.after.caches, w.groups, e.after.files))
    case ScopeTarget(n) =>
      var e := S.DropEffect(S.State(w.groups, w.files), sjson, n, data, confirmed, now);
      Step(e.outcome, World(w.caches, e.after.groups, e.after.files))
  }

  /** The store a payload's `type` names; `None` for a falsy type. */
  function Home(data: Record): Option<string> {
    if Truthy(Field(data, "type")) then Some(PropertyKey(Field(data, "type"))) else None
  }

  /** `executeCommand(data.type + ".deleteSnippet", data, true)` when the
      type is set; a command of an unknown type is rejected unrun. */
  function RemoveEffect(w: World, dir: string, ljson: JsonCodec, sjson: JsonCodec, data: Record, now: int): Step {
    match Home(data)
    case None => Step(Skipped, w)
    case Some(home) =>
      if home == "snippetExplorer" then
        var e := L.DeleteDroppedEffect(L.State(w.caches, w.files), dir, ljson, data, now);
        Step(e.outcome, World(e.after.caches, w.groups, e.after.files))
      else if home == "snippetScopeExplorer" then
        var e := S.DeleteDroppedEffect(S.State(w.groups, w.files), sjson, data, now);
        Step(e.outcome, World(w.caches, e.after.groups, e.after.files))
      else Step(Crashed, w)
  }

  /** `handleDrop(target, sources)`: the copy, and the delete only after a
      copy that returned `true`. */
  function DropEffect(w: World, dir: string, ljson: JsonCodec, sjson: JsonCodec, target: Target, t: Transfer,
                      parseJson: string -> Option<Record>, confirmed: bool, now: int): Moved
    requires Anchored(w.groups, target)
  {
    match Received(t, parseJson)
    case None => Moved(Skipped, Skipped, w)
    case Some(data) =>
      var c := CopyEffect(w, dir, ljson, sjson, target, data, confirmed, now);
      if c.outcome != Done then Moved(c.outcome, Skipped, c.after)
      else
        var r := RemoveEffect(c.after, dir, ljson, sjson, data, now);
        Moved(Done, r.outcome, r.after)
  }

  /** `handleDrop` over the two stores and the disk. */
  method HandleDrop(lang: L.LanguageStore, scope: S.ScopeStore, disk: Disk, target: Target, t: Transfer,
                    parseJson: string -> Option<Record>, confirmed: bool, now: int)
    returns (copied: Outcome, removed: Outcome)
    requires lang.Valid() && scope.Valid()
    requires Anchored(scope.groups, target)
    modifies lang, scope, disk
    ensures lang.Valid() && scope.Valid()
    ensures Moved(copied, removed, World(lang.caches, scope.groups, disk.files))
      == DropEffect(World(old(lang.caches), old(scope.groups), old(disk.files)), lang.dir, lang.json, scope.json,
                    target, t, parseJson, confirmed, now)
  {
    ghost var w := World(lang.caches, scope.groups, disk.files);
    var received := Received(t, parseJson);
    if received.None? {
      return Skipped, Skipped;
    }
    var data := received.value;
    match target {
      case LanguageTarget(n) =>
        copied := lang.OnDrop(disk, n, data, confirmed, now);
      case ScopeTarget(n) =>
        copied := scope.OnDrop(disk, n, data, confirmed, now);
    }
    ghost var c := World(lang.caches, scope.groups, disk.files);
    assert Step(copied, c) == CopyEffect(w, lang.dir, lang.json, scope.json, target, data, confirmed, now);
    if copied != Done {
      return copied, Skipped;
    }
    var home := Home(data);
    if home.None? {
      removed := Skipped;
    } else if home.value == "snippetExplorer" {
      removed := lang.DeleteDropped(disk, data, now);
    } else if home.value == "snippetScopeExplorer" {
      removed := scope.DeleteDropped(disk, data, now);
    } else {
      removed := Crashed;
    }
    assert Step(removed, World(lang.caches, scope.groups, disk.files)) == RemoveEffect(c, lang.dir, lang.json, scope.json, data, now);
  }

  /** `handleDrag(nodes)` on the language tree: only the first node is
      dragged, and a group gives no payload. */
  method HandleLanguageDrag(lang: L.LanguageStore, disk: Disk, nodes: seq<L.Node>) returns (t: Transfer, crashed: bool)
    requires lang.Valid()
    modifies lang
    ensures lang.Valid()
    ensures |nodes| == 0 || nodes[0].GroupNode? ==> t == NoTransfer && !crashed && lang.caches == old(lang.caches)
    ensures t.ObjectValue? ==>
      && |nodes| > 0 && nodes[0].SnippetNode?
      && Field(t.rec, "type") == Some(Str("snippetExplorer"))
      && Field(t.rec, "languageId") == Some(Str(nodes[0].languageId))
      && Field(t.rec, "key") == Some(Str(nodes[0].name))
    ensures !t.StringValue?
    ensures |nodes| > 0 && nodes[0].SnippetNode? ==>
      var n := nodes[0];
      var l := L.Load(old(lang.caches), disk.files, L.SnippetPath(lang.dir, n.languageId), n.languageId, lang.json.parse);
      && lang.caches == L.Commit(old(lang.caches), n.languageId, l)
      && crashed == l.Unreadable?
      && t == if l.Got? then ObjectValue(L.Payload(Get(l.cache.data, n.name), n.languageId, n.name)) else NoTransfer
  {
    if |nodes| == 0 {
      return NoTransfer, false;
    }
    var payload;
    payload, crashed := lang.GetDragData(disk, nodes[0]);
    t := if payload.Some? then ObjectValue(payload.value) else NoTransfer;
  }

  /** `handleDrag(nodes)` on the scope tree. */
  function ScopeDrag(scope: S.ScopeStore, nodes: seq<S.Node>): (t: Transfer)
    reads scope
    ensures t.ObjectValue? <==> |nodes| > 0 && nodes[0].SnippetNode?
    ensures t.ObjectValue? ==>
      && Field(t.rec, "type") == Some(Str("snippetScopeExplorer"))
      && Field(t.rec, "filepath") == Some(Str(nodes[0].filepath))
      && Field(t.rec, "key") == Some(Str(nodes[0].name))
    ensures !t.StringValue?
  {
    if |nodes| == 0 then NoTransfer
    else
      match scope.DragData(nodes[0])
      case None => NoTransfer
      case Some(r) => ObjectValue(r)
  }

  // ----- properties of the protocol -----

  /** No payload, an empty one or one that does not parse: no store is
      called and nothing changes. */
  lemma NothingReceived(w: World, dir: string, ljson: JsonCodec, sjson: JsonCodec, target: Target, t: Transfer,
                        parseJson: string -> Option<Record>, confirmed: bool, now: int)
    requires Anchored(w.groups, target)
    requires t.NoTransfer? || t == StringValue("") || (t.StringValue? && parseJson(t.text).None?)
    ensures DropEffect(w, dir, ljson, sjson, target, t, parseJson, confirmed, now) == Moved(Skipped, Skipped, w)
  {
  }

  /** The delete runs only after a copy that returned `true`; otherwise the
      world is what the copy left. */
  lemma DeleteFollowsCopy(w: World, dir: string, ljson: JsonCodec, sjson: JsonCodec, target: Target, t: Transfer,
                          parseJson: string -> Option<Record>, confirmed: bool, now: int)
    requires Anchored(w.groups, target)
    ensures var m := DropEffect(w, dir, ljson, sjson, target, t, parseJson, confirmed, now);
      && (m.removed != Skipped ==> m.copied == Done)
      && (Received(t, parseJson).Some? && m.copied != Done ==>
          m.after == CopyEffect(w, dir, ljson, sjson, target, Received(t, parseJson).value, confirmed, now).after)
  {
  }

  /** The delete goes to the store named by the payload's `type`: the
      other store is left as the copy left it. */
  lemma DeleteGoesHome(w: World, dir: string, ljson: JsonCodec, sjson: JsonCodec, data: Record, now: int)
    ensures var r := RemoveEffect(w, dir, ljson, sjson, data, now);
      && (Home(data) == Some("snippetExplorer") ==>
          r.after.groups == w.groups
          && r == (var e := L.DeleteDroppedEffect(L.State(w.caches, w.files), dir, ljson, data, now);
                   Step(e.outcome, World(e.after.caches, w.groups, e.after.files))))
      && (Home(data) == Some("snippetScopeExplorer") ==> r.after.caches == w.caches)
      && (Home(data).None? ==> r == Step(Skipped, w))
      && (Home(data).Some? && Home(data).value !in {"snippetExplorer", "snippetScopeExplorer"} ==> r == Step(Crashed, w))
  {
  }

  /** The payload's key already names a snippet in the target. */
  predicate Clash(w: World, dir: string, ljson: JsonCodec, target: Target, data: Record)
    requires Anchored(w.groups, target)
  {
    var key := PropertyKey(Field(data, "key"));
    match target
    case LanguageTarget(n) =>
      && n.Some?
      && var lang := L.TargetLanguage(n.value);
      && var l := L.Load(w.caches, w.files, L.SnippetPath(dir, lang), lang, ljson.parse);
      && l.Got? && key in Keys(l.cache.data)
    case ScopeTarget(n) =>
      && n.Some?
      && var g := w.groups[S.IndexOf(w.groups, n.value.filepath).value];
      && g.view.Some? && key in Keys(g.view.value.data)
  }

  /** A declined overwrite: `onDrop` returns without writing, so no
      document changes and nothing is deleted. */
  lemma DeclinedOverwrite(w: World, dir: string, ljson: JsonCodec, sjson: JsonCodec, target: Target, t: Transfer,
                          parseJson: string -> Option<Record>, now: int)
    requires Anchored(w.groups, target)
    requires Received(t, parseJson).Some? && Clash(w, dir, ljson, target, Received(t, parseJson).value)
    ensures var m := DropEffect(w, dir, ljson, sjson, target, t, parseJson, false, now);
      && m.copied == Skipped && m.removed == Skipped
      && m.after.files == w.files && m.after.groups == w.groups
      && (target.ScopeTarget? ==> m.after == w)
  {
    var data := Received(t, parseJson).value;
    DeclinedCopy(w, dir, ljson, sjson, target, data, now);
  }

  /** The copy half of a declined overwrite writes nothing. */
  lemma DeclinedCopy(w: World, dir: string, ljson: JsonCodec, sjson: JsonCodec, target: Target, data: Record, now: int)
    requires Anchored(w.groups, target) && Clash(w, dir, ljson, target, data)
    ensures var c := CopyEffect(w, dir, ljson, sjson, target, data, false, now);
      && c.outcome == Skipped && c.after.files == w.files && c.after.groups == w.groups
      && (target.ScopeTarget? ==> c.after == w)
  {
    match target
    case LanguageTarget(n) =>
      L.DropDeclined(L.State(w.caches, w.files), dir, ljson, n.value, data, now);
    case ScopeTarget(n) =>
      S.DropDeclined(S.State(w.groups, w.files), sjson, n.value, data, now);
  }

  /** A language snippet file is never a `*.code-snippets` file. */
  lemma LanguageFileNotScoped(dir: string, lang: string)
    ensures !EndsWith(L.SnippetPath(dir, lang), S.Suffix)
  {
    var p := L.SnippetPath(dir, lang);
    assert p[|p| - 1] == 'n';
    assert S.Suffix[|S.Suffix| - 1] == 's';
  }

  /** A completed move from the language tree into a scope group: the group
      holds the snippet's prefix and body under its key, and the snippet is
      gone from its language. */
  lemma LanguageToScope(w: World, dir: string, ljson: JsonCodec, sjson: JsonCodec, n: S.Node, t: Transfer,
                        parseJson: string -> Option<Record>, confirmed: bool, now: int)
    requires Lawful(ljson) && Lawful(sjson) && S.Shaped(w.groups) && S.Synced(w.groups, sjson.parse)
    requires S.IndexOf(w.groups, n.filepath).Some?
    requires forall l :: l in w.caches ==> w.caches[l].t < now
    requires Received(t, parseJson).Some? && Home(Received(t, parseJson).value) == Some("snippetExplorer")
    ensures var data := Received(t, parseJson).value;
      var m := DropEffect(w, dir, ljson, sjson, ScopeTarget(Some(n)), t, parseJson, confirmed, now);
      m.removed == Done ==>
        && var i := S.IndexOf(w.groups, n.filepath).value;
        && i < |m.after.groups| && m.after.groups[i].view.Some?
        && var rec := Get(m.after.groups[i].view.value.data, PropertyKey(Field(data, "key")));
        && rec.Some?
        && Field(rec.value, "prefix") == Field(data, "prefix") && Field(rec.value, "body") == Field(data, "body")
        && var lang := PropertyKey(Field(data, "languageId"));
        && var source := L.Load(m.after.caches, m.after.files, L.SnippetPath(dir, lang), lang, ljson.parse);
        && source.Got? && PropertyKey(L.DroppedName(data)) !in Keys(source.cache.data)
  {
    var data := Received(t, parseJson).value;
    var target := ScopeTarget(Some(n));
    var m := DropEffect(w, dir, ljson, sjson, target, t, parseJson, confirmed, now);
    if m.removed == Done {
      var c := CopyEffect(w, dir, ljson, sjson, target, data, confirmed, now);
      S.DropCopies(S.State(w.groups, w.files), sjson, Some(n), data, confirmed, now);
      L.DeleteDroppedRemoves(L.State(w.caches, c.after.files), dir, ljson, data, now);
      assert m.after.groups == c.after.groups;
    }
  }

  /** A completed move from a scope group into the language tree: the
      target language holds the snippet's prefix and body under its key,
      and the snippet is gone from its group. */
  lemma ScopeToLanguage(w: World, dir: string, ljson: JsonCodec, sjson: JsonCodec, n: L.Node, t: Transfer,
                        parseJson: string -> Option<Record>, confirmed: bool, now: int)
    requires Lawful(ljson) && Lawful(sjson) && S.Shaped(w.groups) && S.Synced(w.groups, sjson.parse)
    requires forall l :: l in w.caches ==> w.caches[l].t < now
    requires Received(t, parseJson).Some? && Home(Received(t, parseJson).value) == Some("snippetScopeExplorer")
    ensures var data := Received(t, parseJson).value;
      var m := DropEffect(w, dir, ljson, sjson, LanguageTarget(Some(n)), t, parseJson, confirmed, now);
      m.removed == Done ==>
        && var lang := L.TargetLanguage(n);
        && var target := L.Load(m.after.caches, m.after.files, L.SnippetPath(dir, lang), lang, ljson.parse);
        && target.Got?
        && var rec := Get(target.cache.data, PropertyKey(Field(data, "key")));
        && rec.Some?
        && Field(rec.value, "prefix") == Field(data, "prefix") && Field(rec.value, "body") == Field(data, "body")
        && Field(data, "filepath").Some? && Field(data, "filepath").value.Str?
        && var i := S.IndexOf(m.after.groups, Field(data, "filepath").value.s);
        && i.Some? && m.after.groups[i.value].view.Some?
        && PropertyKey(L.DroppedName(data)) !in Keys(m.after.groups[i.value].view.value.data)
  {
    var data := Received(t, parseJson).value;
    var target := LanguageTarget(Some(n));
    var m := DropEffect(w, dir, ljson, sjson, target, t, parseJson, confirmed, now);
    if m.removed == Done {
      var lang := L.TargetLanguage(n);
      var path := L.SnippetPath(dir, lang);
      var c := CopyEffect(w, dir, ljson, sjson, target, data, confirmed, now);
      L.DropCopies(L.State(w.caches, w.files), dir, ljson, Some(n), data, confirmed, now);
      var s1 := S.State(w.groups, c.after.files);
      var e := S.DeleteDroppedEffect(s1, sjson, data, now);
      assert m.after == World(c.after.caches, e.after.groups, e.after.files);
      S.DeleteDroppedRemoves(s1, sjson, data, now);
      S.DeleteDroppedTouches(s1, sjson, data, now);
      LanguageFileNotScoped(dir, lang);
      var fp := Field(data, "filepath").value.s;
      L.LoadOtherFile(c.after.caches, c.after.files, path, lang, ljson.parse, fp, e.after.files[fp]);
    }
  }

  /** A completed move between two languages of the language tree: the
      target language holds the snippet's prefix and body under its key,
      the snippet is gone from its own language, and the two languages are
      different ones. */
  lemma LanguageToLanguage(w: World, dir: string, ljson: JsonCodec, sjson: JsonCodec, n: L.Node, t: Transfer,
                           parseJson: string -> Option<Record>, confirmed: bool, now: int)
    requires Lawful(ljson)
    requires forall l :: l in w.caches ==> w.caches[l].t < now
    requires Received(t, parseJson).Some? && Home(Received(t, parseJson).value) == Some("snippetExplorer")
    ensures var data := Received(t, parseJson).value;
      var m := DropEffect(w, dir, ljson, sjson, LanguageTarget(Some(n)), t, parseJson, confirmed, now);
      m.removed == Done ==>
        && var dst := L.TargetLanguage(n);
        && var src := PropertyKey(Field(data, "languageId"));
        && dst != src
        && m.after.groups == w.groups
        && var target := L.Load(m.after.caches, m.after.files, L.SnippetPath(dir, dst), dst, ljson.parse);
        && target.Got?
        && var rec := Get(target.cache.data, PropertyKey(Field(data, "key")));
        && rec.Some?
        && Field(rec.value, "prefix") == Field(data, "prefix") && Field(rec.value, "body") == Field(data, "body")
        && var source := L.Load(m.after.caches, m.after.files, L.SnippetPath(dir, src), src, ljson.parse);
        && source.Got? && PropertyKey(L.DroppedName(data)) !in Keys(source.cache.data)
  {
    var data := Received(t, parseJson).value;
    var target := LanguageTarget(Some(n));
    var m := DropEffect(w, dir, ljson, sjson, target, t, parseJson, confirmed, now);
    if m.removed == Done {
      var dst := L.TargetLanguage(n);
      var src := PropertyKey(Field(data, "languageId"));
      var s0 := L.State(w.caches, w.files);
      var c := CopyEffect(w, dir, ljson, sjson, target, data, confirmed, now);
      var s1 := L.State(c.after.caches, c.after.files);
      L.DropCopies(s0, dir, ljson, Some(n), data, confirmed, now);
      L.DropTouchesOwn(s0, dir, ljson, n, data, confirmed, now);
      assert L.DropEffect(s0, dir, ljson, Some(n), data, confirmed, now).after == s1;
      L.DeleteDroppedRemoves(s1, dir, ljson, data, now);
      var key := PropertyKey(L.DroppedName(data));
      var e := L.DeleteEffect(s1, dir, ljson, src, key, true, false, now);
      assert m.after == World(e.after.caches, w.groups, e.after.files);
      L.DeleteTouchesOwn(s1, dir, ljson, src, key, true, false, now);
      L.LoadUntouched(s1, e.after, dir, src, dst, ljson.parse);
    }
  }
}
