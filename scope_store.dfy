/** The scope snippet store of src/SnippetScopeNodeProvider.js: a list of
    groups, one per opened `*.code-snippets` file. A group holds the text it
    was last parsed from, the parsed document and the sorted children shown
    under it; re-opening a file re-parses it only when its text changed.

    As for the language store, every operation is specified by a function
    from the state before (the groups and the files) to an `Effect`, the
    methods of `ScopeStore` are proved equal to those functions, and the
    lemmas at the end are about the functions. A tree node's parent group is
    found by its file path. */
module ScopeStore {
  import opened Strings
  import opened Sorting
  import opened Records
  import opened Files

  /** What a group shows once its file has been parsed. */
  datatype View = View(text: string, data: Document, children: seq<Item>)

  /** A group; `view` is `None` while its file has never parsed. */
  datatype Group = Group(filepath: string, view: Option<View>)

  datatype State = State(groups: seq<Group>, files: map<string, FileEntry>)

  datatype Effect = Effect(outcome: Outcome, after: State)

  /** A node of the scope tree: a group, or a snippet in the group of that
      file. */
  datatype Node = GroupNode(filepath: string) | SnippetNode(filepath: string, name: string)

  const Suffix := ".code-snippets"

  /** `this.data.find(item => item.filepath == filepath)`, as an index. */
  function IndexOf(groups: seq<Group>, fp: string): (r: Option<nat>)
    ensures r.Some? ==> r.value < |groups| && groups[r.value].filepath == fp
    ensures r.None? <==> forall i :: 0 <= i < |groups| ==> groups[i].filepath != fp
  {
    if |groups| == 0 then None
    else if groups[0].filepath == fp then Some(0)
    else
      match IndexOf(groups[1..], fp)
      case Some(i) => Some(i + 1)
      case None =>
        assert forall i :: 1 <= i < |groups| ==> groups[i] == groups[1..][i - 1];
        None
  }

  /** One group per path, only `*.code-snippets` paths, and children that
      list one entry per key. */
  predicate Shaped(groups: seq<Group>) {
    (forall i, j :: 0 <= i < j < |groups| ==> groups[i].filepath != groups[j].filepath)
    && (forall i :: 0 <= i < |groups| ==> EndsWith(groups[i].filepath, Suffix))
    && (forall i :: 0 <= i < |groups| && groups[i].view.Some? ==>
          Consistent(groups[i].view.value.data, groups[i].view.value.children))
  }

  /** `item.text` and `item.data` agree: the data is what the text parses to. */
  predicate Synced(groups: seq<Group>, parse: string -> Option<Document>) {
    forall i :: 0 <= i < |groups| && groups[i].view.Some? ==>
      parse(groups[i].view.value.text) == Some(groups[i].view.value.data)
  }

  /** In a shaped list a group is found at its own index. */
  lemma IndexOfShaped(groups: seq<Group>, i: nat)
    requires Shaped(groups) && i < |groups|
    ensures IndexOf(groups, groups[i].filepath) == Some(i)
  {
  }

  /** The text `openFile` works on: the given text, else the file's, else
      `"{}"` when the file cannot be read. */
  function Source(files: map<string, FileEntry>, fp: string, text: string): string {
    if text != "" then text else if fp in files then files[fp].text else "{}"
  }

  /** The groups with one for `fp`, appended if it was missing. */
  function Pushed(groups: seq<Group>, fp: string): (gs: seq<Group>)
    ensures IndexOf(gs, fp).Some?
    ensures |gs| >= |groups| && gs[..|groups|] == groups
  {
    if IndexOf(groups, fp).Some? then groups
    else
      var gs := groups + [Group(fp, None)];
      assert gs[|groups|].filepath == fp;
      gs
  }

  datatype Opened = Opened(groups: seq<Group>, threw: bool)

  /** `openFile(filepath, text)`: other paths are ignored; the group is
      pushed before parsing, so it stays (without a view) when the parse
      throws; unchanged text is not re-parsed. */
  function OpenEffect(groups: seq<Group>, files: map<string, FileEntry>, fp: string, text: string,
                      parse: string -> Option<Document>): Opened
  {
    if !EndsWith(fp, Suffix) then Opened(groups, false)
    else
      var t := Source(files, fp, text);
      var gs := Pushed(groups, fp);
      var i := IndexOf(gs, fp).value;
      if gs[i].view.Some? && gs[i].view.value.text == t then Opened(gs, false)
      else
        match parse(t)
        case None => Opened(gs, true)
        case Some(d) => Opened(gs[i := Group(fp, Some(View(t, d, ListingOf(d))))], false)
  }

  datatype Found = Found(groups: seq<Group>, index: Option<nat>, threw: bool)

  /** `findGroup(filepath)`: an existing group, or whatever opening the file
      gives (nothing for a path that is not `*.code-snippets`). */
  function FindEffect(groups: seq<Group>, files: map<string, FileEntry>, fp: string,
                      parse: string -> Option<Document>): (f: Found)
    ensures f.index.Some? ==> f.index.value < |f.groups| && f.groups[f.index.value].filepath == fp
  {
    if IndexOf(groups, fp).Some? then Found(groups, IndexOf(groups, fp), false)
    else
      var o := OpenEffect(groups, files, fp, "", parse);
      if o.threw then Found(o.groups, None, true) else Found(o.groups, IndexOf(o.groups, fp), false)
  }

  /** The state after the document of group `i` is rewritten as `d`: the
      file and `item.text` get the same serialised text. */
  function Rewritten(groups: seq<Group>, files: map<string, FileEntry>, i: nat, fp: string, json: JsonCodec,
                     d: Document, children: seq<Item>, now: int): State
    requires i < |groups|
  {
    var text := json.stringify(d);
    State(groups[i := Group(fp, Some(View(text, d, children)))], files[fp := FileEntry(text, now)])
  }

  /** `description` is not one of the names `Rest` takes away. */
  lemma RestKeepsDescription(snippet: Patch)
    ensures PatchField(Rest(snippet), "description") == PatchField(snippet, "description")
  {
    assert |"description"| == 11 && |"filepath"| == 8 && |"key"| == 3;
  }

  /** `let {filepath, key, ...rest} = snippet`. */
  function Rest(snippet: Patch): (rest: Patch)
    ensures forall f :: f != "filepath" && f != "key" ==> PatchField(rest, f) == PatchField(snippet, f)
    ensures forall f :: f in rest <==> f in snippet && f != "filepath" && f != "key"
  {
    snippet - {"filepath", "key"}
  }

  /** `saveSnippet({filepath, key, ...rest})`. Past the four checks the
      group is found (or opened); with no group the file is still written
      and then `item.text` throws (line 374); a group whose file never
      parsed has no `data` and throws before writing. */
  function SaveEffect(s: State, json: JsonCodec, snippet: Patch, now: int): Effect {
    var filepath := PatchField(snippet, "filepath");
    var k := PatchField(snippet, "key");
    if !Truthy(filepath) || !Truthy(k) || !Acceptable(snippet) then Effect(Skipped, s)
    else if filepath.value.List? then Effect(Crashed, s)
    else
      var fp := filepath.value.s;
      var key := PropertyKey(k);
      var rest := Rest(snippet);
      var f := FindEffect(s.groups, s.files, fp, json.parse);
      if f.threw then Effect(Crashed, State(f.groups, s.files))
      else
        match f.index
        case None =>
          Effect(Crashed, State(f.groups, s.files[fp := FileEntry(json.stringify(SaveData([], key, rest)), now)]))
        case Some(i) =>
          match f.groups[i].view
          case None => Effect(Crashed, State(f.groups, s.files))
          case Some(v) =>
            var d := SaveData(v.data, key, rest);
            Effect(Done, Rewritten(f.groups, s.files, i, fp, json, d,
              SaveListing(v.children, key, PatchField(snippet, "description")), now))
  }

  /** `deleteSnippet(e, isForce)` for a snippet `key` of the group of `fp`:
      the key must exist before confirmation is asked. */
  function DeleteEffect(s: State, json: JsonCodec, fp: string, key: string, isForce: bool, confirmed: bool, now: int): Effect {
    if fp == "" then Effect(Skipped, s)
    else
      var f := FindEffect(s.groups, s.files, fp, json.parse);
      if f.threw then Effect(Crashed, State(f.groups, s.files))
      else
        match f.index
        case None => Effect(Skipped, State(f.groups, s.files))
        case Some(i) =>
          match f.groups[i].view
          case None => Effect(Crashed, State(f.groups, s.files))
          case Some(v) =>
            if key !in Keys(v.data) || (!isForce && !confirmed) then Effect(Skipped, State(f.groups, s.files))
            else Effect(Done, Rewritten(f.groups, s.files, i, fp, json, Delete(v.data, key), Without(v.children, key), now))
  }

  /** `renameSnippet(e)` of snippet `key` of the group of `fp` to the
      entered `name` ("" when the input box is dismissed). */
  function RenameEffect(s: State, json: JsonCodec, fp: string, key: string, name: string, confirmed: bool, now: int): Effect {
    if fp == "" then Effect(Skipped, s)
    else
      var f := FindEffect(s.groups, s.files, fp, json.parse);
      if f.threw then Effect(Crashed, State(f.groups, s.files))
      else
        match f.index
        case None => Effect(Skipped, State(f.groups, s.files))
        case Some(i) =>
          match f.groups[i].view
          case None => Effect(Crashed, State(f.groups, s.files))
          case Some(v) =>
            if key !in Keys(v.data) || name == "" || name == key || (name in Keys(v.data) && !confirmed) then
              Effect(Skipped, State(f.groups, s.files))
            else
              Effect(Done, Rewritten(f.groups, s.files, i, fp, json, Rename(v.data, key, name),
                RenameListing(v.children, key, name, name in Keys(v.data)), now))
  }

  /** `this.data.filter(x => x.filepath != filepath)`. */
  function Unlisted(groups: seq<Group>, fp: string): (r: seq<Group>)
    ensures forall g :: g in r <==> g in groups && g.filepath != fp
  {
    if |groups| == 0 then []
    else
      var rest := Unlisted(groups[1..], fp);
      assert forall g :: g in groups <==> g == groups[0] || g in groups[1..];
      if groups[0].filepath == fp then rest else [groups[0]] + rest
  }

  /** `deleteGroup(item)`: after confirmation the file is unlinked (which
      throws when it is missing) and the group dropped. */
  function DeleteGroupEffect(s: State, fp: string, confirmed: bool): Effect {
    if !confirmed then Effect(Skipped, s)
    else if fp !in s.files then Effect(Crashed, s)
    else Effect(Done, State(Unlisted(s.groups, fp), s.files - {fp}))
  }

  /** The snippet `onDrop` hands to `saveSnippet`. */
  function DropPatch(fp: string, data: Record): Patch {
    map["filepath" := Some(Str(fp)), "key" := Field(data, "key"), "prefix" := Field(data, "prefix"),
        "body" := Field(data, "body"), "description" := Field(data, "description"), "scope" := Field(data, "scope")]
  }

  /** The dropped snippet is filed under the target's file and the payload's key. */
  lemma DropPatchNames(fp: string, data: Record)
    ensures PatchField(DropPatch(fp, data), "filepath") == Some(Str(fp))
    ensures PatchField(DropPatch(fp, data), "key") == Field(data, "key")
  {
  }

  /** `onDrop(target, data)`: a drop outside any node throws; the target
      group is the node's group; a drop onto the payload's own file does
      nothing; an existing key needs confirmation. */
  function DropEffect(s: State, json: JsonCodec, target: Option<Node>, data: Record, confirmed: bool, now: int): Effect
    requires target.Some? ==> IndexOf(s.groups, target.value.filepath).Some?
  {
    match target
    case None => Effect(Crashed, s)
    case Some(t) =>
      var g := s.groups[IndexOf(s.groups, t.filepath).value];
      if LooseEquals(g.filepath, Field(data, "filepath")) then Effect(Skipped, s)
      else
        match g.view
        case None => Effect(Crashed, s)
        case Some(v) =>
          if PropertyKey(Field(data, "key")) in Keys(v.data) && !confirmed then Effect(Skipped, s)
          else SaveEffect(s, json, DropPatch(g.filepath, data), now)
  }

  /** Dropping onto a group that already has the key, without the
      overwrite confirmed, changes nothing. */
  lemma DropDeclined(s: State, json: JsonCodec, n: Node, data: Record, now: int)
    requires IndexOf(s.groups, n.filepath).Some?
    requires var g := s.groups[IndexOf(s.groups, n.filepath).value];
      g.view.Some? && PropertyKey(Field(data, "key")) in Keys(g.view.value.data)
    ensures DropEffect(s, json, Some(n), data, false, now) == Effect(Skipped, s)
  {
  }

  /** `deleteSnippet(data, true)` for a drag payload: the payload is resolved
      to a child of the group of its `filepath` (`getTreeItem`); when none
      matches, the snippet picker opens and is taken as dismissed. */
  function DeleteDroppedEffect(s: State, json: JsonCodec, data: Record, now: int): Effect {
    var path := Field(data, "filepath");
    if !(path.Some? && path.value.Str?) then Effect(Crashed, s)
    else
      var fp := path.value.s;
      var f := FindEffect(s.groups, s.files, fp, json.parse);
      if f.threw then Effect(Crashed, State(f.groups, s.files))
      else
        match f.index
        case None => Effect(Skipped, State(f.groups, s.files))
        case Some(i) =>
          match f.groups[i].view
          case None => Effect(Crashed, State(f.groups, s.files))
          case Some(v) =>
            var wanted := if Truthy(Field(data, "label")) then Field(data, "label") else Field(data, "key");
            if wanted.None? || PropertyKey(wanted) !in Labels(v.children) then Effect(Skipped, State(f.groups, s.files))
            else DeleteEffect(State(f.groups, s.files), json, fp, PropertyKey(wanted), true, false, now)
  }

  /** `getDragData(node)`: nothing for a group; for a snippet, its record
      with the fields that name where it came from. */
  function Payload(rec: Option<Record>, fp: string, key: string): (r: Record)
    ensures forall f :: f !in {"key", "filepath", "type"} ==> Field(r, f) == if rec.Some? then Field(rec.value, f) else None
    ensures Field(r, "type") == Some(Str("snippetScopeExplorer"))
    ensures Field(r, "key") == Some(Str(key)) && Field(r, "filepath") == Some(Str(fp))
  {
    rec.GetOr(map[])["key" := Str(key)]["filepath" := Str(fp)]["type" := Str("snippetScopeExplorer")]
  }

  class ScopeStore {
    const json: JsonCodec
    var groups: seq<Group>

    ghost predicate Valid()
      reads this
    {
      Lawful(json) && Shaped(groups) && Synced(groups, json.parse)
    }

    constructor(json: JsonCodec)
      requires Lawful(json)
      ensures this.json == json && groups == []
      ensures Valid()
    {
      this.json := json;
      groups := [];
    }

    /** `openFile(filepath, text)`; `threw` is the parse failure. */
    method OpenFile(disk: Disk, fp: string, text: string) returns (threw: bool)
      requires Valid()
      modifies this
      ensures Valid()
      ensures Opened(groups, threw) == OpenEffect(old(groups), disk.files, fp, text, json.parse)
    {
      ghost var o := OpenEffect(groups, disk.files, fp, text, json.parse);
      OpenKeepsValid(groups, disk.files, fp, text, json.parse);
      if !EndsWith(fp, Suffix) {
        return false;
      }
      var t := text;
      if t == "" {
        t := if fp in disk.files then disk.files[fp].text else "{}";
      }
      assert t == Source(disk.files, fp, text);
      ghost var gs := Pushed(groups, fp);
      if IndexOf(groups, fp).None? {
        groups := groups + [Group(fp, None)];
      }
      assert groups == gs;
      var i := IndexOf(groups, fp).value;
      if groups[i].view.Some? && groups[i].view.value.text == t {
        assert o == Opened(groups, false);
        return false;
      }
      var parsed := json.parse(t);
      if parsed.None? {
        assert o == Opened(groups, true);
        return true;
      }
      var children := BuildListing(parsed.value);
      groups := groups[i := Group(fp, Some(View(t, parsed.value, children)))];
      assert o == Opened(groups, false);
      threw := false;
    }

    /** `findGroup(filepath)`. */
    method FindGroup(disk: Disk, fp: string) returns (index: Option<nat>, threw: bool)
      requires Valid()
      modifies this
      ensures Valid()
      ensures Found(groups, index, threw) == FindEffect(old(groups), disk.files, fp, json.parse)
    {
      index := IndexOf(groups, fp);
      if index.Some? {
        return index, false;
      }
      threw := OpenFile(disk, fp, "");
      if threw {
        return None, true;
      }
      index := IndexOf(groups, fp);
    }

    /** `saveSnippet(snippet)`; `Done` is the `true` it returns. */
    method SaveSnippet(disk: Disk, snippet: Patch, now: int) returns (r: Outcome)
      requires Valid()
      modifies this, disk
      ensures Valid()
      ensures Effect(r, State(groups, disk.files)) == SaveEffect(State(old(groups), old(disk.files)), json, snippet, now)
    {
      SaveKeepsValid(State(groups, disk.files), json, snippet, now);
      var filepath := PatchField(snippet, "filepath");
      var k := PatchField(snippet, "key");
      if !Truthy(filepath) || !Truthy(k) || !Acceptable(snippet) {
        return Skipped;
      }
      if filepath.value.List? {
        return Crashed;
      }
      var fp := filepath.value.s;
      var key := PropertyKey(k);
      var rest := Rest(snippet);
      var index, threw := FindGroup(disk, fp);
      if threw {
        return Crashed;
      }
      if index.None? {
        // the file is written, then `item.text` is read from `undefined`
        disk.Write(fp, json.stringify(SaveData([], key, rest)), now);
        return Crashed;
      }
      var i := index.value;
      if groups[i].view.None? {
        return Crashed;
      }
      var v := groups[i].view.value;
      var d := SaveData(v.data, key, rest);
      var text := json.stringify(d);
      disk.Write(fp, text, now);
      groups := groups[i := Group(fp, Some(View(text, d, SaveListing(v.children, key, PatchField(snippet, "description")))))];
      r := Done;
    }

    /** `deleteSnippet(e, isForce)` for the child `key` of the group of `fp`. */
    method DeleteSnippet(disk: Disk, fp: string, key: string, isForce: bool, confirmed: bool, now: int)
      returns (r: Outcome)
      requires Valid()
      modifies this, disk
      ensures Valid()
      ensures Effect(r, State(groups, disk.files)) == DeleteEffect(State(old(groups), old(disk.files)), json, fp, key, isForce, confirmed, now)
    {
      DeleteKeepsValid(State(groups, disk.files), json, fp, key, isForce, confirmed, now);
      if fp == "" {
        return Skipped;
      }
      var index, threw := FindGroup(disk, fp);
      if threw {
        return Crashed;
      }
      if index.None? {
        return Skipped;
      }
      var i := index.value;
      if groups[i].view.None? {
        return Crashed;
      }
      var v := groups[i].view.value;
      if key !in Keys(v.data) || (!isForce && !confirmed) {
        return Skipped;
      }
      var d := Delete(v.data, key);
      var text := json.stringify(d);
      disk.Write(fp, text, now);
      groups := groups[i := Group(fp, Some(View(text, d, Without(v.children, key))))];
      r := Done;
    }

    /** `renameSnippet(e)` for the child `key` of the group of `fp`; `name`
      is what the input box returned. */
    method RenameSnippet(disk: Disk, fp: string, key: string, name: string, confirmed: bool, now: int)
      returns (r: Outcome)
      requires Valid()
      modifies this, disk
      ensures Valid()
      ensures Effect(r, State(groups, disk.files)) == RenameEffect(State(old(groups), old(disk.files)), json, fp, key, name, confirmed, now)
    {
      RenameKeepsValid(State(groups, disk.files), json, fp, key, name, confirmed, now);
      if fp == "" {
        return Skipped;
      }
      var index, threw := FindGroup(disk, fp);
      if threw {
        return Crashed;
      }
      if index.None? {
        return Skipped;
      }
      var i := index.value;
      if groups[i].view.None? {
        return Crashed;
      }
      var v := groups[i].view.value;
      if key !in Keys(v.data) || name == "" || name == key {
        return Skipped;
      }
      var overwrite := name in Keys(v.data);
      if overwrite && !confirmed {
        return Skipped;
      }
      var d := Rename(v.data, key, name);
      var text := json.stringify(d);
      disk.Write(fp, text, now);
      groups := groups[i := Group(fp, Some(View(text, d, RenameListing(v.children, key, name, overwrite))))];
      r := Done;
    }

    /** `deleteGroup(item)` for the group of `fp`. */
    method DeleteGroup(disk: Disk, fp: string, confirmed: bool) returns (r: Outcome)
      requires Valid()
      modifies this, disk
      ensures Valid()
      ensures Effect(r, State(groups, disk.files)) == DeleteGroupEffect(State(old(groups), old(disk.files)), fp, confirmed)
    {
      DeleteGroupKeepsValid(State(groups, disk.files), fp, confirmed, json.parse);
      if !confirmed {
        return Skipped;
      }
      var ok := disk.Unlink(fp);
      if !ok {
        return Crashed;
      }
      groups := Unlisted(groups, fp);
      r := Done;
    }

    /** `onDrop(target, data)`; `Done` is the `true` it returns. */
    method OnDrop(disk: Disk, target: Option<Node>, data: Record, confirmed: bool, now: int) returns (r: Outcome)
      requires Valid()
      requires target.Some? ==> IndexOf(groups, target.value.filepath).Some?
      modifies this, disk
      ensures Valid()
      ensures Effect(r, State(groups, disk.files)) == DropEffect(State(old(groups), old(disk.files)), json, target, data, confirmed, now)
    {
      if target.None? {
        return Crashed;
      }
      var g := groups[IndexOf(groups, target.value.filepath).value];
      if LooseEquals(g.filepath, Field(data, "filepath")) {
        return Skipped;
      }
      if g.view.None? {
        return Crashed;
      }
      if PropertyKey(Field(data, "key")) in Keys(g.view.value.data) && !confirmed {
        return Skipped;
      }
      r := SaveSnippet(disk, DropPatch(g.filepath, data), now);
    }

    /** `deleteSnippet(data, true)` for a drag payload. */
    method DeleteDropped(disk: Disk, data: Record, now: int) returns (r: Outcome)
      requires Valid()
      modifies this, disk
      ensures Valid()
      ensures Effect(r, State(groups, disk.files)) == DeleteDroppedEffect(State(old(groups), old(disk.files)), json, data, now)
    {
      var path := Field(data, "filepath");
      if !(path.Some? && path.value.Str?) {
        return Crashed;
      }
      var fp := path.value.s;
      var index, threw := FindGroup(disk, fp);
      if threw {
        return Crashed;
      }
      if index.None? {
        return Skipped;
      }
      var v := groups[index.value].view;
      if v.None? {
        return Crashed;
      }
      var wanted := if Truthy(Field(data, "label")) then Field(data, "label") else Field(data, "key");
      if wanted.None? || PropertyKey(wanted) !in Labels(v.value.children) {
        return Skipped;
      }
      r := DeleteSnippet(disk, fp, PropertyKey(wanted), true, false, now);
    }

    /** `getDragData(node)`. */
    function DragData(node: Node): (r: Option<Record>)
      reads this
      ensures r.Some? <==> node.SnippetNode?
      ensures r.Some? ==> Field(r.value, "filepath") == Some(Str(node.filepath)) && Field(r.value, "key") == Some(Str(node.name))
      ensures r.Some? ==> Field(r.value, "type") == Some(Str("snippetScopeExplorer"))
    {
      match node
      case GroupNode(_) => None
      case SnippetNode(fp, name) =>
        var rec := match IndexOf(groups, fp)
          case Some(i) => if groups[i].view.Some? then Get(groups[i].view.value.data, name) else None
          case None => None;
        Some(Payload(rec, fp, name))
    }
  }

  // ----- properties of the operations -----

  lemma PushedValid(groups: seq<Group>, fp: string, parse: string -> Option<Document>)
    requires Shaped(groups) && Synced(groups, parse) && EndsWith(fp, Suffix)
    ensures Shaped(Pushed(groups, fp)) && Synced(Pushed(groups, fp), parse)
  {
    if IndexOf(groups, fp).None? {
      var gs := groups + [Group(fp, None)];
      assert Pushed(groups, fp) == gs;
      forall i, j | 0 <= i < j < |gs| ensures gs[i].filepath != gs[j].filepath {
        if j == |groups| {
          assert gs[i] == groups[i];
        } else {
          assert gs[i] == groups[i] && gs[j] == groups[j];
        }
      }
      forall g | g in gs ensures g in groups || g == Group(fp, None) {
      }
      forall i | 0 <= i < |gs|
        ensures EndsWith(gs[i].filepath, Suffix)
        ensures gs[i].view.Some? ==> Consistent(gs[i].view.value.data, gs[i].view.value.children)
        ensures gs[i].view.Some? ==> parse(gs[i].view.value.text) == Some(gs[i].view.value.data)
      {
        if i < |groups| {
          assert gs[i] == groups[i];
        }
      }
    }
  }

  /** Replacing the view of group `i` by a view that lists its document and
      that its text parses to keeps the groups valid. */
  lemma SetViewValid(groups: seq<Group>, i: nat, v: View, parse: string -> Option<Document>)
    requires Shaped(groups) && Synced(groups, parse) && i < |groups|
    requires Consistent(v.data, v.children) && parse(v.text) == Some(v.data)
    ensures var gs := groups[i := Group(groups[i].filepath, Some(v))];
      Shaped(gs) && Synced(gs, parse)
  {
  }

  /** Opening keeps one group per path, each listing and agreeing with its
      text. */
  lemma OpenKeepsValid(groups: seq<Group>, files: map<string, FileEntry>, fp: string, text: string,
                       parse: string -> Option<Document>)
    requires Shaped(groups) && Synced(groups, parse)
    ensures var o := OpenEffect(groups, files, fp, text, parse);
      Shaped(o.groups) && Synced(o.groups, parse)
  {
    if EndsWith(fp, Suffix) {
      var t := Source(files, fp, text);
      var gs := Pushed(groups, fp);
      PushedValid(groups, fp, parse);
      var i := IndexOf(gs, fp).value;
      if !(gs[i].view.Some? && gs[i].view.value.text == t) && parse(t).Some? {
        var d := parse(t).value;
        SetViewValid(gs, i, View(t, d, ListingOf(d)), parse);
      }
    }
  }

  /** Finding a group keeps the groups valid. */
  lemma FindKeepsValid(groups: seq<Group>, files: map<string, FileEntry>, fp: string, parse: string -> Option<Document>)
    requires Shaped(groups) && Synced(groups, parse)
    ensures var f := FindEffect(groups, files, fp, parse);
      Shaped(f.groups) && Synced(f.groups, parse)
  {
    OpenKeepsValid(groups, files, fp, "", parse);
  }

  /** Rewriting a group's document with a listing of it keeps the groups
      valid: the new text is what the document serialises to. */
  lemma RewrittenValid(groups: seq<Group>, files: map<string, FileEntry>, i: nat, fp: string, json: JsonCodec,
                       d: Document, children: seq<Item>, now: int)
    requires Lawful(json) && Shaped(groups) && Synced(groups, json.parse)
    requires i < |groups| && groups[i].filepath == fp && Consistent(d, children)
    ensures var r := Rewritten(groups, files, i, fp, json, d, children, now);
      Shaped(r.groups) && Synced(r.groups, json.parse)
  {
    assert json.parse(json.stringify(d)) == Some(d);
    SetViewValid(groups, i, View(json.stringify(d), d, children), json.parse);
  }

  lemma SaveKeepsValid(s: State, json: JsonCodec, snippet: Patch, now: int)
    requires Lawful(json) && Shaped(s.groups) && Synced(s.groups, json.parse)
    ensures var e := SaveEffect(s, json, snippet, now);
      Shaped(e.after.groups) && Synced(e.after.groups, json.parse)
  {
    var filepath := PatchField(snippet, "filepath");
    var k := PatchField(snippet, "key");
    if Truthy(filepath) && Truthy(k) && Acceptable(snippet) && filepath.value.Str? {
      var fp := filepath.value.s;
      var f := FindEffect(s.groups, s.files, fp, json.parse);
      FindKeepsValid(s.groups, s.files, fp, json.parse);
      SaveFound(s, json, snippet, now, f);
    } else {
      assert SaveEffect(s, json, snippet, now).after.groups == s.groups;
    }
  }

  /** A save once the group is found: the groups found, rewritten when the
      group has a view. */
  lemma SaveFound(s: State, json: JsonCodec, snippet: Patch, now: int, f: Found)
    requires Lawful(json)
    requires var filepath := PatchField(snippet, "filepath");
      && Truthy(filepath) && Truthy(PatchField(snippet, "key")) && Acceptable(snippet) && filepath.value.Str?
      && f == FindEffect(s.groups, s.files, filepath.value.s, json.parse)
    requires Shaped(f.groups) && Synced(f.groups, json.parse)
    ensures var e := SaveEffect(s, json, snippet, now);
      Shaped(e.after.groups) && Synced(e.after.groups, json.parse)
  {
    if !f.threw && f.index.Some? && f.groups[f.index.value].view.Some? {
      var fp := PatchField(snippet, "filepath").value.s;
      var key := PropertyKey(PatchField(snippet, "key"));
      var v := f.groups[f.index.value].view.value;
      var d := SaveData(v.data, key, Rest(snippet));
      var children := SaveListing(v.children, key, PatchField(snippet, "description"));
      SaveIntoView(s, json, snippet, now, f);
      RewrittenValid(f.groups, s.files, f.index.value, fp, json, d, children, now);
    } else {
      assert SaveEffect(s, json, snippet, now).after.groups == f.groups;
    }
  }

  /** A save into a group with a view rewrites that group with a listing of
      the saved document. */
  lemma SaveIntoView(s: State, json: JsonCodec, snippet: Patch, now: int, f: Found)
    requires var filepath := PatchField(snippet, "filepath");
      && Truthy(filepath) && Truthy(PatchField(snippet, "key")) && Acceptable(snippet) && filepath.value.Str?
      && f == FindEffect(s.groups, s.files, filepath.value.s, json.parse)
    requires !f.threw && f.index.Some? && f.groups[f.index.value].view.Some?
    requires Consistent(f.groups[f.index.value].view.value.data, f.groups[f.index.value].view.value.children)
    ensures var key := PropertyKey(PatchField(snippet, "key"));
      var v := f.groups[f.index.value].view.value;
      var d := SaveData(v.data, key, Rest(snippet));
      var children := SaveListing(v.children, key, PatchField(snippet, "description"));
      && Consistent(d, children)
      && SaveEffect(s, json, snippet, now).after
         == Rewritten(f.groups, s.files, f.index.value, PatchField(snippet, "filepath").value.s, json, d, children, now)
  {
    var key := PropertyKey(PatchField(snippet, "key"));
    var v := f.groups[f.index.value].view.value;
    RestKeepsDescription(snippet);
    SaveKeepsConsistent(v.data, v.children, key, Rest(snippet));
  }

  lemma DeleteKeepsValid(s: State, json: JsonCodec, fp: string, key: string, isForce: bool, confirmed: bool, now: int)
    requires Lawful(json) && Shaped(s.groups) && Synced(s.groups, json.parse)
    ensures var e := DeleteEffect(s, json, fp, key, isForce, confirmed, now);
      Shaped(e.after.groups) && Synced(e.after.groups, json.parse)
  {
    var f := FindEffect(s.groups, s.files, fp, json.parse);
    FindKeepsValid(s.groups, s.files, fp, json.parse);
    if fp != "" && !f.threw && f.index.Some? && f.groups[f.index.value].view.Some? {
      var v := f.groups[f.index.value].view.value;
      DeleteKeepsConsistent(v.data, v.children, key);
      RewrittenValid(f.groups, s.files, f.index.value, fp, json, Delete(v.data, key), Without(v.children, key), now);
    }
  }

  lemma RenameKeepsValid(s: State, json: JsonCodec, fp: string, key: string, name: string, confirmed: bool, now: int)
    requires Lawful(json) && Shaped(s.groups) && Synced(s.groups, json.parse)
    ensures var e := RenameEffect(s, json, fp, key, name, confirmed, now);
      Shaped(e.after.groups) && Synced(e.after.groups, json.parse)
  {
    var f := FindEffect(s.groups, s.files, fp, json.parse);
    FindKeepsValid(s.groups, s.files, fp, json.parse);
    if fp != "" && !f.threw && f.index.Some? && f.groups[f.index.value].view.Some? {
      var v := f.groups[f.index.value].view.value;
      if key in Keys(v.data) && name != "" && name != key && (name !in Keys(v.data) || confirmed) {
        RenameKeepsConsistent(v.data, v.children, key, name);
        RewrittenValid(f.groups, s.files, f.index.value, fp, json, Rename(v.data, key, name),
          RenameListing(v.children, key, name, name in Keys(v.data)), now);
      }
    }
  }

  /** Deleting a group removes its file and only its group. */
  lemma DeleteGroupKeepsValid(s: State, fp: string, confirmed: bool, parse: string -> Option<Document>)
    requires Shaped(s.groups) && Synced(s.groups, parse)
    ensures var e := DeleteGroupEffect(s, fp, confirmed);
      && Shaped(e.after.groups) && Synced(e.after.groups, parse)
      && (e.outcome == Done ==>
          && fp !in e.after.files && IndexOf(e.after.groups, fp).None?
          && forall g :: g in e.after.groups <==> g in s.groups && g.filepath != fp)
      && (e.outcome != Done ==> e.after == s)
  {
    var e := DeleteGroupEffect(s, fp, confirmed);
    if e.outcome == Done {
      var r := Unlisted(s.groups, fp);
      UnlistedValid(s.groups, fp, parse);
    }
  }

  lemma UnlistedValid(groups: seq<Group>, fp: string, parse: string -> Option<Document>)
    requires Shaped(groups) && Synced(groups, parse)
    ensures Shaped(Unlisted(groups, fp)) && Synced(Unlisted(groups, fp), parse)
  {
    UnlistedDistinct(groups, fp);
    SubsetValid(groups, Unlisted(groups, fp), parse);
  }

  /** Dropping the groups of one path keeps the paths apart. */
  lemma {:induction false} UnlistedDistinct(groups: seq<Group>, fp: string)
    requires forall i, j :: 0 <= i < j < |groups| ==> groups[i].filepath != groups[j].filepath
    ensures forall i, j :: 0 <= i < j < |Unlisted(groups, fp)| ==>
      Unlisted(groups, fp)[i].filepath != Unlisted(groups, fp)[j].filepath
  {
    if |groups| > 0 {
      var rest := Unlisted(groups[1..], fp);
      assert forall i :: 0 <= i < |groups[1..]| ==> groups[1..][i] == groups[i + 1];
      UnlistedDistinct(groups[1..], fp);
      if groups[0].filepath != fp {
        var r := [groups[0]] + rest;
        assert forall i :: 0 < i < |r| ==> r[i] == rest[i - 1];
        forall i | 0 < i < |r| ensures r[0].filepath != r[i].filepath {
          assert r[i] in groups[1..];
        }
      }
    }
  }

  /** Groups taken from valid groups, with their paths apart, are valid:
      every other part of validity is about one group at a time. */
  lemma SubsetValid(groups: seq<Group>, r: seq<Group>, parse: string -> Option<Document>)
    requires Shaped(groups) && Synced(groups, parse)
    requires forall g :: g in r ==> g in groups
    requires forall i, j :: 0 <= i < j < |r| ==> r[i].filepath != r[j].filepath
    ensures Shaped(r) && Synced(r, parse)
  {
    forall i | 0 <= i < |r|
      ensures EndsWith(r[i].filepath, Suffix)
      ensures r[i].view.Some? ==> Consistent(r[i].view.value.data, r[i].view.value.children)
      ensures r[i].view.Some? ==> parse(r[i].view.value.text) == Some(r[i].view.value.data)
    {
      assert r[i] in groups;
    }
  }

  lemma DropKeepsValid(s: State, json: JsonCodec, target: Option<Node>, data: Record, confirmed: bool, now: int)
    requires Lawful(json) && Shaped(s.groups) && Synced(s.groups, json.parse)
    requires target.Some? ==> IndexOf(s.groups, target.value.filepath).Some?
    ensures var e := DropEffect(s, json, target, data, confirmed, now);
      Shaped(e.after.groups) && Synced(e.after.groups, json.parse)
  {
    if target.Some? {
      var g := s.groups[IndexOf(s.groups, target.value.filepath).value];
      var e := DropEffect(s, json, target, data, confirmed, now);
      if !LooseEquals(g.filepath, Field(data, "filepath")) && g.view.Some?
         && !(PropertyKey(Field(data, "key")) in Keys(g.view.value.data) && !confirmed) {
        assert e == SaveEffect(s, json, DropPatch(g.filepath, data), now);
        SaveKeepsValid(s, json, DropPatch(g.filepath, data), now);
      } else {
        assert e.after == s;
      }
    }
  }

  lemma DeleteDroppedKeepsValid(s: State, json: JsonCodec, data: Record, now: int)
    requires Lawful(json) && Shaped(s.groups) && Synced(s.groups, json.parse)
    ensures var e := DeleteDroppedEffect(s, json, data, now);
      Shaped(e.after.groups) && Synced(e.after.groups, json.parse)
  {
    var path := Field(data, "filepath");
    if path.Some? && path.value.Str? {
      var fp := path.value.s;
      var f := FindEffect(s.groups, s.files, fp, json.parse);
      FindKeepsValid(s.groups, s.files, fp, json.parse);
      var wanted := if Truthy(Field(data, "label")) then Field(data, "label") else Field(data, "key");
      DeleteKeepsValid(State(f.groups, s.files), json, fp, PropertyKey(wanted), true, false, now);
    }
  }

  /** Opening a `*.code-snippets` file leaves exactly one group for it;
      unless the parse throws, the group shows the document of the text it
      was opened with; a file whose text is unchanged is not re-parsed. */
  lemma OpenLoads(groups: seq<Group>, files: map<string, FileEntry>, fp: string, text: string,
                  parse: string -> Option<Document>)
    requires Shaped(groups) && Synced(groups, parse)
    ensures var o := OpenEffect(groups, files, fp, text, parse);
      && (!EndsWith(fp, Suffix) ==> o == Opened(groups, false))
      && (EndsWith(fp, Suffix) ==>
          && IndexOf(o.groups, fp).Some?
          && |o.groups| == |groups| + (if IndexOf(groups, fp).Some? then 0 else 1)
          && (o.threw ==> parse(Source(files, fp, text)).None?)
          && (!o.threw ==>
                var v := o.groups[IndexOf(o.groups, fp).value].view;
                v.Some? && v.value.text == Source(files, fp, text) && parse(v.value.text) == Some(v.value.data)))
      && ((IndexOf(groups, fp).Some? && groups[IndexOf(groups, fp).value].view.Some?
           && groups[IndexOf(groups, fp).value].view.value.text == Source(files, fp, text)) ==> o.groups == groups)
  {
    OpenKeepsValid(groups, files, fp, text, parse);
    var o := OpenEffect(groups, files, fp, text, parse);
    if EndsWith(fp, Suffix) {
      var gs := Pushed(groups, fp);
      var i := IndexOf(gs, fp).value;
      PushedValid(groups, fp, parse);
      IndexOfShaped(gs, i);
      if !o.threw && o.groups != gs {
        IndexOfShaped(o.groups, i);
      }
    }
  }

  /** A save writes nothing unless `filepath`, `key`, `prefix` and a
      non-empty `body` are given. When it succeeds, the group's document
      holds the merged record under the key and every other key as before,
      the file holds that document, and re-opening the file is a no-op
      because its text is the group's text. */
  lemma SavePersists(s: State, json: JsonCodec, snippet: Patch, now: int)
    requires Lawful(json) && Shaped(s.groups) && Synced(s.groups, json.parse)
    ensures var e := SaveEffect(s, json, snippet, now);
      && (!Truthy(PatchField(snippet, "filepath")) || !Truthy(PatchField(snippet, "key")) || !Acceptable(snippet) ==>
          e == Effect(Skipped, s))
      && (e.outcome == Done ==>
          var fp := PatchField(snippet, "filepath").value.s;
          var f := FindEffect(s.groups, s.files, fp, json.parse);
          && f.index.Some?
          && var i := f.index.value;
          && f.groups[i].view.Some? && e.after.groups[i].view.Some?
          && e.after.groups[i].view.value.data
             == SaveData(f.groups[i].view.value.data, PropertyKey(PatchField(snippet, "key")), Rest(snippet))
          && json.parse(e.after.files[fp].text) == Some(e.after.groups[i].view.value.data))
  {
    var e := SaveEffect(s, json, snippet, now);
    if e.outcome == Done {
      var fp := PatchField(snippet, "filepath").value.s;
      var f := FindEffect(s.groups, s.files, fp, json.parse);
      var i := f.index.value;
      var v := f.groups[i].view.value;
      var key := PropertyKey(PatchField(snippet, "key"));
      var d := SaveData(v.data, key, Rest(snippet));
      var children := SaveListing(v.children, key, PatchField(snippet, "description"));
      assert e.after == Rewritten(f.groups, s.files, i, fp, json, d, children, now);
      SaveKeepsValid(s, json, snippet, now);
      assert json.parse(json.stringify(d)) == Some(d);
    }
  }

  /** After a successful save, re-opening the file (the file watcher's
      `openFile`) changes nothing, because its text is the group's text. */
  lemma SaveSettles(s: State, json: JsonCodec, snippet: Patch, now: int)
    requires Lawful(json) && Shaped(s.groups) && Synced(s.groups, json.parse)
    requires SaveEffect(s, json, snippet, now).outcome == Done
    ensures var e := SaveEffect(s, json, snippet, now);
      && PatchField(snippet, "filepath").Some? && PatchField(snippet, "filepath").value.Str?
      && var fp := PatchField(snippet, "filepath").value.s;
      && OpenEffect(e.after.groups, e.after.files, fp, "", json.parse) == Opened(e.after.groups, false)
  {
    var e := SaveEffect(s, json, snippet, now);
    var fp := PatchField(snippet, "filepath").value.s;
    var f := FindEffect(s.groups, s.files, fp, json.parse);
    var i := f.index.value;
    var v := f.groups[i].view.value;
    var key := PropertyKey(PatchField(snippet, "key"));
    var d := SaveData(v.data, key, Rest(snippet));
    var children := SaveListing(v.children, key, PatchField(snippet, "description"));
    assert e.after == Rewritten(f.groups, s.files, i, fp, json, d, children, now);
    SaveKeepsValid(s, json, snippet, now);
    ReopenSettles(e.after.groups, e.after.files, i, json.parse);
  }

  /** Re-opening a file whose text is its group's text changes nothing. */
  lemma ReopenSettles(groups: seq<Group>, files: map<string, FileEntry>, i: nat, parse: string -> Option<Document>)
    requires Shaped(groups) && i < |groups| && groups[i].view.Some?
    requires groups[i].filepath in files && files[groups[i].filepath].text == groups[i].view.value.text
    ensures OpenEffect(groups, files, groups[i].filepath, "", parse) == Opened(groups, false)
  {
    IndexOfShaped(groups, i);
  }

  /** The failure at line 374: a save to a path that is not
      `*.code-snippets` finds no group, writes the file and then throws,
      leaving the groups as they were. */
  lemma SaveOutsideGroups(s: State, json: JsonCodec, snippet: Patch, now: int)
    requires Shaped(s.groups)
    requires Truthy(PatchField(snippet, "key")) && Acceptable(snippet)
    requires PatchField(snippet, "filepath").Some? && PatchField(snippet, "filepath").value.Str?
    requires var fp := PatchField(snippet, "filepath").value.s; fp != "" && !EndsWith(fp, Suffix)
    ensures var fp := PatchField(snippet, "filepath").value.s;
      var e := SaveEffect(s, json, snippet, now);
      && e.outcome == Crashed
      && e.after.groups == s.groups
      && e.after.files == s.files[fp := FileEntry(json.stringify(SaveData([], PropertyKey(PatchField(snippet, "key")), Rest(snippet))), now)]
  {
    var fp := PatchField(snippet, "filepath").value.s;
    assert IndexOf(s.groups, fp).None?;
  }

  /** Deleting reports a missing key and writes nothing; when it succeeds
      the key is gone from the group's document and children, and the file
      holds the document. */
  lemma DeletePersists(s: State, json: JsonCodec, fp: string, key: string, isForce: bool, confirmed: bool, now: int)
    requires Lawful(json)
    ensures var e := DeleteEffect(s, json, fp, key, isForce, confirmed, now);
      && (e.outcome != Done ==> e.after.files == s.files)
      && (e.outcome == Done ==>
          var f := FindEffect(s.groups, s.files, fp, json.parse);
          && f.index.Some?
          && var i := f.index.value;
          && f.groups[i].view.Some? && e.after.groups[i].view.Some?
          && key in Keys(f.groups[i].view.value.data)
          && (isForce || confirmed)
          && e.after.groups[i].view.value.data == Delete(f.groups[i].view.value.data, key)
          && key !in Labels(e.after.groups[i].view.value.children)
          && json.parse(e.after.files[fp].text) == Some(e.after.groups[i].view.value.data))
  {
    var e := DeleteEffect(s, json, fp, key, isForce, confirmed, now);
    if e.outcome == Done {
      var f := FindEffect(s.groups, s.files, fp, json.parse);
      var i := f.index.value;
      var v := f.groups[i].view.value;
      var d := Delete(v.data, key);
      assert e.after == Rewritten(f.groups, s.files, i, fp, json, d, Without(v.children, key), now);
      assert json.parse(json.stringify(d)) == Some(d);
    }
  }

  /** Renaming writes nothing for an empty or identical name or a declined
      overwrite; when it succeeds the record moves unchanged to `name`. */
  lemma RenamePersists(s: State, json: JsonCodec, fp: string, key: string, name: string, confirmed: bool, now: int)
    requires Lawful(json)
    ensures var e := RenameEffect(s, json, fp, key, name, confirmed, now);
      && (e.outcome != Done ==> e.after.files == s.files)
      && (name == "" || name == key ==> e.outcome != Done)
      && (e.outcome == Done ==>
          var f := FindEffect(s.groups, s.files, fp, json.parse);
          && f.index.Some?
          && var i := f.index.value;
          && f.groups[i].view.Some? && e.after.groups[i].view.Some?
          && var before := f.groups[i].view.value.data;
          && var after := e.after.groups[i].view.value.data;
          && key in Keys(before)
          && (name in Keys(before) ==> confirmed)
          && after == Rename(before, key, name)
          && Get(after, name) == Get(before, key) && Get(after, key) == None
          && json.parse(e.after.files[fp].text) == Some(after))
  {
    var e := RenameEffect(s, json, fp, key, name, confirmed, now);
    if e.outcome == Done {
      var f := FindEffect(s.groups, s.files, fp, json.parse);
      var i := f.index.value;
      var v := f.groups[i].view.value;
      var d := Rename(v.data, key, name);
      assert e.after == Rewritten(f.groups, s.files, i, fp, json, d, RenameListing(v.children, key, name, name in Keys(v.data)), now);
      assert json.parse(json.stringify(d)) == Some(d);
    }
  }

  /** The record a drop saves over `existing`. */
  lemma DropRecord(existing: Option<Record>, fp: string, data: Record)
    ensures var r := SaveRecord(existing, Rest(DropPatch(fp, data)));
      && Field(r, "prefix") == Field(data, "prefix")
      && Field(r, "body") == Field(data, "body")
      && Field(r, "scope") == Field(data, "scope")
      && Field(r, "description") == if Truthy(Field(data, "description")) then Field(data, "description") else None
  {
    var p := Rest(DropPatch(fp, data));
    assert "prefix" in p && "body" in p && "scope" in p && "description" in p;
    var m := Merge(existing.GetOr(map[]), p);
    assert Field(m, "description") == Field(data, "description");
  }

  /** A drop that succeeds is the save of its patch into the target group,
      which is found without opening anything. */
  lemma DropIsSave(s: State, json: JsonCodec, t: Node, data: Record, confirmed: bool, now: int)
    requires Shaped(s.groups) && IndexOf(s.groups, t.filepath).Some?
    requires DropEffect(s, json, Some(t), data, confirmed, now).outcome == Done
    ensures var i := IndexOf(s.groups, t.filepath).value;
      && s.groups[i].view.Some?
      && (PropertyKey(Field(data, "key")) in Keys(s.groups[i].view.value.data) ==> confirmed)
      && DropEffect(s, json, Some(t), data, confirmed, now) == SaveEffect(s, json, DropPatch(t.filepath, data), now)
      && FindEffect(s.groups, s.files, t.filepath, json.parse) == Found(s.groups, Some(i), false)
  {
  }

  /** A drop onto the payload's own file changes nothing; a drop that
      succeeds copies prefix, body, scope and (a non-empty) description into
      the target group under the payload's key, overwriting only when
      confirmed. */
  lemma DropCopies(s: State, json: JsonCodec, target: Option<Node>, data: Record, confirmed: bool, now: int)
    requires Lawful(json) && Shaped(s.groups) && Synced(s.groups, json.parse)
    requires target.Some? ==> IndexOf(s.groups, target.value.filepath).Some?
    ensures var e := DropEffect(s, json, target, data, confirmed, now);
      && (target.Some? && LooseEquals(target.value.filepath, Field(data, "filepath")) ==> e == Effect(Skipped, s))
      && (e.outcome == Done ==>
          var i := IndexOf(s.groups, target.value.filepath).value;
          var key := PropertyKey(Field(data, "key"));
          && s.groups[i].view.Some? && i < |e.after.groups| && e.after.groups[i].view.Some?
          && (key in Keys(s.groups[i].view.value.data) ==> confirmed)
          && var rec := Get(e.after.groups[i].view.value.data, key);
          && rec.Some?
          && Field(rec.value, "prefix") == Field(data, "prefix")
          && Field(rec.value, "body") == Field(data, "body")
          && Field(rec.value, "scope") == Field(data, "scope")
          && Field(rec.value, "description") == if Truthy(Field(data, "description")) then Field(data, "description") else None)
  {
    var e := DropEffect(s, json, target, data, confirmed, now);
    if e.outcome == Done {
      var t := target.value;
      var i := IndexOf(s.groups, t.filepath).value;
      DropSaved(s, json, t, data, confirmed, now);
      DropRecord(Get(s.groups[i].view.value.data, PropertyKey(Field(data, "key"))), t.filepath, data);
    }
  }

  /** The document a successful drop leaves in the target group. */
  lemma DropSaved(s: State, json: JsonCodec, t: Node, data: Record, confirmed: bool, now: int)
    requires Lawful(json) && Shaped(s.groups) && Synced(s.groups, json.parse)
    requires IndexOf(s.groups, t.filepath).Some?
    requires DropEffect(s, json, Some(t), data, confirmed, now).outcome == Done
    ensures var i := IndexOf(s.groups, t.filepath).value;
      var e := DropEffect(s, json, Some(t), data, confirmed, now);
      && s.groups[i].view.Some? && i < |e.after.groups| && e.after.groups[i].view.Some?
      && (PropertyKey(Field(data, "key")) in Keys(s.groups[i].view.value.data) ==> confirmed)
      && e.after.groups[i].view.value.data
         == SaveData(s.groups[i].view.value.data, PropertyKey(Field(data, "key")), Rest(DropPatch(t.filepath, data)))
  {
    var p := DropPatch(t.filepath, data);
    DropPatchNames(t.filepath, data);
    DropIsSave(s, json, t, data, confirmed, now);
    SavePersists(s, json, p, now);
    var e := SaveEffect(s, json, p, now);
    assert DropEffect(s, json, Some(t), data, confirmed, now) == e && e.outcome == Done;
    var f := FindEffect(s.groups, s.files, t.filepath, json.parse);
    assert f.groups == s.groups && f.index == IndexOf(s.groups, t.filepath);
  }

  /** Removing a dropped snippet from its source group: when it succeeds,
      the key the payload names is gone from that group. */
  lemma DeleteDroppedRemoves(s: State, json: JsonCodec, data: Record, now: int)
    requires Lawful(json) && Shaped(s.groups) && Synced(s.groups, json.parse)
    ensures var e := DeleteDroppedEffect(s, json, data, now);
      e.outcome == Done ==>
        && Field(data, "filepath").Some? && Field(data, "filepath").value.Str?
        && var fp := Field(data, "filepath").value.s;
        && var wanted := if Truthy(Field(data, "label")) then Field(data, "label") else Field(data, "key");
        && IndexOf(e.after.groups, fp).Some?
        && e.after.groups[IndexOf(e.after.groups, fp).value].view.Some?
        && PropertyKey(wanted) !in Keys(e.after.groups[IndexOf(e.after.groups, fp).value].view.value.data)
  {
    var e := DeleteDroppedEffect(s, json, data, now);
    if e.outcome == Done {
      var fp := Field(data, "filepath").value.s;
      var f := FindEffect(s.groups, s.files, fp, json.parse);
      FindKeepsValid(s.groups, s.files, fp, json.parse);
      var wanted := if Truthy(Field(data, "label")) then Field(data, "label") else Field(data, "key");
      var s1 := State(f.groups, s.files);
      var key := PropertyKey(wanted);
      assert e == DeleteEffect(s1, json, fp, key, true, false, now);
      DeleteKeepsValid(s1, json, fp, key, true, false, now);
      var f1 := FindEffect(s1.groups, s1.files, fp, json.parse);
      var i := f1.index.value;
      var v := f1.groups[i].view.value;
      assert e.after == Rewritten(f1.groups, s1.files, i, fp, json, Delete(v.data, key), Without(v.children, key), now);
      assert e.after.groups[i] == Group(fp, Some(View(json.stringify(Delete(v.data, key)), Delete(v.data, key), Without(v.children, key))));
      IndexOfShaped(e.after.groups, i);
    }
  }

  /** Removing a dropped snippet writes at most its own `*.code-snippets`
      file, and nothing unless it succeeds. */
  lemma DeleteDroppedTouches(s: State, json: JsonCodec, data: Record, now: int)
    requires Shaped(s.groups) && Synced(s.groups, json.parse)
    ensures var e := DeleteDroppedEffect(s, json, data, now);
      && (e.outcome != Done ==> e.after.files == s.files)
      && (e.outcome == Done ==>
          && Field(data, "filepath").Some? && Field(data, "filepath").value.Str?
          && var fp := Field(data, "filepath").value.s;
          && EndsWith(fp, Suffix) && fp in e.after.files
          && e.after.files == s.files[fp := e.after.files[fp]])
  {
    var path := Field(data, "filepath");
    if path.Some? && path.value.Str? {
      var fp := path.value.s;
      var f := FindEffect(s.groups, s.files, fp, json.parse);
      FindKeepsValid(s.groups, s.files, fp, json.parse);
      if !f.threw && f.index.Some? && f.groups[f.index.value].view.Some? {
        var v := f.groups[f.index.value].view.value;
        var wanted := if Truthy(Field(data, "label")) then Field(data, "label") else Field(data, "key");
        if wanted.Some? && PropertyKey(wanted) in Labels(v.children) {
          assert DeleteDroppedEffect(s, json, data, now)
              == DeleteEffect(State(f.groups, s.files), json, fp, PropertyKey(wanted), true, false, now);
          DeleteTouches(State(f.groups, s.files), json, fp, PropertyKey(wanted), true, false, now);
        }
      }
    }
  }

  /** Deleting a snippet writes at most the file of its group, and nothing
      unless it succeeds. */
  lemma DeleteTouches(s: State, json: JsonCodec, fp: string, key: string, isForce: bool, confirmed: bool, now: int)
    requires Shaped(s.groups) && Synced(s.groups, json.parse)
    ensures var e := DeleteEffect(s, json, fp, key, isForce, confirmed, now);
      && (e.outcome != Done ==> e.after.files == s.files)
      && (e.outcome == Done ==>
          && EndsWith(fp, Suffix) && fp in e.after.files
          && e.after.files == s.files[fp := e.after.files[fp]])
  {
    var e := DeleteEffect(s, json, fp, key, isForce, confirmed, now);
    if fp != "" {
      var f := FindEffect(s.groups, s.files, fp, json.parse);
      FindKeepsValid(s.groups, s.files, fp, json.parse);
      if !f.threw && f.index.Some? && f.groups[f.index.value].view.Some? {
        var i := f.index.value;
        var v := f.groups[i].view.value;
        if key in Keys(v.data) && (isForce || confirmed) {
          assert e == Effect(Done, Rewritten(f.groups, s.files, i, fp, json, Delete(v.data, key), Without(v.children, key), now));
          assert EndsWith(f.groups[i].filepath, Suffix);
        } else {
          assert e.after.files == s.files;
        }
      } else {
        assert e.after.files == s.files;
      }
    }
  }

  /** The scope list `addSnippet` gives a snippet made in a JavaScript-like
      editor. */
  const JsFamily := "javascript" + "," + "typescript" + "," + "javascriptreact" + "," + "typescriptreact"

  /** The language ids that list is meant to stand for. */
  const JsLanguages := ["javascript", "typescript", "javascriptreact", "typescriptreact"]

  /** The scope `addSnippet` derives from the current editor language, as
      written: any language id that is a SUBSTRING of `JsFamily` (also
      `"java"`, `"script"` or `""`) becomes the whole family, `"vue"` becomes
      `"vue,vue-html"`; no editor gives no scope. */
  function ScopeAsWritten(current: Option<string>): (r: Option<string>)
    ensures current.Some? ==> (r == Some(JsFamily) <==> Contains(JsFamily, current.value))
    ensures current.None? ==> r.None?
  {
    match current
    case None => None
    case Some(l) =>
      if Contains(JsFamily, l) then Some(JsFamily)
      else if l == "vue" then Some("vue,vue-html")
      else
        assert StartsWith(JsFamily[0..], JsFamily);
        current
  }

  /** The scope as evidently intended: only the four JavaScript-like ids
      become the family, `"vue"` becomes `"vue,vue-html"`, every other
      language is kept. */
  function NormalScope(current: Option<string>): (r: Option<string>)
    ensures current.Some? && current.value in JsLanguages ==> r == Some(JsFamily)
    ensures current == Some("vue") ==> r == Some("vue,vue-html")
    ensures r != current ==> current.Some? && (current.value in JsLanguages || current.value == "vue")
  {
    if current.Some? && current.value in JsLanguages then Some(JsFamily)
    else if current == Some("vue") then Some("vue,vue-html")
    else current
  }

  /** No `u` occurs in `JsFamily`, so `"vue"` is not part of it. */
  lemma VueOutsideFamily()
    ensures !Contains(JsFamily, "vue")
  {
    assert forall k :: 0 <= k < |JsFamily| ==> JsFamily[k] != 'u';
    forall i | 0 <= i <= |JsFamily| - 3
      ensures !StartsWith(JsFamily[i..], "vue")
    {
      assert JsFamily[i..][1] == JsFamily[i + 1];
    }
  }

  /** On the languages the test was written for, the substring test agrees
      with the intended one. */
  lemma ScopeAgrees(current: Option<string>)
    requires current.None? || current.value in JsLanguages || current.value == "vue"
    ensures ScopeAsWritten(current) == NormalScope(current)
  {
    if current.Some? {
      var l := current.value;
      if l == "vue" {
        VueOutsideFamily();
      } else {
        if l == "javascript" {
          JavascriptInFamily();
        } else if l == "typescript" {
          TypescriptInFamily();
        } else if l == "javascriptreact" {
          JavascriptreactInFamily();
        } else {
          TypescriptreactInFamily();
        }
      }
    }
  }

  lemma JavascriptInFamily()
    ensures Contains(JsFamily, "javascript")
  {
    assert JsFamily[0..][..10] == "javascript";
  }

  lemma TypescriptInFamily()
    ensures Contains(JsFamily, "typescript")
  {
    assert JsFamily[11..][..10] == "typescript";
  }

  lemma JavascriptreactInFamily()
    ensures Contains(JsFamily, "javascriptreact")
  {
    assert JsFamily[22..][..15] == "javascriptreact";
  }

  lemma TypescriptreactInFamily()
    ensures Contains(JsFamily, "typescriptreact")
  {
    assert JsFamily[38..][..15] == "typescriptreact";
  }

  /** The discrepancy: in a Java editor the new snippet is scoped to the
      JavaScript family instead of to Java. */
  lemma JavaScopedAsJavaScript()
    ensures ScopeAsWritten(Some("java")) == Some(JsFamily)
    ensures NormalScope(Some("java")) == Some("java")
  {
    assert JsFamily[0..][..4] == "java";
  }
}
