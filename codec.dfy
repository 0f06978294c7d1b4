/** The editable text form of a snippet (common/utils.js:156-228).

    `snippet2text` writes the record's metadata fields as comment lines
    (`<comment> @prefix foo`) with space-padded continuation lines, then the
    language's lint-disable header, a blank line and the body.
    `text2snippet` reads such a text back into a record.

    The line-comment token and the header map come from host configuration,
    so they are parameters here. `commentOf` maps a language id to its
    configured `lineComment`. `headers` is the `lintDisableHeader` setting. */
module Codec {
  import opened Strings
  import opened Records

  // ----- shared -----

  /** `getLineComment(languageId)`: the configured token, "//" when none. */
  function LineComment(commentOf: map<string, string>, lang: string): (c: string)
    ensures c != ""
  {
    if lang in commentOf && commentOf[lang] != "" then commentOf[lang] else "//"
  }

  /** Joins lines, each followed by a newline. */
  function Terminated(lines: seq<string>): string {
    if |lines| == 0 then "" else Terminated(lines[..|lines| - 1]) + lines[|lines| - 1] + "\n"
  }

  // ----- snippet2text -----

  /** The language whose comment token and header are used: the argument,
      or else the first entry of a truthy string `scope`. `None` is the
      `TypeError` of calling `split` on a list-valued `scope`. */
  function EffectiveLanguage(r: Record, lang: string): (l: Option<string>)
    ensures lang != "" ==> l == Some(lang)
    ensures l.None? <==> lang == "" && Field(r, "scope").Some? && Field(r, "scope").value.List?
  {
    if lang == "" && Truthy(Field(r, "scope")) then
      match r["scope"]
      case Str(s) => Some(Split(s, ',')[0])
      case List(_) => None
    else Some(lang)
  }

  /** The metadata fields written, in order. */
  function EmittedFields(r: Record): seq<string> {
    var ids := (if Truthy(Field(r, "filepath")) then ["filepath"] else [])
      + (if Truthy(Field(r, "key")) then ["key"] else []);
    ids + (if |ids| > 0 then ["scope"] else []) + ["prefix", "description"]
  }

  /** The metadata field names differ from one another (their lengths do). */
  lemma DistinctNames()
    ensures "filepath" != "key" && "filepath" != "scope" && "filepath" != "prefix" && "filepath" != "description"
    ensures "key" != "scope" && "key" != "prefix" && "key" != "description"
    ensures "scope" != "prefix" && "scope" != "description" && "prefix" != "description"
  {
    assert |"filepath"| == 8 && |"key"| == 3 && |"scope"| == 5 && |"prefix"| == 6 && |"description"| == 11;
  }

  /** Which fields `EmittedFields` writes, and that none is written twice. */
  lemma EmittedFieldsShape(r: Record)
    ensures var fs := EmittedFields(r);
      && |fs| >= 2 && fs[|fs| - 2..] == ["prefix", "description"]
      && ("filepath" in fs <==> Truthy(Field(r, "filepath")))
      && ("key" in fs <==> Truthy(Field(r, "key")))
      && ("scope" in fs <==> Truthy(Field(r, "filepath")) || Truthy(Field(r, "key")))
      && (forall i, j :: 0 <= i < j < |fs| ==> fs[i] != fs[j])
  {
    EmittedMembers(r);
    EmittedDistinct(r);
    assert NoDuplicates(EmittedFields(r));
  }

  lemma EmittedMembers(r: Record)
    ensures var fs := EmittedFields(r);
      && |fs| >= 2 && fs[|fs| - 2..] == ["prefix", "description"]
      && ("filepath" in fs <==> Truthy(Field(r, "filepath")))
      && ("key" in fs <==> Truthy(Field(r, "key")))
      && ("scope" in fs <==> Truthy(Field(r, "filepath")) || Truthy(Field(r, "key")))
  {
    var fp, key := Truthy(Field(r, "filepath")), Truthy(Field(r, "key"));
    var ids := (if fp then ["filepath"] else []) + (if key then ["key"] else []);
    var sc: seq<string> := if |ids| > 0 then ["scope"] else [];
    var tail := ["prefix", "description"];
    DistinctNames();
    assert EmittedFields(r) == ids + sc + tail;
    assert "filepath" !in tail && "key" !in tail && "scope" !in tail;
    assert "filepath" !in sc && "key" !in sc;
    assert "scope" !in ids;
    assert "filepath" in ids <==> fp;
    assert "key" in ids <==> key;
  }

  predicate NoDuplicates(s: seq<string>) {
    forall i, j :: 0 <= i < j < |s| ==> s[i] != s[j]
  }

  lemma EmittedDistinct(r: Record)
    ensures NoDuplicates(EmittedFields(r))
  {
    var fp, key := Truthy(Field(r, "filepath")), Truthy(Field(r, "key"));
    if fp && key {
      BothEmitted(r);
    } else if fp {
      FilePathEmitted(r);
    } else if key {
      KeyEmitted(r);
    } else {
      assert EmittedFields(r) == ["prefix", "description"];
      DistinctNames();
    }
  }

  lemma BothEmitted(r: Record)
    requires Truthy(Field(r, "filepath")) && Truthy(Field(r, "key"))
    ensures NoDuplicates(EmittedFields(r))
  {
    assert EmittedFields(r) == ["filepath", "key", "scope", "prefix", "description"];
    DistinctNames();
  }

  lemma FilePathEmitted(r: Record)
    requires Truthy(Field(r, "filepath")) && !Truthy(Field(r, "key"))
    ensures NoDuplicates(EmittedFields(r))
  {
    assert EmittedFields(r) == ["filepath", "scope", "prefix", "description"];
    DistinctNames();
  }

  lemma KeyEmitted(r: Record)
    requires !Truthy(Field(r, "filepath")) && Truthy(Field(r, "key"))
    ensures NoDuplicates(EmittedFields(r))
  {
    assert EmittedFields(r) == ["key", "scope", "prefix", "description"];
    DistinctNames();
  }

  /** `snippet[key] || ""` seen as an array: one entry per list element. */
  function ValueLines(v: Option<Value>): seq<string> {
    match v
    case Some(List(xs)) => xs
    case Some(Str(s)) => [s]
    case None => [""]
  }

  /** The marker written in front of a continuation line: as many spaces
      as `@name` has characters. */
  function Pad(name: string): (p: string)
    ensures |p| == |name| + 1
  {
    Spaces(|name| + 1)
  }

  function MetaLine(comment: string, marker: string, item: string): string {
    comment + " " + marker + " " + item
  }

  /** One line per item: `@name` in front of the first, padding in front
      of the others. */
  function MarkedLines(comment: string, name: string, items: seq<string>): (ls: seq<string>)
    ensures |ls| == |items|
    ensures forall i :: 0 <= i < |items| ==>
      ls[i] == MetaLine(comment, if i == 0 then "@" + name else Pad(name), items[i])
  {
    if |items| == 0 then []
    else
      var n := |items| - 1;
      MarkedLines(comment, name, items[..n]) + [MetaLine(comment, if n == 0 then "@" + name else Pad(name), items[n])]
  }

  /** The lines written for one element `one` of field `name`. */
  function ElementLines(comment: string, name: string, one: string): seq<string> {
    MarkedLines(comment, name, Split(one, '\n'))
  }

  /** The lines written for the elements `elems` of field `name`. */
  function FieldLines(comment: string, name: string, elems: seq<string>): seq<string> {
    if |elems| == 0 then []
    else FieldLines(comment, name, elems[..|elems| - 1]) + ElementLines(comment, name, elems[|elems| - 1])
  }

  /** The lines written for the fields `names` of `r`. */
  function MetaLines(comment: string, r: Record, names: seq<string>): seq<string> {
    if |names| == 0 then []
    else
      var f := names[|names| - 1];
      MetaLines(comment, r, names[..|names| - 1]) + FieldLines(comment, f, ValueLines(Field(r, f)))
  }

  /** The configured lint-disable header of `lang`, when truthy. */
  function HeaderLines(headers: map<string, string>, lang: string): seq<string> {
    if lang in headers && headers[lang] != "" then [headers[lang]] else []
  }

  /** An array body is joined with newlines; otherwise `body || ""`. */
  function BodyText(r: Record): string {
    match Field(r, "body")
    case Some(List(xs)) => Join(xs, '\n')
    case Some(Str(s)) => s
    case None => ""
  }

  /** `snippet2text(snippet, languageId)`; `None` when it throws. */
  function Encode(r: Record, lang: string, commentOf: map<string, string>, headers: map<string, string>): (t: Option<string>)
    ensures t.None? <==> EffectiveLanguage(r, lang).None?
  {
    match EffectiveLanguage(r, lang)
    case None => None
    case Some(l) =>
      var c := LineComment(commentOf, l);
      Some(Terminated(MetaLines(c, r, EmittedFields(r))) + Terminated(HeaderLines(headers, l)) + "\n" + BodyText(r))
  }

  // ----- text2snippet -----

  /** The non-empty trimmed header values; lines equal to one are dropped. */
  function HeaderSet(headers: map<string, string>): (hs: set<string>)
    ensures forall h :: h in hs ==> h != ""
    ensures forall v :: v in headers.Values && Trim(v) != "" ==> Trim(v) in hs
  {
    set v | v in headers.Values && Trim(v) != "" :: Trim(v)
  }

  /** `lines.filter(x => !headers.has(x.trim()))`. */
  function DropHeaders(lines: seq<string>, hs: set<string>): (r: seq<string>)
    ensures |r| <= |lines|
    ensures forall i :: 0 <= i < |r| ==> Trim(r[i]) !in hs && r[i] in lines
  {
    if |lines| == 0 then []
    else
      var rest := DropHeaders(lines[1..], hs);
      if Trim(lines[0]) in hs then rest else [lines[0]] + rest
  }

  /** The metadata block: the longest prefix of lines that start with the
      comment token. */
  function BlockEnd(lines: seq<string>, comment: string): (n: nat)
    ensures n <= |lines|
    ensures forall i :: 0 <= i < n ==> StartsWith(lines[i], comment)
    ensures n < |lines| ==> !StartsWith(lines[n], comment)
  {
    if |lines| == 0 || !StartsWith(lines[0], comment) then 0
    else 1 + BlockEnd(lines[1..], comment)
  }

  /** Number of leading empty lines. */
  function LeadingEmpty(xs: seq<string>): (n: nat)
    ensures n <= |xs|
    ensures forall i :: 0 <= i < n ==> xs[i] == ""
    ensures n < |xs| ==> xs[n] != ""
  {
    if |xs| == 0 || xs[0] != "" then 0 else 1 + LeadingEmpty(xs[1..])
  }

  /** What `/^\s*@\w+\s*` matches: the match's length and the word. */
  datatype Match = Match(len: nat, name: string)

  function Marker(rest: string): (m: Option<Match>)
    ensures m.Some? ==> m.value.len <= |rest| && m.value.name != ""
  {
    var k := LeadingSpaces(rest);
    if k < |rest| && rest[k] == '@' then
      var w := WordPrefix(rest[k + 1..]);
      if w == 0 then None
      else
        var after := k + 1 + w;
        Some(Match(after + LeadingSpaces(rest[after..]), rest[k + 1..after]))
    else None
  }

  /** The field a continuation line extends, and the width of its marker
      (`prev`, `key`). */
  datatype Cursor = Cursor(width: nat, name: string)

  /** The record built so far, and the current field. */
  datatype Parse = Parse(fields: Record, cursor: Option<Cursor>)

  /** A repeated field: an array gets the value pushed, a non-empty string
      becomes a two-element array, anything else is overwritten. */
  function Accumulate(prior: Option<Value>, v: string): (r: Value)
    ensures prior.None? ==> r == Str(v)
    ensures prior.Some? && prior.value.List? ==> r == List(prior.value.items + [v])
    ensures prior.Some? && prior.value.Str? && prior.value.s != "" ==> r == List([prior.value.s, v])
    ensures prior == Some(Str("")) ==> r == Str(v)
  {
    match prior
    case Some(List(xs)) => List(xs + [v])
    case Some(Str(s)) => if s != "" then List([s, v]) else Str(v)
    case None => Str(v)
  }

  /** `+= "\n" + s` on the field's last value. On an undefined field the
      string "undefined" is extended; on an empty array the update lands on
      the property "-1", which is not an element. */
  function AppendLast(prior: Option<Value>, s: string): Value {
    match prior
    case Some(List(xs)) =>
      if |xs| == 0 then List(xs) else List(xs[..|xs| - 1] + [xs[|xs| - 1] + "\n" + s])
    case Some(Str(v)) => Str(v + "\n" + s)
    case None => Str("undefined" + "\n" + s)
  }

  /** One metadata line. */
  function Step(st: Parse, line: string, comment: string): Parse {
    var rest := if |comment| <= |line| then line[|comment|..] else "";
    match Marker(rest)
    case Some(m) =>
      Parse(st.fields[m.name := Accumulate(Field(st.fields, m.name), rest[m.len..])], Some(Cursor(m.len, m.name)))
    case None =>
      match st.cursor
      case None => st
      case Some(c) =>
        var s := if StartsWith(rest, Spaces(c.width)) then rest[c.width..] else TrimStart(rest);
        Parse(st.fields[c.name := AppendLast(Field(st.fields, c.name), s)], st.cursor)
  }

  function Fold(st: Parse, lines: seq<string>, comment: string): Parse {
    if |lines| == 0 then st
    else Step(Fold(st, lines[..|lines| - 1], comment), lines[|lines| - 1], comment)
  }

  /** `text2snippet(text, languageId)`. */
  function Decode(text: string, lang: string, commentOf: map<string, string>, headers: map<string, string>): (r: Record)
    ensures "body" in r
  {
    var c := LineComment(commentOf, lang);
    var lines := DropHeaders(Split(text, '\n'), HeaderSet(headers));
    var n := BlockEnd(lines, c);
    var body := if n < |lines| then List(lines[n..][LeadingEmpty(lines[n..])..]) else Str("");
    Fold(Parse(map[], None), lines[..n], c).fields["body" := body]
  }

  // ----- the loops of the source -----

  /** Writing two runs of lines one after the other. */
  lemma {:induction false} TerminatedAppend(xs: seq<string>, ys: seq<string>)
    ensures Terminated(xs + ys) == Terminated(xs) + Terminated(ys)
    decreases |ys|
  {
    if |ys| == 0 {
      assert xs + ys == xs;
    } else {
      var n := |ys| - 1;
      assert (xs + ys)[..|xs + ys| - 1] == xs + ys[..n];
      TerminatedAppend(xs, ys[..n]);
    }
  }

  lemma TerminatedSnoc(xs: seq<string>, x: string)
    ensures Terminated(xs + [x]) == Terminated(xs) + x + "\n"
  {
    assert (xs + [x])[..|xs|] == xs;
  }

  lemma MarkedLinesSnoc(comment: string, name: string, items: seq<string>, j: nat)
    requires j < |items|
    ensures MarkedLines(comment, name, items[..j + 1])
      == MarkedLines(comment, name, items[..j]) + [MetaLine(comment, if j == 0 then "@" + name else Pad(name), items[j])]
  {
    assert items[..j + 1][..j] == items[..j];
  }

  /** The innermost loop of `snippet2text`: one line per "\n"-separated
      line of the element, the marker turning into spaces after the first. */
  method WriteElement(comment: string, key: string, one: string) returns (text: string)
    ensures text == Terminated(ElementLines(comment, key, one))
  {
    text := "";
    var k := "@" + key;
    var items := Split(one, '\n');
    for j := 0 to |items|
      invariant k == if j == 0 then "@" + key else Pad(key)
      invariant text == Terminated(MarkedLines(comment, key, items[..j]))
    {
      text := text + MetaLine(comment, k, items[j]) + "\n";
      MarkedLinesSnoc(comment, key, items, j);
      TerminatedSnoc(MarkedLines(comment, key, items[..j]), MetaLine(comment, k, items[j]));
      if k[0] != ' ' {
        k := Spaces(|k|);
      }
    }
    assert items[..|items|] == items;
  }

  lemma FieldLinesSnoc(comment: string, key: string, arr: seq<string>, i: nat)
    requires i < |arr|
    ensures FieldLines(comment, key, arr[..i + 1]) == FieldLines(comment, key, arr[..i]) + ElementLines(comment, key, arr[i])
  {
    assert arr[..i + 1][..i] == arr[..i];
  }

  /** The element loop of `snippet2text` for one field. */
  method WriteField(comment: string, key: string, arr: seq<string>) returns (text: string)
    ensures text == Terminated(FieldLines(comment, key, arr))
  {
    text := "";
    for ei := 0 to |arr|
      invariant text == Terminated(FieldLines(comment, key, arr[..ei]))
    {
      var piece := WriteElement(comment, key, arr[ei]);
      FieldLinesSnoc(comment, key, arr, ei);
      TerminatedAppend(FieldLines(comment, key, arr[..ei]), ElementLines(comment, key, arr[ei]));
      text := text + piece;
    }
    assert arr[..|arr|] == arr;
  }

  lemma MetaLinesSnoc(comment: string, r: Record, keys: seq<string>, i: nat)
    requires i < |keys|
    ensures MetaLines(comment, r, keys[..i + 1])
      == MetaLines(comment, r, keys[..i]) + FieldLines(comment, keys[i], ValueLines(Field(r, keys[i])))
  {
    assert keys[..i + 1][..i] == keys[..i];
  }

  /** The field loop of `snippet2text`. */
  method WriteMeta(comment: string, r: Record, keys: seq<string>) returns (text: string)
    ensures text == Terminated(MetaLines(comment, r, keys))
  {
    text := "";
    for ki := 0 to |keys|
      invariant text == Terminated(MetaLines(comment, r, keys[..ki]))
    {
      var piece := WriteField(comment, keys[ki], ValueLines(Field(r, keys[ki])));
      MetaLinesSnoc(comment, r, keys, ki);
      TerminatedAppend(MetaLines(comment, r, keys[..ki]), FieldLines(comment, keys[ki], ValueLines(Field(r, keys[ki]))));
      text := text + piece;
    }
    assert keys[..|keys|] == keys;
  }

  /** At most one header line, written with its line end. */
  lemma HeaderText(h: seq<string>)
    requires |h| <= 1
    ensures Terminated(h) == if |h| == 0 then "" else h[0] + "\n"
  {
    if |h| == 1 {
      assert h[..0] == [];
      assert "" + h[0] == h[0];
    }
  }

  /** Appending nothing. */
  lemma NoText(t: string)
    ensures t + "" == t
  {
  }

  /** `snippet2text`, loop by loop. */
  method Snippet2Text(r: Record, lang: string, commentOf: map<string, string>, headers: map<string, string>)
    returns (text: Option<string>)
    ensures text == Encode(r, lang, commentOf, headers)
  {
    var l := EffectiveLanguage(r, lang);
    if l.None? {
      return None;
    }
    var comment := LineComment(commentOf, l.value);
    var t := WriteMeta(comment, r, EmittedFields(r));
    var h := HeaderLines(headers, l.value);
    ghost var meta := t;
    ghost var head := Terminated(h);
    HeaderText(h);
    if |h| > 0 {
      t := t + (h[0] + "\n");
    } else {
      NoText(t);
    }
    assert t == meta + head;
    t := t + "\n";
    ghost var upper := t;
    var body := Field(r, "body");
    var bodyText: string;
    if body.Some? && body.value.List? {
      bodyText := Join(body.value.items, '\n');
    } else if body.Some? {
      bodyText := body.value.s;
    } else {
      bodyText := "";
    }
    assert bodyText == BodyText(r);
    t := t + bodyText;
    assert Encode(r, lang, commentOf, headers) == Some(meta + head + "\n" + BodyText(r));
    text := Some(t);
  }

  /** The block search of `text2snippet`: the metadata lines, and the
      rest with its leading empty lines shifted off (`""` when no line
      follows the block). */
  method SplitBody(all: seq<string>, comment: string) returns (lines: seq<string>, body: Value)
    ensures lines == all[..BlockEnd(all, comment)]
    ensures body == if BlockEnd(all, comment) < |all| then
      var rest := all[BlockEnd(all, comment)..]; List(rest[LeadingEmpty(rest)..])
      else Str("")
  {
    lines := all;
    body := Str("");
    var i := 0;
    while i < |lines|
      invariant 0 <= i <= |all| && lines == all && body == Str("")
      invariant forall j :: 0 <= j < i ==> StartsWith(all[j], comment)
    {
      if !StartsWith(lines[i], comment) {
        var b := lines[i..];
        ghost var k := 0;
        while |b| > 0 && b[0] == ""
          invariant 0 <= k <= |all[i..]| && b == all[i..][k..]
          invariant forall j :: 0 <= j < k ==> all[i..][j] == ""
        {
          b := b[1..];
          k := k + 1;
        }
        assert i == BlockEnd(all, comment);
        assert k == LeadingEmpty(all[i..]);
        body := List(b);
        lines := lines[..i];
        return;
      }
      i := i + 1;
    }
    assert lines[..|all|] == lines;
  }

  /** One pass of the metadata loop of `text2snippet`: `fields` is the
      `snippet` object, `prev` holds `prev` and `key`. */
  method ParseLine(fields: Record, prev: Option<Cursor>, line: string, comment: string)
    returns (fields': Record, prev': Option<Cursor>)
    ensures Parse(fields', prev') == Step(Parse(fields, prev), line, comment)
  {
    fields', prev' := fields, prev;
    var rest := if |comment| <= |line| then line[|comment|..] else "";
    var m := Marker(rest);
    if m.Some? {
      var key := m.value.name;
      var v := rest[m.value.len..];
      var value: Value;
      if key in fields && fields[key].List? {
        value := List(fields[key].items + [v]);
      } else if key in fields && fields[key] != Str("") {
        value := List([fields[key].s, v]);
      } else {
        value := Str(v);
      }
      assert value == Accumulate(Field(fields, key), v);
      fields' := fields[key := value];
      prev' := Some(Cursor(m.value.len, key));
    } else if prev.Some? {
      var w := prev.value.width;
      var key := prev.value.name;
      var s := if StartsWith(rest, Spaces(w)) then rest[w..] else TrimStart(rest);
      var value: Value;
      if key in fields && fields[key].List? {
        var arr := fields[key].items;
        if |arr| > 0 {
          value := List(arr[..|arr| - 1] + [arr[|arr| - 1] + "\n" + s]);
        } else {
          value := fields[key];
        }
      } else if key in fields {
        value := Str(fields[key].s + "\n" + s);
      } else {
        value := Str("undefined" + "\n" + s);
      }
      assert value == AppendLast(Field(fields, key), s);
      fields' := fields[key := value];
    }
  }

  /** The metadata loop of `text2snippet`. */
  method ParseBlock(lines: seq<string>, comment: string) returns (fields: Record)
    ensures fields == Fold(Parse(map[], None), lines, comment).fields
  {
    fields := map[];
    var prev: Option<Cursor> := None;
    for j := 0 to |lines|
      invariant Parse(fields, prev) == Fold(Parse(map[], None), lines[..j], comment)
    {
      assert lines[..j + 1][..j] == lines[..j];
      fields, prev := ParseLine(fields, prev, lines[j], comment);
    }
    assert lines[..|lines|] == lines;
  }

  /** `text2snippet`, loop by loop. */
  method Text2Snippet(text: string, lang: string, commentOf: map<string, string>, headers: map<string, string>)
    returns (snippet: Record)
    ensures snippet == Decode(text, lang, commentOf, headers)
  {
    var comment := LineComment(commentOf, lang);
    var all := DropHeaders(Split(text, '\n'), HeaderSet(headers));
    var lines, body := SplitBody(all, comment);
    var fields := ParseBlock(lines, comment);
    snippet := fields["body" := body];
  }
}
