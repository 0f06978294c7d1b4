/** What `text2snippet` gives back from `snippet2text`'s output
    (common/utils.js:156-228).

    The written fields come back, and so do the body lines. A field with
    one element comes back as a string and one with several as a list; the
    body always comes back as a list of lines. This holds when no value
    line could be read as something else, i.e. when:
    - no value line has leading white space or starts with `@word`;
    - no field with several elements has an empty first element;
    - no written line equals a configured lint header;
    - the comment token and the header are single lines. */
module CodecLaws {
  import opened Strings
  import opened Records
  import opened Codec

  // ----- the conditions -----

  /** A value line that reads back as itself: no leading white space (the
      marker's trailing `\s*` would eat it) and no `@word` start (it would
      open a field). */
  predicate SafeLine(item: string) {
    (|item| == 0 || !IsSpace(item[0]))
    && !(|item| >= 2 && item[0] == '@' && IsWordChar(item[1]))
  }

  predicate SafeElements(elems: seq<string>) {
    forall e :: e in elems ==> forall item :: item in Split(e, '\n') ==> SafeLine(item)
  }

  /** A repeat after an empty first value overwrites it instead of
      starting a list. */
  predicate FirstNonEmpty(elems: seq<string>) {
    |elems| >= 2 ==> elems[0] != ""
  }

  predicate FieldsSafe(r: Record) {
    forall f :: f in EmittedFields(r) ==>
      SafeElements(ValueLines(Field(r, f))) && FirstNonEmpty(ValueLines(Field(r, f)))
  }

  predicate HeaderSingleLine(headers: map<string, string>, lang: string) {
    lang in headers && headers[lang] != "" ==> '\n' !in headers[lang] && Trim(headers[lang]) != ""
  }

  predicate NoHeaderClash(r: Record, comment: string, hs: set<string>) {
    forall line :: line in MetaLines(comment, r, EmittedFields(r)) + Split(BodyText(r), '\n') ==> Trim(line) !in hs
  }

  predicate RoundTrips(r: Record, lang: string, commentOf: map<string, string>, headers: map<string, string>) {
    lang != ""
    && '\n' !in LineComment(commentOf, lang)
    && FieldsSafe(r)
    && HeaderSingleLine(headers, lang)
    && NoHeaderClash(r, LineComment(commentOf, lang), HeaderSet(headers))
  }

  // ----- what comes back -----

  /** One element reads back as a string, several as a list. */
  function Collapse(xs: seq<string>): Value
    requires |xs| >= 1
  {
    if |xs| == 1 then Str(xs[0]) else List(xs)
  }

  /** The fields `names` of `r` as they read back. */
  function Decoded(r: Record, names: seq<string>): Record {
    map f | f in names && ValueLines(Field(r, f)) != [] :: Collapse(ValueLines(Field(r, f)))
  }

  function Expected(r: Record): Record {
    var b := Split(BodyText(r), '\n');
    Decoded(r, EmittedFields(r))["body" := List(b[LeadingEmpty(b)..])]
  }

  /** What `Expected` keeps of each written field: a string or a list of
      at least two elements comes back unchanged, a missing field as the
      empty string, and an empty list not at all. */
  lemma ExpectedField(r: Record, f: string)
    requires f in EmittedFields(r)
    ensures var v := Field(r, f);
      (v.Some? && (v.value.Str? || |v.value.items| >= 2) ==> f in Expected(r) && Expected(r)[f] == v.value)
      && (v.None? ==> f in Expected(r) && Expected(r)[f] == Str(""))
      && (v == Some(List([])) ==> f !in Expected(r))
  {
    assert f != "body" by {
      EmittedNames(r);
    }
    var d := Decoded(r, EmittedFields(r));
    var xs := ValueLines(Field(r, f));
    assert f in d <==> xs != [];
    assert f in d ==> d[f] == Collapse(xs);
    assert f in Expected(r) <==> f in d;
    assert f in d ==> Expected(r)[f] == d[f];
  }

  /** `text2snippet(snippet2text(s, L), L)`. */
  lemma RoundTrip(r: Record, lang: string, commentOf: map<string, string>, headers: map<string, string>)
    requires RoundTrips(r, lang, commentOf, headers)
    ensures Encode(r, lang, commentOf, headers).Some?
    ensures Decode(Encode(r, lang, commentOf, headers).value, lang, commentOf, headers) == Expected(r)
  {
    TextLines(r, lang, commentOf, headers);
    DecodeEncoded(r, Encode(r, lang, commentOf, headers).value, lang, commentOf, headers);
  }

  /** Decoding a text whose kept lines are the metadata block of `r`, an
      empty line and the body of `r` gives `Expected(r)`. */
  lemma DecodeEncoded(r: Record, text: string, lang: string, commentOf: map<string, string>, headers: map<string, string>)
    requires var c := LineComment(commentOf, lang);
      && '\n' !in c && FieldsSafe(r)
      && DropHeaders(Split(text, '\n'), HeaderSet(headers)) == MetaLines(c, r, EmittedFields(r)) + [""] + Split(BodyText(r), '\n')
    ensures Decode(text, lang, commentOf, headers) == Expected(r)
  {
    var c := LineComment(commentOf, lang);
    MetaCommented(c, r);
    MetaRead(c, r);
    DecodeLines(text, lang, commentOf, headers,
      MetaLines(c, r, EmittedFields(r)), Split(BodyText(r), '\n'), Decoded(r, EmittedFields(r)));
  }

  /** Every metadata line starts with the comment token. */
  lemma MetaCommented(c: string, r: Record)
    requires '\n' !in c
    ensures forall line :: line in MetaLines(c, r, EmittedFields(r)) ==> StartsWith(line, c)
  {
    EmittedNames(r);
    MetaShape(c, r, EmittedFields(r));
  }

  /** The metadata block folds back to the written fields. */
  lemma MetaRead(c: string, r: Record)
    requires '\n' !in c && FieldsSafe(r)
    ensures Fold(Parse(map[], None), MetaLines(c, r, EmittedFields(r)), c).fields == Decoded(r, EmittedFields(r))
  {
    EmittedNames(r);
    FoldMeta(c, r, EmittedFields(r));
  }

  /** Decoding a text whose kept lines are a comment block, an empty line
      and the body: the fields the block folds to, and the body from its
      first non-empty line. */
  lemma DecodeLines(text: string, lang: string, commentOf: map<string, string>, headers: map<string, string>,
                    meta: seq<string>, b: seq<string>, fields: Record)
    requires var c := LineComment(commentOf, lang);
      && DropHeaders(Split(text, '\n'), HeaderSet(headers)) == meta + [""] + b
      && (forall line :: line in meta ==> StartsWith(line, c))
      && Fold(Parse(map[], None), meta, c).fields == fields
    ensures Decode(text, lang, commentOf, headers) == fields["body" := List(b[LeadingEmpty(b)..])]
  {
    var c := LineComment(commentOf, lang);
    BlockEndText(meta, b, c);
    BodyAfterBlock(meta, b);
    DecodeIs(text, lang, commentOf, headers, meta + [""] + b, |meta|);
  }

  /** The lines `text2snippet` keeps: the metadata lines, the empty line
      and the body lines. */
  lemma TextLines(r: Record, lang: string, commentOf: map<string, string>, headers: map<string, string>)
    requires RoundTrips(r, lang, commentOf, headers)
    ensures Encode(r, lang, commentOf, headers).Some?
    ensures var c := LineComment(commentOf, lang);
      DropHeaders(Split(Encode(r, lang, commentOf, headers).value, '\n'), HeaderSet(headers))
      == MetaLines(c, r, EmittedFields(r)) + [""] + Split(BodyText(r), '\n')
  {
    var c := LineComment(commentOf, lang);
    var hs := HeaderSet(headers);
    var names := EmittedFields(r);
    var meta := MetaLines(c, r, names);
    var h := HeaderLines(headers, lang);
    var b := Split(BodyText(r), '\n');
    var text := Encode(r, lang, commentOf, headers).value;
    assert text == Terminated(meta) + Terminated(h) + "\n" + BodyText(r);
    EmittedNames(r);
    MetaShape(c, r, names);
    SplitText(meta, h, BodyText(r));
    HeaderDropped(headers, lang);
    DropHeadersText(meta, h, b, hs);
  }

  /** `Decode` once its lines and its block end are known. */
  lemma DecodeIs(text: string, lang: string, commentOf: map<string, string>, headers: map<string, string>,
                 lines: seq<string>, n: nat)
    requires DropHeaders(Split(text, '\n'), HeaderSet(headers)) == lines
    requires n == BlockEnd(lines, LineComment(commentOf, lang)) && n < |lines|
    ensures Decode(text, lang, commentOf, headers)
      == Fold(Parse(map[], None), lines[..n], LineComment(commentOf, lang)).fields["body" := List(lines[n..][LeadingEmpty(lines[n..])..])]
  {
  }

  lemma BodyAfterBlock(meta: seq<string>, b: seq<string>)
    ensures var lines := meta + [""] + b;
      |meta| < |lines| && lines[..|meta|] == meta
      && lines[|meta|..][LeadingEmpty(lines[|meta|..])..] == b[LeadingEmpty(b)..]
  {
    var lines := meta + [""] + b;
    assert lines[..|meta|] == meta;
    assert lines[|meta|..] == [""] + b;
    assert ([""] + b)[1..] == b;
    assert LeadingEmpty([""] + b) == 1 + LeadingEmpty(b);
  }

  // ----- field names -----

  predicate WordName(f: string) {
    |f| > 0 && forall i :: 0 <= i < |f| ==> IsWordChar(f[i])
  }

  lemma WordNames()
    ensures WordName("filepath") && WordName("key") && WordName("scope")
    ensures WordName("prefix") && WordName("description")
  {
  }

  lemma EmittedNames(r: Record)
    ensures forall f :: f in EmittedFields(r) ==> WordName(f) && f != "body"
  {
    WordNames();
    var fs := EmittedFields(r);
    forall f | f in fs ensures WordName(f) && f != "body" {
      assert f == "filepath" || f == "key" || f == "scope" || f == "prefix" || f == "description";
    }
  }

  // ----- the shape of the written lines -----

  lemma {:induction false} MarkedShape(c: string, f: string, items: seq<string>)
    requires '\n' !in c && WordName(f)
    requires forall item :: item in items ==> '\n' !in item
    ensures forall line :: line in MarkedLines(c, f, items) ==> StartsWith(line, c) && '\n' !in line
  {
    if |items| > 0 {
      var n := |items| - 1;
      MarkedShape(c, f, items[..n]);
      assert items[n] in items;
      var m := if n == 0 then "@" + f else Pad(f);
      assert '\n' !in m;
      var line := MetaLine(c, m, items[n]);
      assert line[..|c|] == c;
    }
  }

  lemma {:induction false} FieldShape(c: string, f: string, elems: seq<string>)
    requires '\n' !in c && WordName(f)
    ensures forall line :: line in FieldLines(c, f, elems) ==> StartsWith(line, c) && '\n' !in line
  {
    if |elems| > 0 {
      var n := |elems| - 1;
      FieldShape(c, f, elems[..n]);
      MarkedShape(c, f, Split(elems[n], '\n'));
    }
  }

  lemma {:induction false} MetaShape(c: string, r: Record, names: seq<string>)
    requires '\n' !in c
    requires forall f :: f in names ==> WordName(f)
    ensures forall line :: line in MetaLines(c, r, names) ==> StartsWith(line, c) && '\n' !in line
  {
    if |names| > 0 {
      var n := |names| - 1;
      assert names[n] in names;
      MetaShape(c, r, names[..n]);
      FieldShape(c, names[n], ValueLines(Field(r, names[n])));
    }
  }

  // ----- splitting the text -----

  /** Lines written with a newline after each come back as those lines. */
  lemma LinesAssoc(a: seq<string>, b: seq<string>, c: seq<string>)
    ensures a + (b + c) == (a + b) + c
  {
  }

  lemma {:induction false} SplitTerminated(xs: seq<string>, t: string)
    requires forall x :: x in xs ==> '\n' !in x
    ensures Split(Terminated(xs) + t, '\n') == xs + Split(t, '\n')
    decreases |xs|
  {
    if |xs| > 0 {
      var n := |xs| - 1;
      var init := xs[..n];
      assert xs[n] in xs;
      assert Terminated(xs) + t == Terminated(init) + (xs[n] + ['\n'] + t);
      SplitTerminated(init, xs[n] + ['\n'] + t);
      SplitCons(xs[n], '\n', t);
      assert xs == init + [xs[n]];
      LinesAssoc(init, [xs[n]], Split(t, '\n'));
    } else {
      assert Terminated(xs) + t == t;
    }
  }

  lemma SplitText(meta: seq<string>, h: seq<string>, body: string)
    requires forall x :: x in meta + h ==> '\n' !in x
    ensures Split(Terminated(meta) + Terminated(h) + "\n" + body, '\n') == meta + h + [""] + Split(body, '\n')
  {
    TerminatedAppend(meta, h);
    assert Terminated(meta) + Terminated(h) + "\n" + body == Terminated(meta + h) + ("" + ['\n'] + body);
    SplitTerminated(meta + h, "" + ['\n'] + body);
    SplitCons("", '\n', body);
  }

  // ----- dropping header lines -----

  lemma {:induction false} DropHeadersAppend(xs: seq<string>, ys: seq<string>, hs: set<string>)
    ensures DropHeaders(xs + ys, hs) == DropHeaders(xs, hs) + DropHeaders(ys, hs)
  {
    if |xs| > 0 {
      assert (xs + ys)[1..] == xs[1..] + ys;
      DropHeadersAppend(xs[1..], ys, hs);
    } else {
      assert xs + ys == ys;
    }
  }

  lemma {:induction false} DropHeadersKeep(xs: seq<string>, hs: set<string>)
    requires forall x :: x in xs ==> Trim(x) !in hs
    ensures DropHeaders(xs, hs) == xs
  {
    if |xs| > 0 {
      assert xs[0] in xs;
      DropHeadersKeep(xs[1..], hs);
    }
  }

  /** The configured header line is dropped. */
  lemma HeaderDropped(headers: map<string, string>, lang: string)
    requires HeaderSingleLine(headers, lang)
    ensures DropHeaders(HeaderLines(headers, lang), HeaderSet(headers)) == []
  {
    if lang in headers && headers[lang] != "" {
      assert headers[lang] in headers.Values;
    }
  }

  lemma DropHeadersText(meta: seq<string>, h: seq<string>, b: seq<string>, hs: set<string>)
    requires DropHeaders(h, hs) == [] && "" !in hs
    requires forall x :: x in meta ==> Trim(x) !in hs
    requires forall x :: x in b ==> Trim(x) !in hs
    ensures DropHeaders(meta + h + [""] + b, hs) == meta + [""] + b
  {
    var tail := [""] + b;
    assert meta + h + [""] + b == (meta + h) + tail;
    DropHeadersAppend(meta + h, tail, hs);
    DropMetaHeaders(meta, h, hs);
    assert Trim("") == "";
    DropHeadersKeep(tail, hs);
    assert meta + tail == meta + [""] + b;
  }

  /** The header lines between the metadata and the body all go. */
  lemma DropMetaHeaders(meta: seq<string>, h: seq<string>, hs: set<string>)
    requires DropHeaders(h, hs) == []
    requires forall x :: x in meta ==> Trim(x) !in hs
    ensures DropHeaders(meta + h, hs) == meta
  {
    DropHeadersAppend(meta, h, hs);
    DropHeadersKeep(meta, hs);
    assert meta + [] == meta;
  }

  lemma BlockEndText(meta: seq<string>, b: seq<string>, c: string)
    requires c != ""
    requires forall line :: line in meta ==> StartsWith(line, c)
    ensures BlockEnd(meta + [""] + b, c) == |meta|
  {
    var lines := meta + [""] + b;
    var n := BlockEnd(lines, c);
    assert forall i :: 0 <= i < |meta| ==> lines[i] == meta[i] && meta[i] in meta;
    assert lines[|meta|] == "";
  }

  // ----- reading the metadata block -----

  lemma {:induction false} FoldSnoc(st: Parse, xs: seq<string>, x: string, c: string)
    ensures Fold(st, xs + [x], c) == Step(Fold(st, xs, c), x, c)
  {
    assert (xs + [x])[..|xs|] == xs;
  }

  lemma {:induction false} FoldAppend(st: Parse, xs: seq<string>, ys: seq<string>, c: string)
    ensures Fold(st, xs + ys, c) == Fold(Fold(st, xs, c), ys, c)
    decreases |ys|
  {
    if |ys| == 0 {
      assert xs + ys == xs;
    } else {
      var n := |ys| - 1;
      assert xs + ys == (xs + ys[..n]) + [ys[n]];
      FoldAppend(st, xs, ys[..n], c);
      FoldSnoc(st, xs + ys[..n], ys[n], c);
      FoldSnoc(Fold(st, xs, c), ys[..n], ys[n], c);
    }
  }

  lemma LeadingSpacesIs(s: string, k: nat)
    requires k <= |s| && forall i :: 0 <= i < k ==> IsSpace(s[i])
    requires k < |s| ==> !IsSpace(s[k])
    ensures LeadingSpaces(s) == k
  {
  }

  lemma WordPrefixIs(s: string, k: nat)
    requires k <= |s| && forall i :: 0 <= i < k ==> IsWordChar(s[i])
    requires k < |s| ==> !IsWordChar(s[k])
    ensures WordPrefix(s) == k
  {
  }

  /** The first line of an element opens field `f`, and its value starts
      right after the marker. */
  lemma MarkerFirst(f: string, item: string)
    requires WordName(f) && SafeLine(item)
    ensures Marker(" @" + f + " " + item) == Some(Match(|f| + 3, f))
    ensures (" @" + f + " " + item)[|f| + 3..] == item
  {
    var tail := f + " " + item;
    var rest := " @" + f + " " + item;
    NameThenValue(f, item);
    assert rest[2..] == tail;
    assert LeadingSpaces(rest) == 1 by {
      LeadingSpacesIs(rest, 1);
    }
    assert rest[2 + |f|..] == tail[|f|..];
    assert rest[2..2 + |f|] == tail[..|f|];
    assert rest[|f| + 3..] == tail[|f| + 1..];
  }

  /** After the `@`: the name is the whole word, one space follows it, and
      the value comes after that space. */
  lemma NameThenValue(f: string, item: string)
    requires WordName(f) && SafeLine(item)
    ensures var tail := f + " " + item;
      WordPrefix(tail) == |f| && LeadingSpaces(tail[|f|..]) == 1
      && tail[..|f|] == f && tail[|f| + 1..] == item
  {
    var tail := f + " " + item;
    WordPrefixIs(tail, |f|);
    assert tail[|f|..] == " " + item;
    LeadingSpacesIs(tail[|f|..], 1);
    assert tail[..|f|] == f;
    assert tail[|f| + 1..] == item;
  }

  /** A continuation line opens no field. */
  lemma MarkerPadded(w: nat, item: string)
    requires SafeLine(item)
    ensures Marker(Spaces(w) + item) == None
  {
    var rest := Spaces(w) + item;
    LeadingSpacesIs(rest, w);
    if w < |rest| && rest[w] == '@' {
      assert rest[w + 1..] == item[1..];
      if |item| >= 2 {
        WordPrefixIs(item[1..], 0);
      }
    }
  }

  lemma AccumulateCollapse(prior: seq<string>, v: string)
    requires |prior| >= 1 ==> prior[0] != ""
    ensures Accumulate(if |prior| == 0 then None else Some(Collapse(prior)), v) == Collapse(prior + [v])
  {
    if |prior| == 1 {
      assert prior + [v] == [prior[0], v];
    }
  }

  lemma AppendLastCollapse(prior: seq<string>, cur: string, s: string)
    ensures AppendLast(Some(Collapse(prior + [cur])), s) == Collapse(prior + [cur + "\n" + s])
  {
    var xs := prior + [cur];
    if |prior| > 0 {
      assert xs[..|xs| - 1] == prior;
    }
  }

  /** The state while the lines of one element are read: the field's last
      value holds the element's lines so far, joined. */
  ghost predicate Reading(st: Parse, base: Record, f: string, prior: seq<string>, cur: string) {
    st.fields == base[f := Collapse(prior + [cur])] && st.cursor == Some(Cursor(|f| + 3, f))
  }

  /** The first line of an element starts a new value of the field. */
  lemma StepFirst(st: Parse, c: string, f: string, prior: seq<string>, item: string)
    requires WordName(f) && SafeLine(item)
    requires Field(st.fields, f) == (if |prior| == 0 then None else Some(Collapse(prior)))
    requires |prior| >= 1 ==> prior[0] != ""
    ensures Reading(Step(st, MetaLine(c, "@" + f, item), c), st.fields, f, prior, item)
  {
    var line := MetaLine(c, "@" + f, item);
    assert line[|c|..] == " @" + f + " " + item;
    MarkerFirst(f, item);
    AccumulateCollapse(prior, item);
  }

  /** A continuation line extends the field's last value by a line. */
  lemma StepPadded(st: Parse, base: Record, c: string, f: string, prior: seq<string>, cur: string, item: string)
    requires WordName(f) && SafeLine(item)
    requires Reading(st, base, f, prior, cur)
    ensures Reading(Step(st, MetaLine(c, Pad(f), item), c), base, f, prior, cur + "\n" + item)
  {
    var rest := MetaLine(c, Pad(f), item)[|c|..];
    assert rest == Spaces(|f| + 3) + item;
    MarkerPadded(|f| + 3, item);
    assert StartsWith(rest, Spaces(|f| + 3));
    assert rest[|f| + 3..] == item;
    AppendLastCollapse(prior, cur, item);
  }

  lemma {:induction false} FoldMarked(st: Parse, c: string, f: string, prior: seq<string>, items: seq<string>, j: nat)
    requires WordName(f)
    requires Field(st.fields, f) == (if |prior| == 0 then None else Some(Collapse(prior)))
    requires |prior| >= 1 ==> prior[0] != ""
    requires 1 <= j <= |items|
    requires forall item :: item in items ==> SafeLine(item)
    ensures Reading(Fold(st, MarkedLines(c, f, items[..j]), c), st.fields, f, prior, Join(items[..j], '\n'))
  {
    var n := j - 1;
    assert items[..j] == items[..n] + [items[n]];
    var line := MetaLine(c, if n == 0 then "@" + f else Pad(f), items[n]);
    MarkedLinesSnoc(c, f, items, n);
    FoldSnoc(st, MarkedLines(c, f, items[..n]), line, c);
    assert items[n] in items;
    if n == 0 {
      assert MarkedLines(c, f, items[..0]) == [];
      StepFirst(st, c, f, prior, items[0]);
      assert items[..1] == [items[0]];
    } else {
      FoldMarked(st, c, f, prior, items, n);
      var before := Fold(st, MarkedLines(c, f, items[..n]), c);
      var cur := Join(items[..n], '\n');
      assert Reading(before, st.fields, f, prior, cur);
      StepPadded(before, st.fields, c, f, prior, cur, items[n]);
      JoinSnoc(items[..n], items[n], '\n');
    }
  }

  /** Reading the lines of one element adds it to the field. */
  lemma FoldElement(st: Parse, c: string, f: string, prior: seq<string>, e: string)
    requires '\n' !in c && WordName(f)
    requires Field(st.fields, f) == (if |prior| == 0 then None else Some(Collapse(prior)))
    requires |prior| >= 1 ==> prior[0] != ""
    requires forall item :: item in Split(e, '\n') ==> SafeLine(item)
    ensures Fold(st, ElementLines(c, f, e), c).fields == st.fields[f := Collapse(prior + [e])]
  {
    var items := Split(e, '\n');
    FoldMarked(st, c, f, prior, items, |items|);
    assert items[..|items|] == items;
    JoinSplit(e, '\n');
  }

  lemma Overwrite(m: Record, k: string, a: Value, b: Value)
    ensures m[k := a][k := b] == m[k := b]
  {
  }

  /** Reading the lines of one field gives it back, collapsed. */
  lemma {:induction false} FoldField(st: Parse, c: string, f: string, elems: seq<string>)
    requires '\n' !in c && WordName(f) && f !in st.fields
    requires SafeElements(elems) && FirstNonEmpty(elems)
    ensures Fold(st, FieldLines(c, f, elems), c).fields
      == if |elems| == 0 then st.fields else st.fields[f := Collapse(elems)]
    decreases |elems|
  {
    if |elems| > 0 {
      var n := |elems| - 1;
      var prior := elems[..n];
      assert prior + [elems[n]] == elems;
      assert elems[n] in elems;
      FoldField(st, c, f, prior);
      FoldAppend(st, FieldLines(c, f, prior), ElementLines(c, f, elems[n]), c);
      var mid := Fold(st, FieldLines(c, f, prior), c);
      if n >= 1 {
        assert prior[0] == elems[0];
      }
      FoldElement(mid, c, f, prior, elems[n]);
      assert FieldLines(c, f, elems) == FieldLines(c, f, prior) + ElementLines(c, f, elems[n]);
      assert Fold(mid, ElementLines(c, f, elems[n]), c).fields == mid.fields[f := Collapse(elems)];
      if n > 0 {
        Overwrite(st.fields, f, Collapse(prior), Collapse(elems));
      }
    }
  }

  lemma DecodedSnoc(r: Record, names: seq<string>)
    requires |names| > 0
    ensures var f := names[|names| - 1]; var elems := ValueLines(Field(r, f));
      Decoded(r, names) == if |elems| == 0 then Decoded(r, names[..|names| - 1])
        else Decoded(r, names[..|names| - 1])[f := Collapse(elems)]
  {
    var n := |names| - 1;
    assert forall g :: g in names <==> g in names[..n] || g == names[n];
  }

  /** Reading the whole metadata block gives the written fields back. */
  lemma {:induction false} FoldMeta(c: string, r: Record, names: seq<string>)
    requires '\n' !in c
    requires forall f :: f in names ==> WordName(f)
    requires forall f :: f in names ==> SafeElements(ValueLines(Field(r, f))) && FirstNonEmpty(ValueLines(Field(r, f)))
    requires forall i, j :: 0 <= i < j < |names| ==> names[i] != names[j]
    ensures Fold(Parse(map[], None), MetaLines(c, r, names), c).fields == Decoded(r, names)
    decreases |names|
  {
    if |names| > 0 {
      var n := |names| - 1;
      var f := names[n];
      assert f in names;
      assert f !in names[..n];
      FoldMeta(c, r, names[..n]);
      FoldMetaStep(c, r, names);
    } else {
      assert Decoded(r, names) == map[];
    }
  }

  /** One step of `FoldMeta`: reading the last field's lines after the
      others adds that field. */
  lemma FoldMetaStep(c: string, r: Record, names: seq<string>)
    requires '\n' !in c && |names| > 0
    requires var f := names[|names| - 1];
      && WordName(f) && f !in names[..|names| - 1]
      && SafeElements(ValueLines(Field(r, f))) && FirstNonEmpty(ValueLines(Field(r, f)))
    requires Fold(Parse(map[], None), MetaLines(c, r, names[..|names| - 1]), c).fields == Decoded(r, names[..|names| - 1])
    ensures Fold(Parse(map[], None), MetaLines(c, r, names), c).fields == Decoded(r, names)
  {
    var n := |names| - 1;
    var f := names[n];
    var init := Parse(map[], None);
    var elems := ValueLines(Field(r, f));
    FoldAppend(init, MetaLines(c, r, names[..n]), FieldLines(c, f, elems), c);
    var mid := Fold(init, MetaLines(c, r, names[..n]), c);
    FoldField(mid, c, f, elems);
    DecodedSnoc(r, names);
  }
}
