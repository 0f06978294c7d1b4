/** The helpers of common/utils.js besides the text codec: the de-indent of
    `getSelectedText`, the language list of `getLanguages`, and the
    modification-time cache of `readJson`/`clearCaches`. */
module Utils {
  import opened Strings
  import opened Sorting
  import opened Records
  import opened Files

  // ----- getSelectedText -----

  /** The smallest indentation (`/^\s*\/` match length) among `lines`. */
  function MinIndent(lines: seq<string>): (m: nat)
    requires |lines| >= 1
    ensures forall i :: 0 <= i < |lines| ==> m <= LeadingSpaces(lines[i])
    ensures exists i :: 0 <= i < |lines| && m == LeadingSpaces(lines[i])
  {
    var n := |lines| - 1;
    if n == 0 then LeadingSpaces(lines[0])
    else
      var m := MinIndent(lines[..n]);
      var r := if LeadingSpaces(lines[n]) < m then LeadingSpaces(lines[n]) else m;
      LowerIndent(lines, lines[..n], m, r);
      r
  }

  /** The step of `MinIndent`: the smallest indentation of all lines but
      the last, compared with the last line's. */
  lemma LowerIndent(lines: seq<string>, init: seq<string>, m: nat, r: nat)
    requires |lines| >= 2 && init == lines[..|lines| - 1]
    requires forall i :: 0 <= i < |init| ==> m <= LeadingSpaces(init[i])
    requires exists i :: 0 <= i < |init| && m == LeadingSpaces(init[i])
    requires r == if LeadingSpaces(lines[|lines| - 1]) < m then LeadingSpaces(lines[|lines| - 1]) else m
    ensures forall i :: 0 <= i < |lines| ==> r <= LeadingSpaces(lines[i])
    ensures exists i :: 0 <= i < |lines| && r == LeadingSpaces(lines[i])
  {
    var w :| 0 <= w < |init| && m == LeadingSpaces(init[w]);
    assert init[w] == lines[w];
    forall i | 0 <= i < |init| ensures m <= LeadingSpaces(lines[i]) {
      assert init[i] == lines[i];
    }
  }

  /** `MinIndent` over one more line. */
  lemma NextIndent(lines: seq<string>, j: nat)
    requires j < |lines|
    ensures j == 0 ==> MinIndent(lines[..j + 1]) == LeadingSpaces(lines[0])
    ensures j > 0 ==> var m := MinIndent(lines[..j]);
      MinIndent(lines[..j + 1]) == if LeadingSpaces(lines[j]) < m then LeadingSpaces(lines[j]) else m
  {
    assert lines[..j + 1][..j] == lines[..j];
  }

  /** Every line with its first `m` characters cut off. */
  function Dedented(lines: seq<string>, m: nat): (r: seq<string>)
    requires forall i :: 0 <= i < |lines| ==> m <= |lines[i]|
    ensures |r| == |lines| && forall i :: 0 <= i < |r| ==> r[i] == lines[i][m..]
  {
    seq(|lines|, i requires 0 <= i < |lines| => lines[i][m..])
  }

  /** `getSelectedText()`: the selection, with the common indentation
      removed from every line; `""` when no editor is active. */
  method SelectedText(selection: Option<string>) returns (content: string)
    ensures selection.None? ==> content == ""
    ensures selection.Some? ==>
      var lines := Split(selection.value, '\n');
      content == Join(Dedented(lines, MinIndent(lines)), '\n')
  {
    if selection.None? {
      return "";
    }
    content := selection.value;
    var lines := Split(content, '\n');
    var minIndent: Option<nat> := None;
    for j := 0 to |lines|
      invariant minIndent == if j == 0 then None else Some(MinIndent(lines[..j]))
    {
      var indent := LeadingSpaces(lines[j]);
      NextIndent(lines, j);
      if minIndent.None? || indent < minIndent.value {
        minIndent := Some(indent);
      }
    }
    assert lines[..|lines|] == lines;
    if minIndent.Some? {
      content := Join(Dedented(lines, minIndent.value), '\n');
    }
  }

  /** The de-indented text has as many lines as the selection, each line
      loses exactly the common indentation (which is white space), and at
      least one line is left with no indentation. */
  lemma DedentShape(text: string)
    ensures var lines := Split(text, '\n');
      var m := MinIndent(lines);
      var out := Split(Join(Dedented(lines, m), '\n'), '\n');
      |out| == |lines|
      && (forall i :: 0 <= i < |out| ==> lines[i] == lines[i][..m] + out[i])
      && (forall i, k :: 0 <= i < |lines| && 0 <= k < m ==> IsSpace(lines[i][k]))
      && (exists i :: 0 <= i < |out| && LeadingSpaces(out[i]) == 0)
  {
    var lines := Split(text, '\n');
    var m := MinIndent(lines);
    var d := Dedented(lines, m);
    DedentSplits(lines, m);
    DedentPrefix(lines, m);
    var w :| 0 <= w < |lines| && m == LeadingSpaces(lines[w]);
    IndentRest(lines[w], m);
    assert d[w] == lines[w][m..];
  }

  /** Lines without a newline, de-indented and joined, split back into the
      de-indented lines. */
  lemma DedentSplits(lines: seq<string>, m: nat)
    requires |lines| >= 1
    requires forall i :: 0 <= i < |lines| ==> '\n' !in lines[i] && m <= |lines[i]|
    ensures Split(Join(Dedented(lines, m), '\n'), '\n') == Dedented(lines, m)
  {
    var d := Dedented(lines, m);
    forall i | 0 <= i < |d| ensures '\n' !in d[i] {
      assert d[i] == lines[i][m..];
      assert forall c :: c in d[i] ==> c in lines[i];
    }
    SplitJoin(d, '\n');
  }

  /** Every line is its cut-off indentation followed by its de-indented
      rest, and what is cut off is white space. */
  lemma DedentPrefix(lines: seq<string>, m: nat)
    requires forall i :: 0 <= i < |lines| ==> m <= LeadingSpaces(lines[i]) && m <= |lines[i]|
    ensures forall i :: 0 <= i < |lines| ==> lines[i] == lines[i][..m] + Dedented(lines, m)[i]
    ensures forall i, k :: 0 <= i < |lines| && 0 <= k < m ==> IsSpace(lines[i][k])
  {
    var d := Dedented(lines, m);
    forall i | 0 <= i < |lines| ensures lines[i] == lines[i][..m] + d[i] {
      var l := lines[i];
      assert d[i] == l[m..];
      assert l == l[..m] + l[m..];
    }
  }

  /** Cutting off a line's whole indentation leaves no indentation. */
  lemma IndentRest(s: string, m: nat)
    requires m == LeadingSpaces(s)
    ensures LeadingSpaces(s[m..]) == 0
  {
    if m < |s| {
      assert s[m..][0] == s[m];
    }
  }

  // ----- getLanguages -----

  /** One entry of the language picker; `current` is the "current
      language" description. */
  datatype Choice = Choice(id: string, current: bool)

  ghost predicate NoDuplicates(s: seq<string>) {
    forall x :: multiset(s)[x] <= 1
  }

  /** `Array.from(new Set(xs))`: the first occurrence of every element. */
  function Distinct(xs: seq<string>): (r: seq<string>)
    ensures forall x :: multiset(r)[x] == if x in xs then 1 else 0
    decreases |xs|
  {
    if |xs| == 0 then []
    else
      var n := |xs| - 1;
      var init := Distinct(xs[..n]);
      assert xs == xs[..n] + [xs[n]];
      if xs[n] in xs[..n] then init else init + [xs[n]]
  }

  /** `set.delete(x)` on the elements of a duplicate-free sequence. */
  function Remove(xs: seq<string>, x: string): (r: seq<string>)
    ensures multiset(r) == multiset(xs)[x := 0]
  {
    if |xs| == 0 then []
    else
      assert xs == [xs[0]] + xs[1..];
      var rest := Remove(xs[1..], x);
      if xs[0] == x then rest else [xs[0]] + rest
  }

  function Identity(s: string): string { s }

  /** `new Set(languages)` with "vue-html" added when "vue" is in it. */
  function LanguageSet(all: seq<string>): (s: seq<string>)
    ensures forall x :: multiset(s)[x] == if x in all || (x == "vue-html" && "vue" in all) then 1 else 0
  {
    var s := Distinct(all);
    assert "vue" in s <==> "vue" in all by {
      assert "vue" in s <==> multiset(s)["vue"] > 0;
    }
    assert "vue-html" in s <==> "vue-html" in all by {
      assert "vue-html" in s <==> multiset(s)["vue-html"] > 0;
    }
    if "vue" in s && "vue-html" !in s then s + ["vue-html"] else s
  }

  /** `set.delete(current)` for a truthy current language. */
  predicate TruthyLanguage(current: Option<string>) {
    current.Some? && current.value != ""
  }

  /** The languages other than the current one, sorted. */
  function OtherLanguages(all: seq<string>, current: Option<string>): (r: seq<string>)
    ensures SortedBy(r, Identity)
    ensures forall x :: (multiset(r)[x] ==
      if (x in all || (x == "vue-html" && "vue" in all)) && !(TruthyLanguage(current) && x == current.value) then 1 else 0)
  {
    var s := LanguageSet(all);
    SortBy(if TruthyLanguage(current) then Remove(s, current.value) else s, Identity)
  }

  /** The language ids in picker order: the set of known and additional
      ids, with "vue-html" when "vue" is present, without the current
      language, sorted; then the current language put in front. A current
      language that is `undefined` or empty is falsy. */
  function LanguageOrder(known: seq<string>, additional: Option<seq<string>>, current: Option<string>): seq<string> {
    var rest := OtherLanguages(known + additional.GetOr([]), current);
    if TruthyLanguage(current) then [current.value] + rest else rest
  }

  /** `getLanguages(additionalLanguages)` with the host's languages
      `known` and the active editor's language `current`. */
  function Languages(known: seq<string>, additional: Option<seq<string>>, current: Option<string>): (items: seq<Choice>)
    ensures |items| == |LanguageOrder(known, additional, current)|
    ensures forall i :: 0 <= i < |items| ==> items[i].id == LanguageOrder(known, additional, current)[i]
    ensures forall i :: 0 <= i < |items| ==> (items[i].current <==> current == Some(items[i].id))
  {
    var labels := LanguageOrder(known, additional, current);
    seq(|labels|, i requires 0 <= i < |labels| => Choice(labels[i], current == Some(labels[i])))
  }

  /** The picker lists every language once: the known and additional ones,
      "vue-html" when "vue" is among them, and a truthy current language. */
  lemma LanguagesListed(known: seq<string>, additional: Option<seq<string>>, current: Option<string>)
    ensures var order := LanguageOrder(known, additional, current);
      var all := known + additional.GetOr([]);
      NoDuplicates(order)
      && forall x :: x in order <==>
        x in all || (x == "vue-html" && "vue" in all) || (TruthyLanguage(current) && x == current.value)
  {
    var all := known + additional.GetOr([]);
    var order := LanguageOrder(known, additional, current);
    OrderCounts(known, additional, current);
    forall x ensures x in order <==>
      x in all || (x == "vue-html" && "vue" in all) || (TruthyLanguage(current) && x == current.value) {
      assert x in order <==> multiset(order)[x] > 0;
    }
  }

  /** How often each language occurs in the picker order. */
  lemma OrderCounts(known: seq<string>, additional: Option<seq<string>>, current: Option<string>)
    ensures var order := LanguageOrder(known, additional, current);
      var all := known + additional.GetOr([]);
      forall x :: multiset(order)[x] ==
        if x in all || (x == "vue-html" && "vue" in all) || (TruthyLanguage(current) && x == current.value) then 1 else 0
  {
    var all := known + additional.GetOr([]);
    var rest := OtherLanguages(all, current);
    var order := LanguageOrder(known, additional, current);
    assert multiset(order) == if TruthyLanguage(current) then multiset{current.value} + multiset(rest) else multiset(rest);
  }

  /** The order itself: a truthy current language, then the others
      sorted. */
  lemma OrderShape(known: seq<string>, additional: Option<seq<string>>, current: Option<string>)
    ensures var order := LanguageOrder(known, additional, current);
      var start := if TruthyLanguage(current) then 1 else 0;
      start <= |order|
      && (TruthyLanguage(current) ==> order[0] == current.value && current.value !in order[1..])
      && forall i, j :: start <= i < j < |order| ==> LexLe(order[i], order[j])
  {
    var order := LanguageOrder(known, additional, current);
    var rest := OtherLanguages(known + additional.GetOr([]), current);
    if TruthyLanguage(current) {
      assert order[1..] == rest;
      assert current.value !in rest by {
        assert current.value in rest <==> multiset(rest)[current.value] > 0;
      }
      forall i, j | 1 <= i < j < |order| ensures LexLe(order[i], order[j]) {
        assert order[i] == rest[i - 1] && order[j] == rest[j - 1];
      }
    }
  }

  /** A truthy current language comes first, tagged, and no other entry is
      tagged; the entries after it are in ascending order. */
  lemma LanguagesOrdered(known: seq<string>, additional: Option<seq<string>>, current: Option<string>)
    ensures var items := Languages(known, additional, current);
      var start := if TruthyLanguage(current) then 1 else 0;
      start <= |items|
      && (TruthyLanguage(current) ==> items[0] == Choice(current.value, true))
      && (forall i :: start <= i < |items| ==> !items[i].current || current == Some(""))
      && (forall i, j :: start <= i < j < |items| ==> LexLe(items[i].id, items[j].id))
  {
    var items := Languages(known, additional, current);
    var order := LanguageOrder(known, additional, current);
    var start := if TruthyLanguage(current) then 1 else 0;
    OrderShape(known, additional, current);
    forall i | start <= i < |items| ensures !items[i].current || current == Some("") {
      if TruthyLanguage(current) {
        assert order[1..][i - 1] == order[i];
      }
    }
  }

  // ----- readJson / clearCaches -----

  /** A cached evaluation and the modification time it was made for. */
  datatype Stamped<V> = Stamped(t: int, data: V)

  /** What `readJson(filename)` returns and the cache it leaves, for the
      files `files`: nothing when the file is missing (`statSync` throws),
      the cached value when its stamp is not older than the file, else the
      file evaluated and stamped with its time (nothing and no change when
      the evaluation throws). */
  function ReadJson<V>(evaluate: string -> Option<V>, cache: map<string, Stamped<V>>,
                       files: map<string, FileEntry>, filename: string): (Option<V>, map<string, Stamped<V>>)
  {
    if filename !in files then (None, cache)
    else if filename in cache && cache[filename].t >= files[filename].mtime then (Some(cache[filename].data), cache)
    else match evaluate(files[filename].text)
      case None => (None, cache)
      case Some(v) => (Some(v), cache[filename := Stamped(files[filename].mtime, v)])
  }

  /** A second read of an unchanged file is a cache hit: same value, same
      cache, and the value is the evaluation of the file's text. */
  lemma ReadJsonSettles<V>(evaluate: string -> Option<V>, cache: map<string, Stamped<V>>,
                           files: map<string, FileEntry>, filename: string)
    ensures var (r, c) := ReadJson(evaluate, cache, files, filename);
      r.Some? ==> ReadJson(evaluate, c, files, filename) == (r, c)
    ensures var (r, c) := ReadJson(evaluate, cache, files, filename);
      r.Some? && filename !in cache ==> r == evaluate(files[filename].text)
    ensures filename in files && (filename !in cache || cache[filename].t < files[filename].mtime) ==>
      ReadJson(evaluate, cache, files, filename).0 == evaluate(files[filename].text)
  {
  }

  /** The module-level `json_caches` object. */
  class JsonCache<V> {
    var entries: map<string, Stamped<V>>
    /** `new Function("return " + text)()`; `None` when it throws. */
    const evaluate: string -> Option<V>

    constructor(evaluate: string -> Option<V>)
      ensures entries == map[] && this.evaluate == evaluate
    {
      entries := map[];
      this.evaluate := evaluate;
    }

    /** `readJson(filename)`. */
    method Read(disk: Disk, filename: string) returns (r: Option<V>)
      modifies this
      ensures (r, entries) == ReadJson(evaluate, old(entries), disk.files, filename)
    {
      if filename !in disk.files {
        return None;
      }
      var mtime := disk.files[filename].mtime;
      if filename in entries && entries[filename].t >= mtime {
        return Some(entries[filename].data);
      }
      var data := evaluate(disk.files[filename].text);
      if data.None? {
        return None;
      }
      entries := entries[filename := Stamped(mtime, data.value)];
      r := data;
    }

    /** `clearCaches()`, also what `deactivate` does. */
    method Clear()
      modifies this
      ensures entries == map[]
    {
      entries := map[];
    }
  }
}
