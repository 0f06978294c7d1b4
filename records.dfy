/** Snippet records, snippet documents and the sorted listings shown for a
    document. Both stores (src/SnippetNodeProvider.js and
    src/SnippetScopeNodeProvider.js) keep a document together with a listing
    and update both with the same upsert, delete and rename steps, which are
    defined here once. */
module Records {
  import opened Strings
  import opened Sorting

  datatype Option<T> = None | Some(value: T) {
    function GetOr(default: T): T {
      match this
      case Some(v) => v
      case None => default
    }
  }

  /** A snippet field as JSON holds it: a string or a list of strings. */
  datatype Value = Str(s: string) | List(items: seq<string>)

  /** JavaScript truthiness of a field: a non-empty string or any array. */
  predicate Truthy(v: Option<Value>) {
    match v
    case None => false
    case Some(Str(s)) => s != ""
    case Some(List(_)) => true
  }

  /** A snippet record (`{prefix, body, description?, scope?, ...}`). */
  type Record = map<string, Value>

  /** An object whose properties are copied onto a record; `None` is a
      property that is present but `undefined`. */
  type Patch = map<string, Option<Value>>

  function Field(r: Record, name: string): Option<Value> {
    if name in r then Some(r[name]) else None
  }

  function PatchField(p: Patch, name: string): Option<Value> {
    if name in p then p[name] else None
  }

  /** A record seen as a patch: every property defined. */
  function Lift(r: Record): (p: Patch)
    ensures forall k :: PatchField(p, k) == Field(r, k)
    ensures p.Keys == r.Keys
  {
    map k | k in r :: Some(r[k])
  }

  /** `Object.assign(rec, patch)`; an `undefined` property disappears when
      the record is serialised, so it is removed here. */
  function Merge(rec: Record, patch: Patch): (r: Record)
    ensures forall k :: k in patch ==> Field(r, k) == patch[k]
    ensures forall k :: k !in patch ==> Field(r, k) == Field(rec, k)
  {
    map k | k in rec.Keys + patch.Keys && (k in patch ==> patch[k].Some?) ::
      if k in patch then patch[k].value else rec[k]
  }

  /** The property name a value becomes when used as `obj[v]`. */
  function PropertyKey(v: Option<Value>): string {
    match v
    case None => "undefined"
    case Some(Str(s)) => s
    case Some(List(xs)) => Join(xs, ',')
  }

  /** `s == v` with JavaScript's loose equality; `undefined` equals no string. */
  predicate LooseEquals(s: string, v: Option<Value>) {
    v.Some? && PropertyKey(v) == s
  }

  // ----- documents -----

  datatype Pair = Pair(key: string, rec: Record)

  function Keys(d: seq<Pair>): (ks: seq<string>)
    ensures |ks| == |d|
  {
    if |d| == 0 then [] else [d[0].key] + Keys(d[1..])
  }

  predicate DistinctKeys(d: seq<Pair>) {
    |d| == 0 || (d[0].key !in Keys(d[1..]) && DistinctKeys(d[1..]))
  }

  /** A snippet document: its entries in JavaScript insertion order, each
      key once. */
  type Document = d: seq<Pair> | DistinctKeys(d)

  /** In a document every key occurs at most once. */
  lemma {:induction false} KeyCount(d: Document, k: string)
    ensures multiset(Keys(d))[k] == if k in Keys(d) then 1 else 0
  {
    if |d| > 0 {
      KeyCount(d[1..], k);
      assert Keys(d) == [d[0].key] + Keys(d[1..]);
    }
  }

  /** `d[k]`: the record stored under `k`, if any. */
  function Get(d: seq<Pair>, k: string): (r: Option<Record>)
    ensures r.Some? <==> k in Keys(d)
  {
    if |d| == 0 then None
    else if d[0].key == k then Some(d[0].rec)
    else Get(d[1..], k)
  }

  /** `d[k] = r`: replaces the record in place, or appends a new entry. */
  function Put(d: Document, k: string, r: Record): (res: Document)
    ensures Get(res, k) == Some(r)
    ensures forall k' :: k' != k ==> Get(res, k') == Get(d, k')
    ensures Keys(res) == if k in Keys(d) then Keys(d) else Keys(d) + [k]
  {
    if |d| == 0 then
      var res := [Pair(k, r)];
      assert res[1..] == [];
      res
    else if d[0].key == k then
      var res := [Pair(k, r)] + d[1..];
      assert res[1..] == d[1..];
      res
    else
      var rest := Put(d[1..], k, r);
      var res := [d[0]] + rest;
      assert res[1..] == rest;
      assert Keys(d) == [d[0].key] + Keys(d[1..]);
      res
  }

  /** The keys without `k`, the others in their order. */
  function RemoveKey(ks: seq<string>, k: string): seq<string> {
    if |ks| == 0 then []
    else if ks[0] == k then RemoveKey(ks[1..], k)
    else [ks[0]] + RemoveKey(ks[1..], k)
  }

  /** Removing a key from keys with one more at the end. */
  lemma {:induction false} RemoveKeySnoc(ks: seq<string>, n: string, k: string)
    requires n != k
    ensures RemoveKey(ks + [n], k) == RemoveKey(ks, k) + [n]
  {
    if |ks| == 0 {
      assert [n][1..] == [];
    } else {
      assert (ks + [n])[1..] == ks[1..] + [n];
      RemoveKeySnoc(ks[1..], n, k);
    }
  }

  /** `delete d[k]`: the other entries keep their order. */
  function Delete(d: Document, k: string): (res: Document)
    ensures Get(res, k) == None
    ensures forall k' :: k' != k ==> Get(res, k') == Get(d, k')
    ensures multiset(Keys(res)) == multiset(Keys(d))[k := 0]
    ensures Keys(res) == RemoveKey(Keys(d), k)
  {
    if |d| == 0 then []
    else
      var rest := Delete(d[1..], k);
      DeleteStep(d, k, rest);
      DeleteOrder(d, k, rest);
      if d[0].key == k then rest else [d[0]] + rest
  }

  /** One step of `Delete`: the first entry goes when it holds `k` and stays
      in front of the rest otherwise. */
  lemma DeleteStep(d: Document, k: string, rest: Document)
    requires |d| > 0
    requires Get(rest, k) == None
    requires forall k' :: k' != k ==> Get(rest, k') == Get(d[1..], k')
    requires multiset(Keys(rest)) == multiset(Keys(d[1..]))[k := 0]
    ensures var res := if d[0].key == k then rest else [d[0]] + rest;
      && DistinctKeys(res)
      && Get(res, k) == None
      && (forall k' :: k' != k ==> Get(res, k') == Get(d, k'))
      && multiset(Keys(res)) == multiset(Keys(d))[k := 0]
  {
    var m := multiset(Keys(d[1..]));
    assert Keys(d) == [d[0].key] + Keys(d[1..]);
    assert multiset(Keys(d)) == multiset{d[0].key} + m;
    Uncounted(d[0].key, k, m);
    if d[0].key != k {
      assert multiset(Keys(rest))[d[0].key] == 0;
      Cons(d[0], rest);
      assert multiset(Keys([d[0]] + rest)) == multiset{d[0].key} + multiset(Keys(rest));
    }
  }

  /** The key order after one step of `Delete`. */
  lemma DeleteOrder(d: seq<Pair>, k: string, rest: seq<Pair>)
    requires |d| > 0
    requires Keys(rest) == RemoveKey(Keys(d[1..]), k)
    ensures Keys(if d[0].key == k then rest else [d[0]] + rest) == RemoveKey(Keys(d), k)
  {
    assert Keys(d)[1..] == Keys(d[1..]);
    assert ([d[0]] + rest)[1..] == rest;
  }

  /** Zeroing the count of `k` after adding `x`. */
  lemma Uncounted(x: string, k: string, m: multiset<string>)
    ensures (multiset{x} + m)[k := 0] == if x == k then m[k := 0] else multiset{x} + m[k := 0]
  {
  }

  /** An entry put in front of a document whose keys it does not share. */
  lemma Cons(p: Pair, rest: Document)
    requires p.key !in Keys(rest)
    ensures DistinctKeys([p] + rest)
    ensures Keys([p] + rest) == [p.key] + Keys(rest)
    ensures forall k :: Get([p] + rest, k) == if k == p.key then Some(p.rec) else Get(rest, k)
  {
    assert ([p] + rest)[1..] == rest;
  }

  /** `d[n] = d[o]; delete d[o]`: the record moves to `n`, in place of an
      existing `n` or as a new last entry. */
  function Rename(d: Document, o: string, n: string): (res: Document)
    requires o in Keys(d) && o != n
    ensures Get(res, n) == Get(d, o)
    ensures Get(res, o) == None
    ensures forall k :: k != o && k != n ==> Get(res, k) == Get(d, k)
    ensures multiset(Keys(res)) == multiset(Keys(d))[o := 0][n := 1]
    ensures n in Keys(d) ==> Keys(res) == RemoveKey(Keys(d), o)
    ensures n !in Keys(d) ==> Keys(res) == RemoveKey(Keys(d), o) + [n]
  {
    RenameCount(d, o, n, Get(d, o).value);
    RenameOrder(d, o, n, Get(d, o).value);
    Delete(Put(d, n, Get(d, o).value), o)
  }

  /** The keys `Rename` leaves, counted: `o` gone and `n` once. */
  lemma RenameCount(d: Document, o: string, n: string, r: Record)
    requires o != n
    ensures multiset(Keys(Delete(Put(d, n, r), o))) == multiset(Keys(d))[o := 0][n := 1]
  {
    var m := multiset(Keys(d));
    KeyCount(d, n);
    if n in Keys(d) {
      assert m[o := 0][n := 1] == m[o := 0];
    } else {
      assert multiset(Keys(d) + [n]) == m + multiset{n};
      assert (m + multiset{n})[o := 0] == m[o := 0][n := 1];
    }
  }

  /** The key order `Rename` leaves: `o` removed, and `n` last when it is new. */
  lemma RenameOrder(d: Document, o: string, n: string, r: Record)
    requires n != o
    ensures n in Keys(d) ==> Keys(Delete(Put(d, n, r), o)) == RemoveKey(Keys(d), o)
    ensures n !in Keys(d) ==> Keys(Delete(Put(d, n, r), o)) == RemoveKey(Keys(d), o) + [n]
  {
    if n !in Keys(d) {
      RemoveKeySnoc(Keys(d), n, o);
    }
  }

  // ----- listings -----

  /** A listing entry: label, description, and the key its edit command
      carries (`command.arguments[0].key`). */
  datatype Item = Item(name: string, description: Option<Value>, target: string)

  function ByLabel(it: Item): string { it.name }

  function Labels(list: seq<Item>): (ls: seq<string>)
    ensures |ls| == |list|
  {
    if |list| == 0 then [] else [list[0].name] + Labels(list[1..])
  }

  lemma {:induction false} LabelsAppend(a: seq<Item>, b: seq<Item>)
    ensures Labels(a + b) == Labels(a) + Labels(b)
  {
    if |a| > 0 {
      assert (a + b)[1..] == a[1..] + b;
      LabelsAppend(a[1..], b);
    } else {
      assert a + b == b;
    }
  }

  /** Every entry's command opens the entry's own key. */
  predicate Targeted(list: seq<Item>) {
    forall i :: 0 <= i < |list| ==> list[i].target == list[i].name
  }

  /** One listing entry per document key, each opening its own key. */
  predicate Consistent(d: Document, list: seq<Item>) {
    multiset(Labels(list)) == multiset(Keys(d)) && Targeted(list)
  }

  /** Reordering a listing reorders its labels. */
  lemma {:induction false} LabelsPermutation(a: seq<Item>, b: seq<Item>)
    requires multiset(a) == multiset(b)
    ensures multiset(Labels(a)) == multiset(Labels(b))
    decreases |a|
  {
    if |a| == 0 {
      assert b == [];
    } else {
      var x := a[0];
      assert x in multiset(b);
      var i :| 0 <= i < |b| && b[i] == x;
      var b' := b[..i] + b[i + 1..];
      RemoveAt(b, i);
      LabelsRemoveAt(b, i);
      assert a == [x] + a[1..];
      LabelsHead(x, a[1..]);
      assert multiset(a[1..]) == multiset(a) - multiset{x};
      LabelsPermutation(a[1..], b');
    }
  }

  /** Taking out the entry at `i` takes one entry out. */
  lemma RemoveAt(b: seq<Item>, i: int)
    requires 0 <= i < |b|
    ensures multiset(b[..i] + b[i + 1..]) == multiset(b) - multiset{b[i]}
  {
    var x := b[i];
    assert b == b[..i] + [x] + b[i + 1..];
  }

  /** Taking out the entry at `i` takes one label out. */
  lemma LabelsRemoveAt(b: seq<Item>, i: int)
    requires 0 <= i < |b|
    ensures multiset(Labels(b)) == multiset{b[i].name} + multiset(Labels(b[..i] + b[i + 1..]))
  {
    LabelsAt(b, i);
    LabelsAppend(b[..i], b[i + 1..]);
  }

  /** The labels of a listing split around the entry at `i`. */
  lemma {:induction false} LabelsAt(b: seq<Item>, i: int)
    requires 0 <= i < |b|
    ensures Labels(b) == Labels(b[..i]) + [b[i].name] + Labels(b[i + 1..])
    decreases i
  {
    if i == 0 {
      assert b[..0] == [];
    } else {
      LabelsAt(b[1..], i - 1);
      assert b[1..][..i - 1] == b[..i][1..];
      assert b[1..][i..] == b[i + 1..];
    }
  }


  /** Reordering a listing keeps every entry's command. */
  lemma TargetedPermutation(a: seq<Item>, b: seq<Item>)
    requires multiset(a) == multiset(b) && Targeted(b)
    ensures Targeted(a)
  {
    forall i | 0 <= i < |a| ensures a[i].target == a[i].name {
      assert a[i] in multiset(b);
    }
  }

  /** The entries of a document in key order, before sorting. */
  function Entries(d: seq<Pair>): (items: seq<Item>)
    ensures Labels(items) == Keys(d)
    ensures Targeted(items)
  {
    if |d| == 0 then []
    else
      var rest := Entries(d[1..]);
      var items := [EntryOf(d[0])] + rest;
      assert items[1..] == rest;
      items
  }

  /** The listing built when a document is (re)loaded: every key once, in
      ascending label order. */
  function ListingOf(d: Document): (list: seq<Item>)
    ensures Consistent(d, list)
    ensures SortedBy(list, ByLabel)
  {
    var items := Entries(d);
    var list := SortBy(items, ByLabel);
    LabelsPermutation(list, items);
    TargetedPermutation(list, items);
    list
  }

  /** The entry made for one key. */
  function EntryOf(p: Pair): Item {
    Item(p.key, Field(p.rec, "description"), p.key)
  }

  lemma {:induction false} EntriesSnoc(d: seq<Pair>, p: Pair)
    ensures Entries(d + [p]) == Entries(d) + [EntryOf(p)]
  {
    if |d| == 0 {
      assert d + [p] == [p];
      assert [p][1..] == [];
    } else {
      assert (d + [p])[1..] == d[1..] + [p];
      EntriesSnoc(d[1..], p);
    }
  }

  /** The listing loop shared by both stores: one entry per key in key
      order (`for (let key in data) list.push(...)`), then `list.sort`. */
  method BuildListing(d: Document) returns (list: seq<Item>)
    ensures list == ListingOf(d)
  {
    list := [];
    for j := 0 to |d|
      invariant list == Entries(d[..j])
    {
      EntriesSnoc(d[..j], d[j]);
      assert d[..j + 1] == d[..j] + [d[j]];
      list := list + [EntryOf(d[j])];
    }
    assert d[..|d|] == d;
    list := SortBy(list, ByLabel);
  }

  /** `list.find(x => x.label == label)`, as an index. */
  function FindLabel(list: seq<Item>, lbl: string): (r: Option<nat>)
    ensures r.Some? ==> r.value < |list| && list[r.value].name == lbl
    ensures r.Some? ==> forall j :: 0 <= j < r.value ==> list[j].name != lbl
    ensures r.None? <==> lbl !in Labels(list)
  {
    if |list| == 0 then None
    else if list[0].name == lbl then Some(0)
    else
      match FindLabel(list[1..], lbl)
      case Some(i) => Some(i + 1)
      case None => None
  }

  /** `list.filter(x => x.label != label)`. */
  function Without(list: seq<Item>, lbl: string): (r: seq<Item>)
    ensures |r| <= |list|
    ensures lbl !in Labels(r)
  {
    if |list| == 0 then []
    else
      var rest := Without(list[1..], lbl);
      if list[0].name == lbl then rest
      else
        var r := [list[0]] + rest;
        assert r[1..] == rest;
        r
  }

  /** The filter drops exactly the entries labelled `lbl`. */
  lemma {:induction false} WithoutLabels(list: seq<Item>, lbl: string)
    ensures multiset(Labels(Without(list, lbl))) == multiset(Labels(list))[lbl := 0]
  {
    if |list| > 0 {
      WithoutLabels(list[1..], lbl);
      var rest := Without(list[1..], lbl);
      if list[0].name != lbl {
        var r := [list[0]] + rest;
        assert r[1..] == rest;
      }
    }
  }

  /** The filter keeps only entries of the original listing. */
  lemma {:induction false} WithoutSubset(list: seq<Item>, lbl: string)
    ensures forall i :: 0 <= i < |Without(list, lbl)| ==> Without(list, lbl)[i] in list
  {
    if |list| > 0 {
      WithoutSubset(list[1..], lbl);
      var rest := Without(list[1..], lbl);
      assert forall i :: 0 <= i < |rest| ==> rest[i] in list[1..];
      if list[0].name != lbl {
        var r := [list[0]] + rest;
        assert forall i :: 0 < i < |r| ==> r[i] == rest[i - 1];
      }
    }
  }

  /** Dropping entries keeps the remaining ones in their order. */
  lemma {:induction false} WithoutSorted(list: seq<Item>, lbl: string)
    requires SortedBy(list, ByLabel)
    ensures SortedBy(Without(list, lbl), ByLabel)
  {
    if |list| > 0 {
      WithoutSorted(list[1..], lbl);
      WithoutSubset(list[1..], lbl);
      var rest := Without(list[1..], lbl);
      if list[0].name != lbl {
        var r := [list[0]] + rest;
        forall i, j | 0 <= i < j < |r| ensures LexLe(ByLabel(r[i]), ByLabel(r[j])) {
          if i == 0 {
            assert r[j] == rest[j - 1];
            var k :| 0 <= k < |list[1..]| && list[1..][k] == r[j];
            assert list[k + 1] == r[j];
          } else {
            assert r[i] == rest[i - 1] && r[j] == rest[j - 1];
          }
        }
      }
    }
  }

  /** The first entry labelled `o` gets label and command key `n`, where it
      stands; the listing is not re-sorted. */
  function Relabel(list: seq<Item>, o: string, n: string): (r: seq<Item>)
    ensures |r| == |list|
    ensures o !in Labels(list) ==> r == list
    ensures FindLabel(list, o).Some? ==>
      var i := FindLabel(list, o).value; r == list[i := Item(n, list[i].description, n)]
  {
    if |list| == 0 then []
    else if list[0].name == o then
      var r := [Item(n, list[0].description, n)] + list[1..];
      assert r == list[0 := Item(n, list[0].description, n)];
      r
    else
      var rest := Relabel(list[1..], o, n);
      RelabelStep(list, o, n, rest);
      [list[0]] + rest
  }

  /** The step of `Relabel` past an entry not labelled `o`. */
  lemma RelabelStep(list: seq<Item>, o: string, n: string, rest: seq<Item>)
    requires |list| > 0 && list[0].name != o && |rest| == |list| - 1
    requires o !in Labels(list[1..]) ==> rest == list[1..]
    requires FindLabel(list[1..], o).Some? ==>
      var i := FindLabel(list[1..], o).value; rest == list[1..][i := Item(n, list[1..][i].description, n)]
    ensures o !in Labels(list) ==> [list[0]] + rest == list
    ensures FindLabel(list, o).Some? ==>
      var i := FindLabel(list, o).value; [list[0]] + rest == list[i := Item(n, list[i].description, n)]
  {
    assert Labels(list) == [list[0].name] + Labels(list[1..]);
    match FindLabel(list[1..], o)
    case None =>
      assert list == [list[0]] + list[1..];
    case Some(i) =>
      assert FindLabel(list, o) == Some(i + 1);
      assert [list[0]] + rest == list[i + 1 := Item(n, list[i + 1].description, n)];
  }

  /** Relabelling trades one `o` label for one `n` label and keeps every
      entry's command on its own label. */
  lemma {:induction false} RelabelLabels(list: seq<Item>, o: string, n: string)
    requires o in Labels(list)
    ensures multiset(Labels(Relabel(list, o, n))) + multiset{o} == multiset(Labels(list)) + multiset{n}
  {
    var r := Relabel(list, o, n);
    assert list == [list[0]] + list[1..];
    LabelsHead(list[0], list[1..]);
    var b := multiset(Labels(list[1..]));
    if list[0].name == o {
      assert r == [Item(n, list[0].description, n)] + list[1..];
      LabelsHead(Item(n, list[0].description, n), list[1..]);
      Swapped(b, o, n);
    } else {
      var rest := Relabel(list[1..], o, n);
      assert r == [list[0]] + rest;
      LabelsHead(list[0], rest);
      RelabelLabels(list[1..], o, n);
      Traded(multiset{list[0].name}, multiset(Labels(rest)), b, o, n);
    }
  }

  /** Which of two labels joins first does not matter. */
  lemma Swapped(b: multiset<string>, o: string, n: string)
    ensures multiset{n} + b + multiset{o} == multiset{o} + b + multiset{n}
  {
  }

  /** One more label on both sides keeps a traded pair of multisets traded. */
  lemma Traded(x: multiset<string>, a: multiset<string>, b: multiset<string>, o: string, n: string)
    requires a + multiset{o} == b + multiset{n}
    ensures x + a + multiset{o} == x + b + multiset{n}
  {
    assert x + a + multiset{o} == x + (a + multiset{o});
  }

  /** The label multiset of a listing with `head` in front. */
  lemma LabelsHead(head: Item, rest: seq<Item>)
    ensures multiset(Labels([head] + rest)) == multiset{head.name} + multiset(Labels(rest))
  {
    assert ([head] + rest)[1..] == rest;
  }

  lemma {:induction false} RelabelTargeted(list: seq<Item>, o: string, n: string)
    requires Targeted(list)
    ensures Targeted(Relabel(list, o, n))
  {
    if |list| > 0 && list[0].name != o {
      RelabelTargeted(list[1..], o, n);
      var r := Relabel(list, o, n);
      assert forall i :: 0 < i < |r| ==> r[i] == Relabel(list[1..], o, n)[i - 1];
    }
  }

  /** The first entry labelled `key` gets description `desc`, where it
      stands. */
  function Describe(list: seq<Item>, key: string, desc: Option<Value>): (r: seq<Item>)
    ensures Labels(r) == Labels(list)
    ensures |r| == |list| && forall i :: 0 <= i < |r| ==> r[i].name == list[i].name && r[i].target == list[i].target
    ensures FindLabel(list, key).Some? ==> r[FindLabel(list, key).value].description == desc
    ensures FindLabel(list, key).None? ==> r == list
  {
    if |list| == 0 then []
    else if list[0].name == key then
      var r := [list[0].(description := desc)] + list[1..];
      assert r[1..] == list[1..];
      r
    else
      var rest := Describe(list[1..], key, desc);
      var r := [list[0]] + rest;
      assert r[1..] == rest;
      r
  }

  // ----- the upsert shared by both stores -----

  /** `!prefix` and `!body || !body.length` both fail. */
  predicate Acceptable(p: Patch) {
    Truthy(PatchField(p, "prefix"))
    && match PatchField(p, "body")
       case Some(Str(s)) => s != ""
       case Some(List(xs)) => |xs| > 0
       case None => false
  }

  /** `Object.assign` onto the existing record (or the patch itself for a new
      key), then `delete description` when it is falsy. */
  function SaveRecord(existing: Option<Record>, patch: Patch): (r: Record)
    ensures forall f :: f != "description" && f in patch ==> Field(r, f) == patch[f]
    ensures forall f :: f != "description" && f !in patch ==>
      Field(r, f) == if existing.Some? then Field(existing.value, f) else None
    ensures "description" in r <==> Truthy(Field(Merge(existing.GetOr(map[]), patch), "description"))
    ensures "description" in r ==> r["description"] == Merge(existing.GetOr(map[]), patch)["description"]
  {
    var m := Merge(existing.GetOr(map[]), patch);
    if Truthy(Field(m, "description")) then m else m - {"description"}
  }

  /** The document after `saveSnippet` of `patch` under `key`. */
  function SaveData(d: Document, key: string, patch: Patch): (r: Document)
    ensures Keys(r) == if key in Keys(d) then Keys(d) else Keys(d) + [key]
    ensures Get(r, key) == Some(SaveRecord(Get(d, key), patch))
    ensures forall k :: k != key ==> Get(r, k) == Get(d, k)
  {
    Put(d, key, SaveRecord(Get(d, key), patch))
  }

  /** The listing after `saveSnippet`: an existing entry only gets the new
      description; a new key is appended and the listing re-sorted. */
  function SaveListing(list: seq<Item>, key: string, desc: Option<Value>): (r: seq<Item>)
    ensures key in Labels(list) ==> Labels(r) == Labels(list)
    ensures key !in Labels(list) ==> multiset(r) == multiset(list) + multiset{Item(key, desc, key)} && SortedBy(r, ByLabel)
  {
    if key in Labels(list) then Describe(list, key, desc)
    else SortBy(list + [Item(key, desc, key)], ByLabel)
  }

  /** Saving a key the listing already has changes no label. */
  lemma SaveExistingConsistent(d: Document, list: seq<Item>, key: string, patch: Patch)
    requires Consistent(d, list) && key in Keys(d)
    ensures Consistent(SaveData(d, key, patch), SaveListing(list, key, PatchField(patch, "description")))
    ensures SortedBy(list, ByLabel) ==> SortedBy(SaveListing(list, key, PatchField(patch, "description")), ByLabel)
  {
    var desc := PatchField(patch, "description");
    assert key in Labels(list) by {
      assert key in multiset(Labels(list));
    }
    assert SaveListing(list, key, desc) == Describe(list, key, desc);
    DescribeKeeps(list, key, desc);
    assert Keys(SaveData(d, key, patch)) == Keys(d);
  }

  /** Setting a description keeps the labels, the commands and the order. */
  lemma DescribeKeeps(list: seq<Item>, key: string, desc: Option<Value>)
    ensures Labels(Describe(list, key, desc)) == Labels(list)
    ensures Targeted(list) ==> Targeted(Describe(list, key, desc))
    ensures SortedBy(list, ByLabel) ==> SortedBy(Describe(list, key, desc), ByLabel)
  {
    var r := Describe(list, key, desc);
    if Targeted(list) {
      forall i | 0 <= i < |r| ensures r[i].target == r[i].name {
        assert r[i].name == list[i].name && r[i].target == list[i].target;
      }
    }
    SameNamesSorted(list, r);
  }

  /** Entries with the same labels in the same places sort alike. */
  lemma SameNamesSorted(a: seq<Item>, b: seq<Item>)
    requires |a| == |b| && forall i :: 0 <= i < |a| ==> a[i].name == b[i].name
    ensures SortedBy(a, ByLabel) ==> SortedBy(b, ByLabel)
  {
    if SortedBy(a, ByLabel) {
      forall i, j | 0 <= i < j < |b| ensures LexLe(ByLabel(b[i]), ByLabel(b[j])) {
        assert LexLe(ByLabel(a[i]), ByLabel(a[j]));
      }
    }
  }

  /** Saving a new key adds exactly its entry. */
  lemma SaveNewConsistent(d: Document, list: seq<Item>, key: string, patch: Patch)
    requires Consistent(d, list) && key !in Keys(d)
    ensures Consistent(SaveData(d, key, patch), SaveListing(list, key, PatchField(patch, "description")))
  {
    assert key !in Labels(list) by {
      assert key !in multiset(Labels(list));
    }
    AddedEntry(list, key, PatchField(patch, "description"));
    assert Keys(SaveData(d, key, patch)) == Keys(d) + [key];
  }

  /** The listing of a new key has one more label, that key, and keeps
      every command on its own label. */
  lemma AddedEntry(list: seq<Item>, key: string, desc: Option<Value>)
    requires key !in Labels(list)
    ensures var r := SaveListing(list, key, desc);
      && multiset(Labels(r)) == multiset(Labels(list)) + multiset{key}
      && (Targeted(list) ==> Targeted(r))
  {
    var e := Item(key, desc, key);
    var added := list + [e];
    var r := SaveListing(list, key, desc);
    assert multiset(r) == multiset(added);
    LabelsPermutation(r, added);
    LabelsAppend(list, [e]);
    assert Labels([e]) == [key];
    if Targeted(list) {
      assert Targeted(added);
      TargetedPermutation(r, added);
    }
  }

  /** Saving keeps one listing entry per key, and a sorted listing sorted. */
  lemma {:induction false} SaveKeepsConsistent(d: Document, list: seq<Item>, key: string, patch: Patch)
    requires Consistent(d, list)
    ensures Consistent(SaveData(d, key, patch), SaveListing(list, key, PatchField(patch, "description")))
    ensures SortedBy(list, ByLabel) ==> SortedBy(SaveListing(list, key, PatchField(patch, "description")), ByLabel)
  {
    if key in Keys(d) {
      SaveExistingConsistent(d, list, key, patch);
    } else {
      SaveNewConsistent(d, list, key, patch);
    }
  }

  /** Deleting a key removes exactly its listing entry. */
  lemma DeleteKeepsConsistent(d: Document, list: seq<Item>, key: string)
    requires Consistent(d, list)
    ensures Consistent(Delete(d, key), Without(list, key))
  {
    var r := Without(list, key);
    WithoutLabels(list, key);
    WithoutSubset(list, key);
    forall j | 0 <= j < |r| ensures r[j].target == r[j].name {
      var i :| 0 <= i < |list| && list[i] == r[j];
    }
  }

  /** The listing after `renameSnippet`: the entry of an overwritten target
      is dropped, then the renamed entry is relabelled where it stands. */
  function RenameListing(list: seq<Item>, o: string, n: string, overwrite: bool): (r: seq<Item>)
    ensures |r| <= |list|
  {
    Relabel(if overwrite then Without(list, n) else list, o, n)
  }

  lemma MultisetMove(r: multiset<string>, m: multiset<string>, o: string, n: string)
    requires r + multiset{o} == m[n := 0] + multiset{n}
    requires m[o] == 1 && o != n
    ensures r == m[o := 0][n := 1]
  {
    forall x ensures r[x] == m[o := 0][n := 1][x] {
      assert (r + multiset{o})[x] == (m[n := 0] + multiset{n})[x];
    }
  }

  /** Dropping an overwritten target leaves one entry per remaining key. */
  lemma OverwriteStep(d: Document, list: seq<Item>, n: string, overwrite: bool)
    requires Consistent(d, list)
    requires overwrite <==> n in Keys(d)
    ensures var l1 := if overwrite then Without(list, n) else list;
      multiset(Labels(l1)) == multiset(Keys(d))[n := 0] && Targeted(l1)
  {
    if overwrite {
      WithoutLabels(list, n);
      WithoutSubset(list, n);
      var r := Without(list, n);
      forall j | 0 <= j < |r| ensures r[j].target == r[j].name {
        var i :| 0 <= i < |list| && list[i] == r[j];
      }
    } else {
      assert multiset(Keys(d))[n := 0] == multiset(Keys(d));
    }
  }

  /** Renaming keeps one listing entry per key. */
  lemma RenameKeepsConsistent(d: Document, list: seq<Item>, o: string, n: string)
    requires Consistent(d, list)
    requires o in Keys(d) && o != n
    ensures Consistent(Rename(d, o, n), RenameListing(list, o, n, n in Keys(d)))
  {
    var overwrite := n in Keys(d);
    var l1 := if overwrite then Without(list, n) else list;
    KeyCount(d, o);
    var m := multiset(Keys(d));
    OverwriteStep(d, list, n, overwrite);
    assert o in multiset(Labels(l1));
    var r := Relabel(l1, o, n);
    RelabelLabels(l1, o, n);
    RelabelTargeted(l1, o, n);
    MultisetMove(multiset(Labels(r)), m, o, n);
  }
}
