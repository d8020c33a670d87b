/**
 * Reading a document: getAttr for one key against getAll for the whole document, over one
 * snapshot, from the entry stream through the C array to the JavaScript object.
 */
module DocsRead {
  import opened Common
  import Utf8

  type Hash = nat

  /** What the blob store answers for a content hash. */
  datatype Blob = Local(content: Bytes) | Absent | CheckFails | ReadFails

  datatype Entry = Entry(key: Bytes, hash: Hash)

  /** One item of the latest-per-key query stream. */
  datatype Item = Got(entry: Entry) | StreamError

  /** The stream of the query and the store, fixed for both reads. */
  datatype Snapshot = Snapshot(items: seq<Item>, store: map<Hash, Blob>)

  datatype Result<T> = Ok(value: T) | Err

  function BlobOf(s: Snapshot, h: Hash): Blob { if h in s.store then s.store[h] else Absent }

  /** The query returns each key at most once. */
  predicate LatestPerKey(s: Snapshot) { EachKeyOnce(s.items) }

  predicate EachKeyOnce(items: seq<Item>) {
    forall i, j :: 0 <= i < j < |items| && items[i].Got? && items[j].Got? ==> items[i].entry.key != items[j].entry.key
  }

  /** The item ends the reading of the stream with an error. */
  predicate Fails(s: Snapshot, x: Item) {
    x.StreamError? || BlobOf(s, x.entry.hash).CheckFails? || BlobOf(s, x.entry.hash).ReadFails?
  }

  predicate NoErrors(s: Snapshot) { forall x <- s.items :: !Fails(s, x) }

  // ---------------------------------------------------------------- getAttr

  /** Query with an exact key: the entry for it, if any. */
  function Lookup(items: seq<Item>, key: Bytes): Option<Entry> {
    if items == [] then None
    else if items[0].Got? && items[0].entry.key == key then Some(items[0].entry)
    else Lookup(items[1..], key)
  }

  /** iroh_docs_get_latest: a missing entry is an empty result, a missing blob an error. */
  function GetLatest(s: Snapshot, key: Bytes): Result<Bytes> {
    match Lookup(s.items, key)
    case None => Ok([])
    case Some(e) =>
      match BlobOf(s, e.hash)
      case Local(content) => Ok(content)
      case _ => Err
  }

  /** A JavaScript value as the handlers push it: a buffer, or null for no bytes. */
  type JsValue = Option<Bytes>

  function ToJs(content: Bytes): JsValue { if content != [] then Some(content) else None }

  /** What the getAttr callback receives; Err stands for the "error" event instead. */
  function GetAttr(s: Snapshot, key: Bytes): Result<JsValue> {
    match GetLatest(s, key)
    case Ok(content) => Ok(ToJs(content))
    case Err => Err
  }

  lemma {:induction false} LookupFinds(items: seq<Item>, key: Bytes, i: nat)
    requires i < |items| && items[i].Got? && items[i].entry.key == key
    requires EachKeyOnce(items)
    ensures Lookup(items, key) == Some(items[i].entry)
  {
    if i != 0 { LookupFinds(items[1..], key, i - 1); }
  }

  lemma {:induction false} LookupMisses(items: seq<Item>, key: Bytes)
    requires forall i :: 0 <= i < |items| && items[i].Got? ==> items[i].entry.key != key
    ensures Lookup(items, key) == None
  {
    if items != [] { LookupMisses(items[1..], key); }
  }

  /** Item `i` is the entry for `key`. */
  predicate EntryAt(s: Snapshot, i: nat, key: Bytes) {
    i < |s.items| && s.items[i].Got? && s.items[i].entry.key == key
  }

  /** The blob of item `i` is here, with this content. */
  predicate ContentAt(s: Snapshot, i: nat, content: Bytes)
    requires i < |s.items| && s.items[i].Got?
  {
    s.items[i].entry.hash in s.store && s.store[s.items[i].entry.hash] == Local(content)
  }

  /**
   * What getAttr answers: null without an entry for the key, or with an empty one; the content
   * if it is here; and an error, not null, if there is an entry whose content is not.
   */
  lemma GetAttrAnswers(s: Snapshot, key: Bytes)
    requires LatestPerKey(s)
    ensures GetAttr(s, key).Err? <==> exists i: nat :: EntryAt(s, i, key) && forall c :: !ContentAt(s, i, c)
    ensures GetAttr(s, key) == Ok(None) <==>
            (forall i: nat :: !EntryAt(s, i, key)) || (exists i: nat :: EntryAt(s, i, key) && ContentAt(s, i, []))
    ensures forall i: nat, c: Bytes ::
              EntryAt(s, i, key) && ContentAt(s, i, c) && c != [] ==> GetAttr(s, key) == Ok(Some(c))
  {
    if i: nat :| EntryAt(s, i, key) {
      LookupFinds(s.items, key, i);
      assert forall j: nat :: EntryAt(s, j, key) ==> j == i;
      var blob := BlobOf(s, s.items[i].entry.hash);
      if blob.Local? { assert ContentAt(s, i, blob.content); }
    } else {
      assert forall i :: 0 <= i < |s.items| && s.items[i].Got? ==> !EntryAt(s, i, key);
      LookupMisses(s.items, key);
    }
  }

  // ---------------------------------------------------------------- getAll

  /** CString::new(key).unwrap_or_default(). */
  function CKey(k: Bytes): Bytes { if 0 in k then [] else k }

  /** An entry of the snapshot whose content is here. */
  predicate IsLocal(s: Snapshot, x: Item) { x.Got? && BlobOf(s, x.entry.hash).Local? }

  datatype Pair = Pair(key: Bytes, value: Bytes)

  /** The pairs of the local entries, in order. */
  function PairsOf(s: Snapshot, items: seq<Item>): seq<Pair> {
    if items == [] then []
    else
      var x := items[|items| - 1];
      PairsOf(s, items[..|items| - 1])
      + if IsLocal(s, x) then [Pair(Utf8.Lossy(x.entry.key), BlobOf(s, x.entry.hash).content)] else []
  }

  /** The worker of iroh_docs_get_all. */
  method CollectPairs(s: Snapshot) returns (r: Result<seq<Pair>>)
    ensures r.Err? <==> exists x :: x in s.items && Fails(s, x)
    ensures r.Ok? ==> r.value == PairsOf(s, s.items)
  {
    var pairs := [];
    var i := 0;
    while i < |s.items|
      invariant 0 <= i <= |s.items|
      invariant forall j :: 0 <= j < i ==> !Fails(s, s.items[j])
      invariant pairs == PairsOf(s, s.items[..i])
    {
      assert s.items[..i + 1][..i] == s.items[..i];
      if s.items[i].StreamError? {
        assert Fails(s, s.items[i]);
        return Err;
      }
      var e := s.items[i].entry;
      match BlobOf(s, e.hash) {
        case Local(content) => pairs := pairs + [Pair(Utf8.Lossy(e.key), content)];
        case Absent =>
        case _ =>
          assert Fails(s, s.items[i]);
          return Err;
      }
      i := i + 1;
    }
    assert s.items[..i] == s.items;
    r := Ok(pairs);
  }

  /** IrohKeyValuePair: a null value pointer has length 0. */
  datatype CPair = CPair(key: Bytes, value: Option<Bytes>, len: nat)

  /** iroh_docs_get_all_result. */
  method ToCArray(pairs: seq<Pair>) returns (c: seq<CPair>)
    ensures |c| == |pairs|
    ensures forall i :: 0 <= i < |c| ==>
              c[i] == CPair(CKey(pairs[i].key), ToJs(pairs[i].value), |pairs[i].value|)
  {
    c := [];
    for n := 0 to |pairs|
      invariant |c| == n
      invariant forall i :: 0 <= i < n ==>
                  c[i] == CPair(CKey(pairs[i].key), ToJs(pairs[i].value), |pairs[i].value|)
    {
      var v := if |pairs[n].value| > 0 then Some(pairs[n].value) else None;
      c := c + [CPair(CKey(pairs[n].key), v, |pairs[n].value|)];
    }
  }

  /** The object with one property per pair, later pairs overwriting earlier ones. */
  function ObjectOf(pairs: seq<Pair>): map<Bytes, JsValue> {
    if pairs == [] then map[]
    else
      var p := pairs[|pairs| - 1];
      ObjectOf(pairs[..|pairs| - 1])[CKey(p.key) := ToJs(p.value)]
  }

  /** The loop of iroh_on_docs_get_all_done. */
  method BuildObject(c: seq<CPair>, ghost pairs: seq<Pair>) returns (obj: map<Bytes, JsValue>)
    requires |c| == |pairs|
    requires forall i :: 0 <= i < |c| ==>
               c[i] == CPair(CKey(pairs[i].key), ToJs(pairs[i].value), |pairs[i].value|)
    ensures obj == ObjectOf(pairs)
  {
    obj := map[];
    for n := 0 to |c|
      invariant obj == ObjectOf(pairs[..n])
    {
      var v: JsValue := if c[n].value.Some? && c[n].len > 0 then c[n].value else None;
      obj := obj[c[n].key := v];
      assert pairs[..n + 1][..n] == pairs[..n];
    }
    assert pairs[..|c|] == pairs;
  }

  /** The name under which getAll reports a key. */
  function NameOf(k: Bytes): Bytes { CKey(Utf8.Lossy(k)) }

  /** getAll as one map, over a prefix of the stream. */
  function AllOf(s: Snapshot, items: seq<Item>): map<Bytes, JsValue> {
    if items == [] then map[]
    else
      var x := items[|items| - 1];
      var m := AllOf(s, items[..|items| - 1]);
      if IsLocal(s, x) then m[NameOf(x.entry.key) := ToJs(BlobOf(s, x.entry.hash).content)] else m
  }

  /** Building the object from the pairs loses nothing the entries determine. */
  lemma {:induction false} PairsMakeObject(s: Snapshot, items: seq<Item>)
    ensures ObjectOf(PairsOf(s, items)) == AllOf(s, items)
  {
    if items != [] {
      var front, x := items[..|items| - 1], items[|items| - 1];
      PairsMakeObject(s, front);
      if IsLocal(s, x) {
        var pairs, p := PairsOf(s, front), Pair(Utf8.Lossy(x.entry.key), BlobOf(s, x.entry.hash).content);
        assert (pairs + [p])[..|pairs|] == pairs;
      } else {
        assert PairsOf(s, items) == PairsOf(s, front);
      }
    }
  }

  /** getAll from the snapshot to the argument of its callback. */
  method GetAll(s: Snapshot) returns (r: Result<map<Bytes, JsValue>>)
    ensures r.Err? <==> exists x :: x in s.items && Fails(s, x)
    ensures r.Ok? ==> r.value == AllOf(s, s.items)
  {
    var pairs := CollectPairs(s);
    if pairs.Err? { return Err; }
    var c := ToCArray(pairs.value);
    var obj := BuildObject(c, pairs.value);
    PairsMakeObject(s, s.items);
    r := Ok(obj);
  }

  // ---------------------------------------------------------------- agreement

  /** Every name in the object comes from some local entry. */
  lemma {:induction false} NamesComeFromEntries(s: Snapshot, items: seq<Item>, name: Bytes)
    requires name in AllOf(s, items)
    ensures exists x :: x in items && IsLocal(s, x) && NameOf(x.entry.key) == name
  {
    var front, x := items[..|items| - 1], items[|items| - 1];
    if IsLocal(s, x) && NameOf(x.entry.key) == name {
      assert x in items;
    } else {
      NamesComeFromEntries(s, front, name);
      var y :| y in front && IsLocal(s, y) && NameOf(y.entry.key) == name;
      assert y in items;
    }
  }

  /** The keys of local entries are reported under their own name. */
  predicate OwnNames(s: Snapshot, items: seq<Item>) {
    forall x <- items :: IsLocal(s, x) ==> NameOf(x.entry.key) == x.entry.key
  }

  lemma {:induction false} EntriesAreReported(s: Snapshot, items: seq<Item>, i: nat)
    requires i < |items| && IsLocal(s, items[i]) && OwnNames(s, items)
    requires EachKeyOnce(items)
    ensures items[i].entry.key in AllOf(s, items)
    ensures AllOf(s, items)[items[i].entry.key] == ToJs(BlobOf(s, items[i].entry.hash).content)
  {
    var front := items[..|items| - 1];
    if i < |front| {
      assert forall x <- front :: x in items;
      EntriesAreReported(s, front, i);
    }
  }

  /** `key` has an entry whose content is local. */
  predicate LocalKey(s: Snapshot, key: Bytes) {
    exists i :: 0 <= i < |s.items| && IsLocal(s, s.items[i]) && s.items[i].entry.key == key
  }

  /** Valid UTF-8 without NUL. */
  predicate PlainKey(k: Bytes) { Utf8.Valid(k) && 0 !in k }

  predicate PlainKeys(s: Snapshot) { forall x <- s.items :: IsLocal(s, x) ==> PlainKey(x.entry.key) }

  /** A key is reported under its own name exactly if it is plain. */
  lemma NameIsKeyIff(k: Bytes)
    ensures NameOf(k) == k <==> PlainKey(k)
  {
    Utf8.KeptIff(k);
    Utf8.NulIsKept(k);
  }

  lemma PlainMeansOwn(s: Snapshot)
    ensures PlainKeys(s) <==> OwnNames(s, s.items)
  {
    forall x <- s.items | IsLocal(s, x) ensures PlainKey(x.entry.key) <==> NameOf(x.entry.key) == x.entry.key {
      NameIsKeyIff(x.entry.key);
    }
  }

  /**
   * On a snapshot whose local keys are valid UTF-8 and free of NUL, getAll reports exactly the
   * keys whose content is local, and under each the value getAttr gives for it.
   */
  lemma GetAllAgreesWithGetAttr(s: Snapshot, key: Bytes)
    requires LatestPerKey(s) && PlainKeys(s)
    ensures var obj := AllOf(s, s.items);
            && (key in obj <==> LocalKey(s, key))
            && (key in obj ==> GetAttr(s, key) == Ok(obj[key]))
  {
    PlainMeansOwn(s);
    var obj := AllOf(s, s.items);
    if key in obj {
      NamesComeFromEntries(s, s.items, key);
      var x :| x in s.items && IsLocal(s, x) && NameOf(x.entry.key) == key;
      var i :| 0 <= i < |s.items| && s.items[i] == x;
      assert LocalKey(s, key);
    }
    if LocalKey(s, key) {
      var i :| 0 <= i < |s.items| && IsLocal(s, s.items[i]) && s.items[i].entry.key == key;
      EntriesAreReported(s, s.items, i);
      LookupFinds(s.items, key, i);
    }
  }

  lemma NamesAreFixed(k: Bytes)
    ensures NameOf(NameOf(k)) == NameOf(k)
  {
    Utf8.LossyIsValid(k);
    Utf8.ValidIsKept(Utf8.Lossy(k));
  }

  lemma RenamedKeyIsMissing(s: Snapshot, key: Bytes)
    requires NameOf(key) != key
    ensures key !in AllOf(s, s.items)
  {
    if key in AllOf(s, s.items) {
      NamesComeFromEntries(s, s.items, key);
      var y :| y in s.items && IsLocal(s, y) && NameOf(y.entry.key) == key;
      NamesAreFixed(y.entry.key);
    }
  }

  ghost predicate ReportsLocalKeys(s: Snapshot) {
    forall key :: key in AllOf(s, s.items) <==> LocalKey(s, key)
  }

  /**
   * The condition on the keys is exact: the object's names are the local keys if and only if
   * every local key is valid UTF-8 without NUL.
   */
  lemma NamesAreKeysIff(s: Snapshot)
    requires LatestPerKey(s)
    ensures ReportsLocalKeys(s) <==> PlainKeys(s)
  {
    PlainMeansOwn(s);
    if PlainKeys(s) {
      forall key ensures key in AllOf(s, s.items) <==> LocalKey(s, key) { GetAllAgreesWithGetAttr(s, key); }
    } else {
      var x :| x in s.items && IsLocal(s, x) && NameOf(x.entry.key) != x.entry.key;
      var i :| 0 <= i < |s.items| && s.items[i] == x;
      assert LocalKey(s, x.entry.key);
      RenamedKeyIsMissing(s, x.entry.key);
    }
  }

  /** `items` without its entry `i`. */
  function Without(items: seq<Item>, i: nat): seq<Item>
    requires i < |items|
  {
    items[..i] + items[i + 1..]
  }

  /** The objects agree except, perhaps, at `name`. */
  predicate SameBut(m: map<Bytes, JsValue>, m': map<Bytes, JsValue>, name: Bytes) { m - {name} == m' - {name} }

  lemma SetKeepsSame(m: map<Bytes, JsValue>, m': map<Bytes, JsValue>, name: Bytes, k: Bytes, v: JsValue)
    requires SameBut(m, m', name)
    ensures SameBut(m[k := v], m'[k := v], name) && m[name := v] == m'[name := v]
  {
    assert forall x :: x in m && x != name <==> x in m - {name};
    assert forall x :: x in m' && x != name <==> x in m' - {name};
    forall x | x in m && x != name ensures x in m' && m[x] == m'[x] { assert (m - {name})[x] == (m' - {name})[x]; }
    forall x | x in m' && x != name ensures x in m {}
  }

  /** Dropping an entry changes the object at that entry's name at most. */
  lemma {:induction false} OthersStay(s: Snapshot, items: seq<Item>, i: nat)
    requires i < |items| && items[i].Got?
    ensures SameBut(AllOf(s, items), AllOf(s, Without(items, i)), NameOf(items[i].entry.key))
  {
    var front, x := items[..|items| - 1], items[|items| - 1];
    if i == |items| - 1 {
      assert Without(items, i) == front;
    } else {
      OthersStay(s, front, i);
      assert Without(items, i) == Without(front, i) + [x];
      assert Without(items, i)[..|items| - 2] == Without(front, i);
      if IsLocal(s, x) {
        SetKeepsSame(AllOf(s, front), AllOf(s, Without(front, i)), NameOf(items[i].entry.key),
                     NameOf(x.entry.key), ToJs(BlobOf(s, x.entry.hash).content));
      }
    }
  }

  /** An entry whose name a later local entry shares has no influence on the object. */
  lemma {:induction false} ShadowedEntry(s: Snapshot, items: seq<Item>, i: nat, j: nat)
    requires i < j < |items| && items[i].Got? && IsLocal(s, items[j])
    requires NameOf(items[i].entry.key) == NameOf(items[j].entry.key)
    ensures AllOf(s, items) == AllOf(s, Without(items, i))
  {
    var front, x := items[..|items| - 1], items[|items| - 1];
    assert Without(items, i) == Without(front, i) + [x];
    assert Without(items, i)[..|items| - 2] == Without(front, i);
    if j == |items| - 1 {
      OthersStay(s, front, i);
      SetKeepsSame(AllOf(s, front), AllOf(s, Without(front, i)), NameOf(x.entry.key),
                   NameOf(x.entry.key), ToJs(BlobOf(s, x.entry.hash).content));
    } else {
      ShadowedEntry(s, front, i, j);
    }
  }

  /** Keys with a NUL all go by the empty name, and only the last of them is reported. */
  lemma NulKeysCollapse(s: Snapshot, i: nat, j: nat)
    requires i < j < |s.items| && s.items[i].Got? && IsLocal(s, s.items[j])
    requires 0 in s.items[i].entry.key && 0 in s.items[j].entry.key
    ensures NameOf(s.items[i].entry.key) == NameOf(s.items[j].entry.key) == []
    ensures AllOf(s, s.items) == AllOf(s, Without(s.items, i))
  {
    Utf8.NulIsKept(s.items[i].entry.key);
    Utf8.NulIsKept(s.items[j].entry.key);
    ShadowedEntry(s, s.items, i, j);
  }

  /** The byte FF as a key is reported as U+FFFD. */
  lemma InvalidKeyIsRenamed(content: Bytes)
    ensures var s := Snapshot([Got(Entry([0xFF], 0))], map[0 := Local(content)]);
            && LatestPerKey(s) && NoErrors(s) && LocalKey(s, [0xFF])
            && AllOf(s, s.items) == map[[0xEF, 0xBF, 0xBD] := ToJs(content)]
  {
    var s := Snapshot([Got(Entry([0xFF], 0))], map[0 := Local(content)]);
    var k: Bytes := [0xFF];
    assert Utf8.Part(k) == 1 && !Utf8.StartsChar(k) && k[1..] == [];
    assert Utf8.Lossy(k) == Utf8.REPLACEMENT + [] == Utf8.REPLACEMENT;
    assert IsLocal(s, s.items[0]) && s.items[..0] == [];
  }

  /** Two NUL keys, one property: the first value is lost. */
  lemma NulValueIsLost(a: Bytes, b: Bytes)
    ensures var s := Snapshot([Got(Entry([1, 0], 1)), Got(Entry([2, 0], 2))], map[1 := Local(a), 2 := Local(b)]);
            && LatestPerKey(s) && NoErrors(s) && LocalKey(s, [1, 0]) && LocalKey(s, [2, 0])
            && AllOf(s, s.items) == map[[] := ToJs(b)]
  {
    var s := Snapshot([Got(Entry([1, 0], 1)), Got(Entry([2, 0], 2))], map[1 := Local(a), 2 := Local(b)]);
    assert IsLocal(s, s.items[0]) && IsLocal(s, s.items[1]);
    NulKeysCollapse(s, 0, 1);
    assert Without(s.items, 0) == [s.items[1]] && [s.items[1]][..0] == [];
  }
}
