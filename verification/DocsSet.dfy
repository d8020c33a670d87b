/**
 * Object-form docs.set: the properties of the object go into three parallel arrays that double
 * together, the arrays are copied into a list of entries, and the entries are written in order
 * until one fails.
 */
module DocsSet {
  import opened Common

  datatype JsVal = Str(bytes: Bytes) | Buf(bytes: Bytes) | Neither

  datatype Prop = Prop(key: Bytes, value: JsVal)

  datatype Entry = Entry(key: Bytes, value: Bytes)

  type Doc = map<Bytes, Bytes>

  /** CStr::from_ptr: the bytes before the first NUL. */
  function UpToNul(k: Bytes): (r: Bytes)
    ensures |r| <= |k| && r == k[..|r|] && 0 !in r && (|r| < |k| ==> k[|r|] == 0)
  {
    if k == [] || k[0] == 0 then [] else [k[0]] + UpToNul(k[1..])
  }

  /** The entry docs.set(ns, author, key, value) writes for one property. */
  function EntryOf(p: Prop): Entry
    requires !p.value.Neither?
  {
    Entry(UpToNul(p.key), p.value.bytes)
  }

  function EntriesOf(props: seq<Prop>): seq<Entry>
    requires forall p <- props :: !p.value.Neither?
  {
    seq(|props|, i requires 0 <= i < |props| => EntryOf(props[i]))
  }

  // ---------------------------------------------------------------- the single form

  /** One docs.set whose native write succeeds or not. */
  function SetOne(doc: Doc, e: Entry, ok: bool): Doc { if ok then doc[e.key := e.value] else doc }

  /** Single sets issued one after the other, stopping at the first that fails. */
  function SetEach(doc: Doc, entries: seq<Entry>, oks: seq<bool>): Doc
    requires |oks| == |entries|
    decreases |entries|
  {
    if entries == [] then doc
    else if !oks[0] then SetOne(doc, entries[0], false)
    else SetEach(SetOne(doc, entries[0], true), entries[1..], oks[1..])
  }

  /** All of `entries` written in order. */
  function Written(doc: Doc, entries: seq<Entry>): Doc {
    if entries == [] then doc
    else
      var last := entries[|entries| - 1];
      Written(doc, entries[..|entries| - 1])[last.key := last.value]
  }

  /** A key ends up with the value of the last entry for it, and untouched if there is none. */
  lemma {:induction false} WrittenLastWins(doc: Doc, entries: seq<Entry>, i: int, key: Bytes)
    requires -1 <= i < |entries| && (i >= 0 ==> entries[i].key == key)
    requires forall j :: i < j < |entries| ==> entries[j].key != key
    ensures i >= 0 ==> key in Written(doc, entries) && Written(doc, entries)[key] == entries[i].value
    ensures i == -1 ==> (key in Written(doc, entries) <==> key in doc)
    ensures i == -1 && key in doc ==> Written(doc, entries)[key] == doc[key]
  {
    if entries != [] && i < |entries| - 1 { WrittenLastWins(doc, entries[..|entries| - 1], i, key); }
  }

  /** How many leading writes succeed. */
  function Successes(oks: seq<bool>): (n: nat)
    ensures n <= |oks| && (n < |oks| ==> !oks[n]) && forall i :: 0 <= i < n ==> oks[i]
  {
    if oks == [] || !oks[0] then 0 else 1 + Successes(oks[1..])
  }

  lemma {:induction false} WrittenFront(doc: Doc, e: Entry, rest: seq<Entry>)
    ensures Written(doc, [e] + rest) == Written(doc[e.key := e.value], rest)
    decreases |rest|
  {
    var all := [e] + rest;
    if rest == [] {
      assert all[..0] == [] && all == [e];
    } else {
      assert all[..|all| - 1] == [e] + rest[..|rest| - 1];
      WrittenFront(doc, e, rest[..|rest| - 1]);
    }
  }

  /** Single sets up to the first failure leave exactly the entries before it written. */
  lemma {:induction false} SetEachStopsAtFailure(doc: Doc, entries: seq<Entry>, oks: seq<bool>)
    requires |oks| == |entries|
    ensures SetEach(doc, entries, oks) == Written(doc, entries[..Successes(oks)])
    decreases |entries|
  {
    if entries != [] && oks[0] {
      SetEachStopsAtFailure(SetOne(doc, entries[0], true), entries[1..], oks[1..]);
      var n := Successes(oks);
      assert entries[..n] == [entries[0]] + entries[1..][..n - 1];
      WrittenFront(doc, entries[0], entries[1..][..n - 1]);
    }
  }

  // ---------------------------------------------------------------- the arrays

  method Doubled<T(0)>(a: array<T>, cap: nat) returns (b: array<T>)
    requires a.Length <= cap
    ensures fresh(b) && b.Length == cap && b[..a.Length] == a[..]
  {
    b := new T[cap];
    forall i | 0 <= i < a.Length { b[i] := a[i]; }
  }

  /** The three arrays hold the first `n` properties, in order. */
  ghost predicate Holds(props: seq<Prop>, n: nat, keys: array<Bytes>, values: array<Bytes>, lens: array<nat>)
    reads keys, values, lens
  {
    && n <= |props| && n <= keys.Length == values.Length == lens.Length
    && forall i :: 0 <= i < n ==>
         !props[i].value.Neither? && keys[i] == props[i].key && values[i] == props[i].value.bytes
         && lens[i] == |props[i].value.bytes|
  }

  /** The three reallocs. */
  method GrowAll(props: seq<Prop>, n: nat, keys: array<Bytes>, values: array<Bytes>, lens: array<nat>, cap: nat)
    returns (k: array<Bytes>, v: array<Bytes>, l: array<nat>)
    requires Holds(props, n, keys, values, lens) && keys.Length <= cap
    ensures Holds(props, n, k, v, l) && k.Length == cap && fresh(k) && fresh(v) && fresh(l) && k != v
  {
    k := Doubled(keys, cap);
    v := Doubled(values, cap);
    l := Doubled(lens, cap);
    forall i | 0 <= i < n ensures k[i] == keys[i] && v[i] == values[i] && l[i] == lens[i] {
      assert k[i] == k[..keys.Length][i] && v[i] == v[..keys.Length][i] && l[i] == l[..keys.Length][i];
    }
  }

  /** The three stores of one turn. */
  method PutAt(props: seq<Prop>, n: nat, keys: array<Bytes>, values: array<Bytes>, lens: array<nat>)
    requires Holds(props, n, keys, values, lens) && n < |props| && n < keys.Length && keys != values
    requires !props[n].value.Neither?
    modifies keys, values, lens
    ensures Holds(props, n + 1, keys, values, lens)
  {
    keys[n] := props[n].key;
    values[n] := props[n].value.bytes;
    lens[n] := |props[n].value.bytes|;
  }

  /** The enumeration loop of docs.set; `ok` is false where it throws. */
  method BuildArrays(props: seq<Prop>)
    returns (ok: bool, keys: array<Bytes>, values: array<Bytes>, lens: array<nat>, count: nat)
    ensures ok <==> props != [] && forall p <- props :: !p.value.Neither?
    ensures ok ==> count == |props| && Holds(props, count, keys, values, lens)
  {
    var cap := 8;
    keys, values, lens := new Bytes[cap], new Bytes[cap], new nat[cap];
    count := 0;
    while count < |props|
      invariant 0 < cap == keys.Length && Holds(props, count, keys, values, lens)
      invariant fresh(keys) && fresh(values) && fresh(lens) && keys != values
    {
      var p := props[count];
      if p.value.Neither? {
        assert p in props;
        return false, keys, values, lens, 0;
      }
      if count >= cap {
        cap := cap * 2;
        keys, values, lens := GrowAll(props, count, keys, values, lens, cap);
      }
      PutAt(props, count, keys, values, lens);
      count := count + 1;
    }
    ok := count != 0;
  }

  // ---------------------------------------------------------------- the native side

  /** The copying loop of iroh_docs_set_multi. */
  method CopyEntries(props: seq<Prop>, keys: array<Bytes>, values: array<Bytes>, lens: array<nat>, count: nat)
    returns (entries: seq<Entry>)
    requires count == |props| && Holds(props, count, keys, values, lens)
    ensures forall p <- props :: !p.value.Neither?
    ensures entries == EntriesOf(props)
  {
    entries := [];
    for i := 0 to count
      invariant |entries| == i
      invariant forall j :: 0 <= j < i ==> !props[j].value.Neither? && entries[j] == EntryOf(props[j])
    {
      var v := if lens[i] > 0 then values[i][..lens[i]] else [];
      entries := entries + [Entry(UpToNul(keys[i]), v)];
    }
  }

  datatype Lookup = Found | NotFound | OpenFailed

  /** The worker of iroh_docs_set_multi: `oks[i]` is the outcome of the i-th set_bytes. */
  method ApplyEntries(doc: Doc, lookup: Lookup, entries: seq<Entry>, oks: seq<bool>) returns (after: Doc, ok: bool)
    requires |oks| == |entries|
    ensures !lookup.Found? ==> after == doc && !ok
    ensures lookup.Found? ==> after == Written(doc, entries[..Successes(oks)])
    ensures lookup.Found? ==> (ok <==> Successes(oks) == |oks|)
  {
    after := doc;
    if !lookup.Found? { return doc, false; }
    var i := 0;
    while i < |entries|
      invariant 0 <= i <= Successes(oks)
      invariant after == Written(doc, entries[..i])
    {
      if !oks[i] { return after, false; }
      after := after[entries[i].key := entries[i].value];
      assert entries[..i + 1][..i] == entries[..i];
      i := i + 1;
    }
    ok := true;
  }

  /** `i` is the last property with its key. */
  predicate LastOfKey(props: seq<Prop>, i: nat) {
    i < |props| && forall j :: i < j < |props| ==> props[j].key != props[i].key
  }

  /** Every property of `props` was stored under its own key, and no other key was touched. */
  ghost predicate Stored(props: seq<Prop>, doc: Doc, after: Doc) {
    && (forall i: nat :: LastOfKey(props, i) && !props[i].value.Neither? ==>
          props[i].key in after && after[props[i].key] == props[i].value.bytes)
    && (forall key :: (forall p <- props :: p.key != key) ==> (key in after <==> key in doc))
    && (forall key :: key in doc && (forall p <- props :: p.key != key) ==> after[key] == doc[key])
  }

  lemma WrittenStores(props: seq<Prop>, doc: Doc)
    requires forall p <- props :: !p.value.Neither? && 0 !in p.key
    ensures Stored(props, doc, Written(doc, EntriesOf(props)))
  {
    var entries := EntriesOf(props);
    forall i | 0 <= i < |props| ensures entries[i] == Entry(props[i].key, props[i].value.bytes) {
      assert props[i] in props;
    }
    forall i: nat | LastOfKey(props, i)
      ensures var m := Written(doc, entries); props[i].key in m && m[props[i].key] == props[i].value.bytes
    {
      WrittenLastWins(doc, entries, i, props[i].key);
    }
    forall key | forall p <- props :: p.key != key
      ensures var m := Written(doc, entries); (key in m <==> key in doc) && (key in doc ==> m[key] == doc[key])
    {
      assert forall j :: 0 <= j < |entries| ==> props[j] in props;
      WrittenLastWins(doc, entries, -1, key);
    }
  }

  /**
   * Object-form docs.set.  It throws, writing nothing, exactly on an empty object or a value
   * that is neither string nor buffer; otherwise the document is what single sets of the
   * properties in enumeration order leave, a failure at entry i leaving exactly the first i.
   */
  method SetObject(doc: Doc, props: seq<Prop>, lookup: Lookup, oks: seq<bool>)
    returns (threw: bool, after: Doc, ok: bool)
    requires |oks| == |props|
    ensures threw <==> props == [] || exists p <- props :: p.value.Neither?
    ensures threw || !lookup.Found? ==> after == doc && !ok
    ensures !threw && lookup.Found? ==>
              && after == SetEach(doc, EntriesOf(props), oks)
              && after == Written(doc, EntriesOf(props)[..Successes(oks)])
              && (ok <==> Successes(oks) == |oks|)
    ensures ok && (forall p <- props :: 0 !in p.key) ==> Stored(props, doc, after)
  {
    var built, keys, values, lens, count := BuildArrays(props);
    if !built { return true, doc, false; }
    var entries := CopyEntries(props, keys, values, lens, count);
    after, ok := ApplyEntries(doc, lookup, entries, oks);
    SetEachStopsAtFailure(doc, EntriesOf(props), oks);
    if ok && (forall p <- props :: 0 !in p.key) {
      assert EntriesOf(props)[..|props|] == EntriesOf(props);
      WrittenStores(props, doc);
    }
    threw := false;
  }
}
