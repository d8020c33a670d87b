/**
 * Endpoint addresses as text: the key, then "?relay=" and the relay URL if there is one.
 * The key codec is a parameter.
 */
module Address {
  import opened Common

  /** Printer and parser of public keys. */
  datatype Codec<!Key> = Codec(show: Key -> string, parse: string -> Option<Key>)

  /** What the address text depends on: keys parse back, and '?' and NUL never occur in one. */
  ghost predicate Sound<Key(!new)>(c: Codec<Key>) {
    forall k: Key :: c.parse(c.show(k)) == Some(k) && '?' !in c.show(k) && '\0' !in c.show(k)
  }

  datatype Addr<Key> = Addr(key: Key, relay: Option<string>, direct: seq<string>)

  const RELAY: string := "relay="

  function Query(relay: Option<string>): string {
    if relay.Some? then "?" + RELAY + relay.value else ""
  }

  /** iroh_endpoint_addr_to_string: None where CString::new refuses the text. */
  function Print<Key>(c: Codec<Key>, a: Addr<Key>): Option<string> {
    var s := c.show(a.key) + Query(a.relay);
    if '\0' in s then None else Some(s)
  }

  /** `s.find('?')`. */
  function Find(s: string): (i: nat)
    ensures i <= |s| && '?' !in s[..i] && (i < |s| ==> s[i] == '?')
  {
    if s == [] || s[0] == '?' then 0
    else
      var i := 1 + Find(s[1..]);
      assert s[..i] == [s[0]] + s[1..][..i - 1];
      i
  }

  predicate StartsWith(s: string, p: string) { |p| <= |s| && s[..|p|] == p }

  /** The relay in the text `s` whose key part has length `i`. */
  function RelayAt(s: string, i: nat): Option<string>
    requires i <= |s|
  {
    if i < |s| && StartsWith(s[i + 1..], RELAY) then Some(s[i + 1..][|RELAY|..]) else None
  }

  /** iroh_endpoint_addr_from_string. */
  function Parse<Key>(c: Codec<Key>, s: string): Option<Addr<Key>> {
    var i := Find(s);
    match c.parse(s[..i])
    case Some(key) => Some(Addr(key, RelayAt(s, i), []))
    case None => None
  }

  lemma {:induction false} FindAfterPrefix(p: string, q: string)
    requires '?' !in p && (q == [] || q[0] == '?')
    ensures Find(p + q) == |p|
  {
    if p == [] {
      assert p + q == q;
    } else {
      assert (p + q)[1..] == p[1..] + q;
      FindAfterPrefix(p[1..], q);
    }
  }

  /**
   * A printed address parses back to the same key and relay, for every relay text that can be
   * printed at all, the empty one and those containing '?' included.
   */
  lemma PrintedAddressParsesBack<Key(!new)>(c: Codec<Key>, a: Addr<Key>)
    requires Sound(c)
    ensures Print(c, a).None? <==> a.relay.Some? && '\0' in a.relay.value
    ensures Print(c, a).Some? ==> Parse(c, Print(c, a).value) == Some(Addr(a.key, a.relay, []))
  {
    var p := c.show(a.key);
    var q := Query(a.relay);
    assert '\0' in p + q <==> '\0' in p || '\0' in q;
    FindAfterPrefix(p, q);
    var s := p + q;
    assert s[..|p|] == p;
    if a.relay.Some? {
      assert s[|p| + 1..] == RELAY + a.relay.value;
      assert (RELAY + a.relay.value)[..|RELAY|] == RELAY && (RELAY + a.relay.value)[|RELAY|..] == a.relay.value;
    }
  }

  /** Hence the text determines key and relay. */
  lemma PrintIsInjective<Key(!new)>(c: Codec<Key>, a: Addr<Key>, b: Addr<Key>)
    requires Sound(c) && Print(c, a).Some? && Print(c, a) == Print(c, b)
    ensures a.key == b.key && a.relay == b.relay
  {
    PrintedAddressParsesBack(c, a);
    PrintedAddressParsesBack(c, b);
  }

  /**
   * The other way round: printing what was parsed gives the text back exactly when the key
   * part is the one the key prints as, and there is no query or the query is a relay.
   */
  lemma ParsedAddressPrintsBackIff<Key(!new)>(c: Codec<Key>, s: string)
    requires Sound(c) && '\0' !in s && Parse(c, s).Some?
    ensures Print(c, Parse(c, s).value) == Some(s) <==>
            && c.show(Parse(c, s).value.key) == s[..Find(s)]
            && (Find(s) == |s| || StartsWith(s[Find(s) + 1..], RELAY))
  {
    var a := Parse(c, s).value;
    PartsBackIff(s, c.show(a.key), a.relay);
  }

  /** The text, spelled out. */
  lemma PrintedText<Key(!new)>(c: Codec<Key>, k: Key, relay: string, direct: seq<string>)
    requires Sound(c) && '\0' !in relay
    ensures Print(c, Addr(k, Some(relay), direct)) == Some(c.show(k) + "?relay=" + relay)
    ensures Print(c, Addr(k, None, direct)) == Some(c.show(k))
  {
    assert c.show(k) + ("?" + "relay=" + relay) == c.show(k) + "?relay=" + relay;
    assert c.show(k) + "" == c.show(k);
  }

  /** What a text parses to, for any key part and any query or none. */
  lemma ParsedText<Key(!new)>(c: Codec<Key>, p: string, q: string, relay: string)
    requires '?' !in p
    ensures Parse(c, p) == if c.parse(p).Some? then Some(Addr(c.parse(p).value, None, [])) else None
    ensures Parse(c, p + "?relay=" + relay) ==
            if c.parse(p).Some? then Some(Addr(c.parse(p).value, Some(relay), [])) else None
    ensures !StartsWith(q, "relay=") ==> Parse(c, p + "?" + q) == Parse(c, p)
  {
    FindAfterPrefix(p, []);
    assert p + [] == p && p[..|p|] == p;
    var s := p + "?relay=" + relay;
    assert s == p + ("?relay=" + relay);
    FindAfterPrefix(p, "?relay=" + relay);
    assert s[..|p|] == p && s[|p| + 1..] == RELAY + relay;
    assert (RELAY + relay)[..|RELAY|] == RELAY && (RELAY + relay)[|RELAY|..] == relay;
    var t := p + "?" + q;
    assert t == p + ("?" + q);
    FindAfterPrefix(p, "?" + q);
    assert t[..|p|] == p && t[|p| + 1..] == q;
  }

  /** Any other query is dropped: such a text parses and prints back shorter. */
  lemma OtherQueryIsDropped<Key(!new)>(c: Codec<Key>, k: Key)
    requires Sound(c)
    ensures Parse(c, c.show(k) + "?x") == Some(Addr(k, None, []))
    ensures Print(c, Addr(k, None, [])) == Some(c.show(k))
  {
    var s := c.show(k) + "?x";
    FindAfterPrefix(c.show(k), "?x");
    assert s[..|c.show(k)|] == c.show(k) && |s[|c.show(k)| + 1..]| == 1;
    assert c.show(k) + "" == c.show(k);
  }

  lemma PartsBackIff(s: string, p: string, relay: Option<string>)
    requires '?' !in p && relay == RelayAt(s, Find(s))
    ensures p + Query(relay) == s <==> p == s[..Find(s)] && (Find(s) == |s| || StartsWith(s[Find(s) + 1..], RELAY))
  {
    QueryBackIff(s, Find(s), relay);
    FindAfterPrefix(p, Query(relay));
    assert (p + Query(relay))[..|p|] == p;
  }

  /** A text with a question mark at `i` and `p` after it, put together again. */
  lemma PutTogether(s: string, i: nat, p: string)
    requires i < |s| && s[i] == '?' && StartsWith(s[i + 1..], p)
    ensures s == s[..i] + ("?" + p + s[i + 1..][|p|..])
  {
    var q := s[i + 1..];
    assert q == p + q[|p|..];
    assert s == s[..i] + (['?'] + q);
  }

  lemma QueryBackIff(s: string, i: nat, relay: Option<string>)
    requires i <= |s| && (i < |s| ==> s[i] == '?') && relay == RelayAt(s, i)
    ensures s[..i] + Query(relay) == s <==> i == |s| || StartsWith(s[i + 1..], RELAY)
  {
    if relay.Some? {
      PutTogether(s, i, RELAY);
    } else {
      assert Query(relay) == "" && s[..i] + "" == s[..i];
      assert |s[..i]| == i;
    }
  }
}
