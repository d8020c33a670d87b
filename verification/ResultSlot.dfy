/**
 * Composite results taken out of a handle in stages.  The slot is dynamically typed: an
 * extractor takes whatever is there, tests its type, hands out one component and puts the
 * rest back; on the wrong type everything taken is dropped.
 */
module ResultSlot {
  import opened Common

  datatype Kind = SendStream | RecvStream | Gossip | Router | BlobStore | Blobs | Docs

  /** One component, with its identity. */
  datatype Part = Part(kind: Kind, id: nat)

  /** The types the slot can hold. */
  datatype BoxType =
    | BiStream | OneRecv
    | GossipWithRouter | OneRouter
    | BlobsWithRouter | BlobsPair
    | DocsWithRouter | DocsQuad | DocsTriple

  function Fields(ty: BoxType): seq<Kind> {
    match ty
    case BiStream => [SendStream, RecvStream]
    case OneRecv => [RecvStream]
    case GossipWithRouter => [Gossip, Router]
    case OneRouter => [Router]
    case BlobsWithRouter => [BlobStore, Blobs, Router]
    case BlobsPair => [Blobs, Router]
    case DocsWithRouter => [Docs, BlobStore, Blobs, Gossip, Router]
    case DocsQuad => [BlobStore, Blobs, Gossip, Router]
    case DocsTriple => [Blobs, Gossip, Router]
  }

  datatype RawBox = RawBox(ty: BoxType, parts: seq<Part>)

  predicate Typed(b: RawBox) {
    |b.parts| == |Fields(b.ty)| && forall i :: 0 <= i < |b.parts| ==> b.parts[i].kind == Fields(b.ty)[i]
  }

  type Box = b: RawBox | Typed(b) witness RawBox(OneRecv, [Part(RecvStream, 0)])

  /**
   * The extractor functions.  TakeRouter is both iroh_router_from_gossip_result and
   * iroh_router_from_blobs_result, which test for the same type.
   */
  datatype Extractor =
    | TakeSend | TakeRecv | TakeGossip | TakeRouter | TakeStore | TakeBlobs
    | TakeDocs | TakeDocsStore | TakeDocsRouter

  function Yields(e: Extractor): Kind {
    match e
    case TakeSend => SendStream
    case TakeRecv => RecvStream
    case TakeGossip => Gossip
    case TakeRouter => Router
    case TakeStore => BlobStore
    case TakeBlobs => Blobs
    case TakeDocs => Docs
    case TakeDocsStore => BlobStore
    case TakeDocsRouter => Router
  }

  /** The type an extractor's downcast tests for. */
  function Expects(e: Extractor): BoxType {
    match e
    case TakeSend => BiStream
    case TakeRecv => OneRecv
    case TakeGossip => GossipWithRouter
    case TakeRouter => OneRouter
    case TakeStore => BlobsWithRouter
    case TakeBlobs => BlobsPair
    case TakeDocs => DocsWithRouter
    case TakeDocsStore => DocsQuad
    case TakeDocsRouter => DocsTriple
  }

  /** The type of what it puts back. */
  function PutsBack(e: Extractor): Option<BoxType> {
    match e
    case TakeSend => Some(OneRecv)
    case TakeGossip => Some(OneRouter)
    case TakeStore => Some(BlobsPair)
    case TakeBlobs => Some(OneRouter)
    case TakeDocs => Some(DocsQuad)
    case TakeDocsStore => Some(DocsTriple)
    case _ => None
  }

  /** The first-stage extractors look at the state before they touch the slot. */
  predicate ChecksReady(e: Extractor) { e in {TakeSend, TakeGossip, TakeStore, TakeDocs} }

  datatype Handed = Handed(via: Extractor, part: Part)

  datatype Slot = Slot(content: Option<Box>, handed: seq<Handed>, dropped: seq<Part>)

  lemma RestIsTyped(e: Extractor, b: Box)
    requires b.ty == Expects(e) && PutsBack(e).Some?
    ensures Typed(RawBox(PutsBack(e).value, b.parts[1..]))
  {
    assert Fields(PutsBack(e).value) == Fields(b.ty)[1..];
  }

  /** All but the first component, under the type the extractor stores them back as. */
  function Rest(e: Extractor, b: Box): Option<Box>
    requires b.ty == Expects(e)
  {
    if PutsBack(e).None? then None
    else
      RestIsTyped(e, b);
      Some(RawBox(PutsBack(e).value, b.parts[1..]))
  }

  function Extract(s: Slot, ready: bool, e: Extractor): Slot {
    if (ChecksReady(e) && !ready) || s.content.None? then s
    else
      var b := s.content.value;
      if b.ty != Expects(e) then s.(content := None, dropped := s.dropped + b.parts)
      else if e.TakeDocsRouter? then        // the blobs and gossip handles are bound to _ and dropped
        Slot(None, s.handed + [Handed(e, b.parts[2])], s.dropped + b.parts[..2])
      else
        Slot(Rest(e, b), s.handed + [Handed(e, b.parts[0])], s.dropped)
  }

  /** A call, with what the state lock showed at that moment. */
  datatype Call = Call(ready: bool, e: Extractor)

  function ExtractAll(s: Slot, calls: seq<Call>): Slot
    decreases |calls|
  {
    if calls == [] then s else ExtractAll(Extract(s, calls[0].ready, calls[0].e), calls[1..])
  }

  // ---------------------------------------------------------------- conservation

  function HandedParts(h: seq<Handed>): seq<Part> {
    seq(|h|, i requires 0 <= i < |h| => h[i].part)
  }

  function Held(c: Option<Box>): seq<Part> { if c.Some? then c.value.parts else [] }

  function Everything(s: Slot): multiset<Part> {
    multiset(Held(s.content)) + multiset(HandedParts(s.handed)) + multiset(s.dropped)
  }

  /** Moving one part of `held` out and some to the dropped ones changes no total. */
  lemma Rearranged(held: seq<Part>, lost: seq<Part>, part: Part, rest: seq<Part>, handed: seq<Part>, dropped: seq<Part>)
    requires held == lost + [part] + rest
    ensures multiset(rest) + multiset(handed + [part]) + multiset(dropped + lost) ==
            multiset(held) + multiset(handed) + multiset(dropped)
  {
  }

  /** `t` is `s` with one part handed out and `lost` dropped. */
  predicate Gave(s: Slot, t: Slot, lost: seq<Part>, part: Part) {
    && Held(s.content) == lost + [part] + Held(t.content)
    && HandedParts(t.handed) == HandedParts(s.handed) + [part]
    && t.dropped == s.dropped + lost
  }

  lemma ExtractGives(s: Slot, ready: bool, e: Extractor) returns (lost: seq<Part>, part: Part)
    requires s.content.Some? && (ChecksReady(e) ==> ready) && s.content.value.ty == Expects(e)
    ensures Gave(s, Extract(s, ready, e), lost, part)
  {
    var t := Extract(s, ready, e);
    var parts := s.content.value.parts;
    if e.TakeDocsRouter? { lost, part := parts[..2], parts[2]; } else { lost, part := [], parts[0]; }
    assert HandedParts(t.handed) == HandedParts(s.handed) + [part];
  }

  lemma GivingConserves(s: Slot, t: Slot, lost: seq<Part>, part: Part)
    requires Gave(s, t, lost, part)
    ensures Everything(t) == Everything(s)
  {
    Rearranged(Held(s.content), lost, part, Held(t.content), HandedParts(s.handed), s.dropped);
  }

  lemma ExtractConserves(s: Slot, ready: bool, e: Extractor)
    ensures Everything(Extract(s, ready, e)) == Everything(s)
  {
    if s.content.Some? && (ChecksReady(e) ==> ready) && s.content.value.ty == Expects(e) {
      var lost, part := ExtractGives(s, ready, e);
      GivingConserves(s, Extract(s, ready, e), lost, part);
    }
  }

  lemma ExtractKeepsKinds(s: Slot, ready: bool, e: Extractor)
    requires forall h <- s.handed :: h.part.kind == Yields(h.via)
    ensures forall h <- Extract(s, ready, e).handed :: h.part.kind == Yields(h.via)
  {
    if s.content.Some? && s.content.value.ty == Expects(e) {
      assert Fields(Expects(e))[if e.TakeDocsRouter? then 2 else 0] == Yields(e);
    }
  }

  /**
   * For any calls in any order, at any time: every component is in exactly one of the slot,
   * the caller's hands or the dropped ones, and no extractor hands out the wrong kind.
   */
  lemma {:induction false} ExtractionConserves(s: Slot, calls: seq<Call>)
    requires forall h <- s.handed :: h.part.kind == Yields(h.via)
    ensures Everything(ExtractAll(s, calls)) == Everything(s)
    ensures forall h <- ExtractAll(s, calls).handed :: h.part.kind == Yields(h.via)
    decreases |calls|
  {
    if calls != [] {
      ExtractKeepsKinds(s, calls[0].ready, calls[0].e);
      ExtractConserves(s, calls[0].ready, calls[0].e);
      ExtractionConserves(Extract(s, calls[0].ready, calls[0].e), calls[1..]);
    }
  }

  // ---------------------------------------------------------------- the documented order

  /** The order the documentation asks for, from each stage on. */
  function Documented(ty: BoxType): seq<Extractor> {
    match ty
    case BiStream => [TakeSend, TakeRecv]
    case OneRecv => [TakeRecv]
    case GossipWithRouter => [TakeGossip, TakeRouter]
    case OneRouter => [TakeRouter]
    case BlobsWithRouter => [TakeStore, TakeBlobs, TakeRouter]
    case BlobsPair => [TakeBlobs, TakeRouter]
    case DocsWithRouter => [TakeDocs, TakeDocsStore, TakeDocsRouter]
    case DocsQuad => [TakeDocsStore, TakeDocsRouter]
    case DocsTriple => [TakeDocsRouter]
  }

  function Order(c: Option<Box>): seq<Extractor> { if c.None? then [] else Documented(c.value.ty) }

  /** The components that order hands out: all but a docs result's blobs and gossip handles. */
  function Promised(c: Option<Box>): seq<Part> {
    if c.None? then []
    else
      var p := c.value.parts;
      match c.value.ty
      case DocsWithRouter => [p[0], p[1], p[4]]
      case DocsQuad => [p[0], p[3]]
      case DocsTriple => [p[2]]
      case _ => p
  }

  /** How many leading calls follow the documented order. */
  function Matched(calls: seq<Extractor>, order: seq<Extractor>): (n: nat)
    ensures n <= |order| && n <= |calls|
    decreases |calls|
  {
    if calls == [] || order == [] || calls[0] != order[0] then 0 else 1 + Matched(calls[1..], order[1..])
  }

  function Ready(calls: seq<Extractor>): seq<Call> {
    seq(|calls|, i requires 0 <= i < |calls| => Call(true, calls[i]))
  }

  /** The documented order starts with the one extractor for this type and goes on with what it puts back. */
  lemma OrderUnfolds(ty: BoxType, e: Extractor)
    ensures Documented(ty) != [] && (e == Documented(ty)[0] <==> Expects(e) == ty)
    ensures Expects(e) == ty ==> Documented(ty)[1..] == if PutsBack(e).Some? then Documented(PutsBack(e).value) else []
  {
  }

  lemma PromisedUnfolds(b: Box)
    ensures |Promised(Some(b))| == |Documented(b.ty)|
    ensures forall e :: Expects(e) == b.ty && !e.TakeDocsRouter? ==>
              Promised(Some(b)) == [b.parts[0]] + Promised(Rest(e, b))
    ensures b.ty.DocsTriple? ==> Promised(Some(b)) == [b.parts[2]]
  {
  }

  lemma ExtractOne(s: Slot, e: Extractor)
    ensures var d := Order(s.content);
            var t := Extract(s, true, e);
            && |d| == |Promised(s.content)|
            && if d != [] && e == d[0] then
                 && Order(t.content) == d[1..] && Promised(t.content) == Promised(s.content)[1..]
                 && HandedParts(t.handed) == HandedParts(s.handed) + [Promised(s.content)[0]]
               else t.content.None? && t.handed == s.handed
  {
    if s.content.Some? {
      var b := s.content.value;
      OrderUnfolds(b.ty, e);
      PromisedUnfolds(b);
      if Expects(e) == b.ty {
        var lost, part := ExtractGives(s, true, e);
      }
    }
  }

  lemma OnePlus(before: seq<Part>, p: seq<Part>, m: nat)
    requires p != [] && m < |p|
    ensures before + [p[0]] + p[1..][..m] == before + p[..m + 1]
  {
  }

  /**
   * On a completed handle, any sequence of calls hands out exactly the components of the
   * longest prefix that follows the documented order; the first call out of order loses the rest.
   */
  lemma {:induction false} ExtractionFollowsOrder(s: Slot, calls: seq<Extractor>)
    ensures |Order(s.content)| == |Promised(s.content)|
    ensures HandedParts(ExtractAll(s, Ready(calls)).handed) ==
            HandedParts(s.handed) + Promised(s.content)[..Matched(calls, Order(s.content))]
    decreases |calls|
  {
    if calls == [] {
      ExtractOne(s, TakeSend);
    } else {
      ExtractOne(s, calls[0]);
      var t := Extract(s, true, calls[0]);
      assert Ready(calls)[1..] == Ready(calls[1..]);
      ExtractionFollowsOrder(t, calls[1..]);
      var d := Order(s.content);
      if d != [] && calls[0] == d[0] {
        OnePlus(HandedParts(s.handed), Promised(s.content), Matched(calls[1..], d[1..]));
      }
    }
  }

  /** The documented order itself hands out every component it promises, once. */
  lemma DocumentedOrderCompletes(b: Box)
    ensures HandedParts(ExtractAll(Slot(Some(b), [], []), Ready(Documented(b.ty))).handed) == Promised(Some(b))
  {
    ExtractionFollowsOrder(Slot(Some(b), [], []), Documented(b.ty));
    MatchedSelf(Documented(b.ty));
  }

  lemma {:induction false} MatchedSelf(d: seq<Extractor>)
    ensures Matched(d, d) == |d|
  {
    if d != [] { MatchedSelf(d[1..]); }
  }

  /** The calls that look at the slot: all but first-stage calls made before the state is Ready. */
  function Effective(calls: seq<Call>): seq<Extractor> {
    if calls == [] then []
    else (if ChecksReady(calls[0].e) && !calls[0].ready then [] else [calls[0].e]) + Effective(calls[1..])
  }

  lemma {:induction false} EarlyCallsAreHarmless(s: Slot, calls: seq<Call>)
    ensures ExtractAll(s, calls) == ExtractAll(s, Ready(Effective(calls)))
    decreases |calls|
  {
    if calls != [] {
      var c := calls[0];
      EarlyCallsAreHarmless(Extract(s, c.ready, c.e), calls[1..]);
      if ChecksReady(c.e) && !c.ready {
        assert Effective(calls) == Effective(calls[1..]);
      } else {
        assert Ready(Effective(calls))[1..] == Ready(Effective(calls[1..]));
      }
    }
  }

  /** The same at any time: calls that come too early for their extractor change nothing. */
  lemma ExtractionFollowsOrderAlways(s: Slot, calls: seq<Call>)
    ensures |Order(s.content)| == |Promised(s.content)|
    ensures HandedParts(ExtractAll(s, calls).handed) ==
            HandedParts(s.handed) + Promised(s.content)[..Matched(Effective(calls), Order(s.content))]
  {
    EarlyCallsAreHarmless(s, calls);
    ExtractionFollowsOrder(s, Effective(calls));
  }

  // ---------------------------------------------------------------- the slot object

  class ResultCell {
    var isReady: bool                     // the handle's state is Ready
    var content: Option<Box>
    ghost var handed: seq<Handed>
    ghost var dropped: seq<Part>

    ghost function View(): Slot
      reads this
    {
      Slot(content, handed, dropped)
    }

    /** The common shape of the extractors: take, test the type, put the rest back. */
    method TakePart(e: Extractor) returns (part: Option<Part>)
      modifies this
      ensures View() == Extract(old(View()), isReady, e) && isReady == old(isReady)
      ensures part.Some? <==> |handed| == |old(handed)| + 1
      ensures part.Some? ==> handed == old(handed) + [Handed(e, part.value)]
    {
      part := None;
      if ChecksReady(e) && !isReady { return; }
      var taken := content;
      content := None;
      if taken.None? { return; }
      var b := taken.value;
      if b.ty != Expects(e) {
        dropped := dropped + b.parts;
        return;
      }
      if e.TakeDocsRouter? {
        part := Some(b.parts[2]);
        dropped := dropped + b.parts[..2];
      } else {
        part := Some(b.parts[0]);
        content := Rest(e, b);
      }
      handed := handed + [Handed(e, part.value)];
    }
  }
}
