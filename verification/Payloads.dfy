/** The two texts a quorum member signs, and why they can be told apart and read back. */
module Payloads {
  import opened Text
  import opened Structures

  const ARP_TAG: string := "ANCHOR_ROTATION_PROOF"

  /** epoch:creator:index, the key of a block and of its certificate. */
  function BlockId(epoch: int, creator: string, index: int): string {
    Itoa(epoch) + ":" + creator + ":" + Itoa(index)
  }

  function FpPayload(prev: string, blockId: string, hash: string, epoch: int): string {
    prev + ":" + blockId + ":" + hash + ":" + Itoa(epoch)
  }

  function ArpPayload(anchor: string, index: int, hash: string, epoch: int): string {
    ARP_TAG + ":" + anchor + ":" + Itoa(index) + ":" + hash + ":" + Itoa(epoch)
  }

  function AfpPayload(afp: Afp, epoch: int): string {
    FpPayload(afp.prevBlockHash, afp.blockId, afp.blockHash, epoch)
  }

  /** What a node has signed for others. `block` is history, the block voted for; it is not
      part of the payload. */
  datatype Statement =
    | Fp(prev: string, epoch: int, creator: string, index: int, hash: string, block: Block)
    | Arp(epoch: int, creator: string, index: int, hash: string)

  function Payload(v: Statement): string {
    match v
    case Fp(prev, epoch, creator, index, hash, _) => FpPayload(prev, BlockId(epoch, creator, index), hash, epoch)
    case Arp(epoch, creator, index, hash) => ArpPayload(creator, index, hash, epoch)
  }

  lemma BlockIdParts(epoch: int, creator: string, index: int)
    requires ColonFree(creator)
    ensures Split(BlockId(epoch, creator, index)) == [Itoa(epoch), creator, Itoa(index)]
  {
    SplitConcat(Itoa(epoch) + ":" + creator, Itoa(index));
    SplitConcat(Itoa(epoch), creator);
    ItoaColonFree(epoch);
    ItoaColonFree(index);
    SplitColonFree(Itoa(epoch));
    SplitColonFree(creator);
    SplitColonFree(Itoa(index));
  }

  /** Building a block id and splitting it again gives the three fields back. */
  lemma BlockIdRoundTrip(epoch: int, creator: string, index: int)
    requires ColonFree(creator)
    requires MIN_INT64 <= epoch <= MAX_INT64 && MIN_INT64 <= index <= MAX_INT64
    ensures var parts := Split(BlockId(epoch, creator, index));
            |parts| == 3 && Atoi(parts[0]) == Some(epoch) && parts[1] == creator && Atoi(parts[2]) == Some(index)
  {
    BlockIdParts(epoch, creator, index);
    AtoiOfItoa(epoch);
    AtoiOfItoa(index);
  }

  lemma BlockIdInjective(e: int, c: string, i: int, e': int, c': string, i': int)
    requires ColonFree(c) && ColonFree(c')
    requires BlockId(e, c, i) == BlockId(e', c', i')
    ensures e == e' && c == c' && i == i'
  {
    BlockIdParts(e, c, i);
    BlockIdParts(e', c', i');
    ItoaInjective(e, e');
    ItoaInjective(i, i');
  }

  /** A block id over a ':'-free key is no other slot's id, whatever that slot's key contains. */
  lemma BlockIdFixed(e: int, c: string, i: int, e': int, c': string, i': int)
    requires ColonFree(c)
    ensures BlockId(e, c, i) == BlockId(e', c', i') <==> e == e' && c == c' && i == i'
  {
    if BlockId(e, c, i) == BlockId(e', c', i') {
      BlockIdParts(e, c, i);
      SplitConcat(Itoa(e') + ":" + c', Itoa(i'));
      SplitConcat(Itoa(e'), c');
      OnePartIsColonFree(c');
      BlockIdInjective(e, c, i, e', c', i');
    }
  }

  lemma FpParts(prev: string, blockId: string, hash: string, epoch: int)
    ensures Split(FpPayload(prev, blockId, hash, epoch)) == Split(prev) + Split(blockId) + Split(hash) + [Itoa(epoch)]
  {
    SplitConcat(prev + ":" + blockId + ":" + hash, Itoa(epoch));
    SplitConcat(prev + ":" + blockId, hash);
    SplitConcat(prev, blockId);
    ItoaColonFree(epoch);
    SplitColonFree(Itoa(epoch));
  }

  lemma FiveParts(tag: string, anchor: string, index: string, hash: string, epoch: string)
    ensures Split(tag + ":" + anchor + ":" + index + ":" + hash + ":" + epoch)
         == Split(tag) + Split(anchor) + Split(index) + Split(hash) + Split(epoch)
  {
    SplitConcat(tag + ":" + anchor + ":" + index + ":" + hash, epoch);
    SplitConcat(tag + ":" + anchor + ":" + index, hash);
    SplitConcat(tag + ":" + anchor, index);
    SplitConcat(tag, anchor);
  }

  lemma TaggedParts(tag: string, anchor: string, index: int, hash: string, epoch: int)
    requires ColonFree(tag) && ColonFree(anchor)
    ensures Split(tag + ":" + anchor + ":" + Itoa(index) + ":" + hash + ":" + Itoa(epoch))
         == [tag, anchor, Itoa(index)] + Split(hash) + [Itoa(epoch)]
  {
    FiveParts(tag, anchor, Itoa(index), hash, Itoa(epoch));
    ItoaColonFree(epoch);
    ItoaColonFree(index);
    SplitColonFree(Itoa(epoch));
    SplitColonFree(Itoa(index));
    SplitColonFree(anchor);
    SplitColonFree(tag);
  }

  lemma ArpParts(anchor: string, index: int, hash: string, epoch: int)
    requires ColonFree(anchor)
    ensures Split(ArpPayload(anchor, index, hash, epoch)) ==
        [ARP_TAG, anchor, Itoa(index)] + Split(hash) + [Itoa(epoch)]
  {
    TagIsColonFree();
    TaggedParts(ARP_TAG, anchor, index, hash, epoch);
  }

  lemma TagIsColonFree()
    ensures ColonFree(ARP_TAG) && !HexText(ARP_TAG)
  {
    assert ARP_TAG[0] == 'A';
  }

  /** A finalization payload over a three-part id has one reading, even when the claimed
      hashes p and h are arbitrary texts, once the signed original used ':'-free hashes. */
  lemma FpDecodes(p: string, e: int, c: string, i: int, h: string, f: int,
                  prev: string, e': int, c': string, i': int, hash: string, f': int)
    requires ColonFree(c) && ColonFree(c') && ColonFree(prev) && ColonFree(hash)
    requires FpPayload(p, BlockId(e, c, i), h, f) == FpPayload(prev, BlockId(e', c', i'), hash, f')
    ensures p == prev && e == e' && c == c' && i == i' && h == hash && f == f'
  {
    FpParts(p, BlockId(e, c, i), h, f);
    FpParts(prev, BlockId(e', c', i'), hash, f');
    BlockIdParts(e, c, i);
    BlockIdParts(e', c', i');
    SplitColonFree(prev);
    SplitColonFree(hash);
    var parts := Split(p) + [Itoa(e), c, Itoa(i)] + Split(h) + [Itoa(f)];
    assert parts == [prev] + [Itoa(e'), c', Itoa(i')] + [hash] + [Itoa(f')];
    assert |Split(p)| == 1 && |Split(h)| == 1;
    assert parts[0] == Split(p)[0] && parts[4] == Split(h)[0];
    assert Split(p) == [prev] && Split(h) == [hash];
    SplitInjective(p, prev);
    SplitInjective(h, hash);
    assert parts[1] == Itoa(e) && parts[2] == c && parts[3] == Itoa(i) && parts[5] == Itoa(f);
    ItoaInjective(e, e');
    ItoaInjective(i, i');
    ItoaInjective(f, f');
  }

  /** A rotation payload determines all its fields, the hash being any text at all. */
  lemma ArpDecodes(c: string, i: int, h: string, e: int, c': string, i': int, h': string, e': int)
    requires ColonFree(c) && ColonFree(c')
    requires ArpPayload(c, i, h, e) == ArpPayload(c', i', h', e')
    ensures c == c' && i == i' && h == h' && e == e'
  {
    ArpParts(c, i, h, e);
    ArpParts(c', i', h', e');
    var parts := Split(ArpPayload(c, i, h, e));
    var n := |parts|;
    assert parts[1] == c && parts[1] == c' && parts[2] == Itoa(i) && parts[2] == Itoa(i');
    assert parts[n - 1] == Itoa(e) && parts[n - 1] == Itoa(e');
    assert parts[3..n - 1] == Split(h) && parts[3..n - 1] == Split(h');
    SplitInjective(h, h');
    ItoaInjective(i, i');
    ItoaInjective(e, e');
  }

  lemma Regroup(tag: string, c: string, i: string, h: string, e: string)
    ensures tag + ":" + c + ":" + i + ":" + h + ":" + e == tag + ":" + (c + ":" + i) + ":" + h + ":" + e
  {
    assert tag + ":" + c + ":" + i == tag + ":" + (c + ":" + i);
  }

  /** No finalization payload whose first field is a hash is a rotation payload. */
  lemma FpIsNotArp(prev: string, blockId: string, hash: string, f: int, c: string, i: int, h: string, e: int)
    requires HexText(prev)
    ensures FpPayload(prev, blockId, hash, f) != ArpPayload(c, i, h, e)
  {
    if FpPayload(prev, blockId, hash, f) == ArpPayload(c, i, h, e) {
      TagIsColonFree();
      Regroup(ARP_TAG, c, Itoa(i), h, Itoa(e));
      SameFirstField(prev, blockId, hash, Itoa(f), ARP_TAG, c + ":" + Itoa(i), h, Itoa(e));
      assert false;
    }
  }

  lemma SameFirstField(p: string, a: string, b: string, c: string, p': string, a': string, b': string, c': string)
    requires ColonFree(p) && ColonFree(p')
    requires p + ":" + a + ":" + b + ":" + c == p' + ":" + a' + ":" + b' + ":" + c'
    ensures p == p'
  {
    var s, t := a + ":" + b + ":" + c, a' + ":" + b' + ":" + c';
    assert p + ":" + a + ":" + b + ":" + c == p + [':'] + s;
    assert p' + ":" + a' + ":" + b' + ":" + c' == p' + [':'] + t;
    PeelLeft(':', p, s, p', t);
  }

  /** A finalization text with a ':'-free first field over a real id is no rotation text of a
      creator whose key is not a numeral. */
  lemma ColonFreePrevIsNotArp(p: string, e: int, c: string, i: int, h: string, a: string, k: int, x: string, f: int)
    requires ColonFree(p) && ColonFree(c) && ColonFree(a) && !Numeral(a)
    ensures FpPayload(p, BlockId(e, c, i), h, e) != ArpPayload(a, k, x, f)
  {
    FpParts(p, BlockId(e, c, i), h, e);
    BlockIdParts(e, c, i);
    SplitColonFree(p);
    ArpParts(a, k, x, f);
    assert Split(FpPayload(p, BlockId(e, c, i), h, e))[1] == Itoa(e);
    assert Split(ArpPayload(a, k, x, f))[1] == a;
  }

  /** The first field of a finalization payload is fixed, however its id is shaped. */
  lemma FpFirstField(p: string, id: string, h: string, f: int, p': string, id': string, h': string, f': int)
    requires ColonFree(p) && ColonFree(p')
    requires FpPayload(p, id, h, f) == FpPayload(p', id', h', f')
    ensures p == p'
  {
    SameFirstField(p, id, h, Itoa(f), p', id', h', Itoa(f'));
  }

  /** A payload always holds a ':', so it is never a block hash. */
  lemma PayloadIsNoHash(v: Statement, hash: string)
    requires HexText(hash)
    ensures Payload(v) != hash
  {
    match v
    case Fp(prev, epoch, creator, index, h, _) =>
      assert Payload(v)[|prev|] == ':';
    case Arp(epoch, creator, index, h) =>
      assert Payload(v)[|ARP_TAG|] == ':';
  }

  // ---- Reading the end of a signed text: "...:creator:index:hash" before the epoch ----

  ghost predicate Numeral(s: string) { exists n :: s == Itoa(n) }

  function Front(parts: seq<string>): seq<string>
    requires parts != []
  {
    parts[..|parts| - 1]
  }

  /** parts end with c, z and then the parts of h. */
  predicate Ends(parts: seq<string>, c: string, z: string, h: string) {
    var t := Split(h);
    |parts| >= |t| + 2 && parts[|parts| - |t| - 2..] == [c, z] + t
  }

  /** Same, with at least two parts in front. */
  predicate EndsDeep(parts: seq<string>, c: string, z: string, h: string) {
    Ends(parts, c, z, h) && |parts| >= |Split(h)| + 4
  }

  lemma EndsExtends(front: seq<string>, parts: seq<string>, c: string, z: string, h: string)
    requires Ends(parts, c, z, h)
    ensures Ends(front + parts, c, z, h)
    ensures |front| >= 2 ==> EndsDeep(front + parts, c, z, h)
  {
    var t := Split(h);
    var n := |parts| - |t| - 2;
    assert (front + parts)[|front| + n..] == parts[n..];
  }

  lemma FpFront(prev: string, blockId: string, hash: string, epoch: int)
    ensures Front(Split(FpPayload(prev, blockId, hash, epoch))) == Split(prev) + Split(blockId) + Split(hash)
    ensures Split(FpPayload(prev, blockId, hash, epoch))[|Split(FpPayload(prev, blockId, hash, epoch))| - 1] ==
        Itoa(epoch)
  {
    FpParts(prev, blockId, hash, epoch);
  }

  /** What a certificate's hash ends with, the whole signed text ends with. */
  lemma HashEndsText(p: string, id: string, hash: string, epoch: int, c: string, z: string, h: string)
    requires Ends(Split(hash), c, z, h)
    ensures EndsDeep(Front(Split(FpPayload(p, id, hash, epoch))), c, z, h)
  {
    FpFront(p, id, hash, epoch);
    EndsExtends(Split(p) + Split(id), Split(hash), c, z, h);
  }

  lemma IdEndsText(p: string, id: string, hash: string, epoch: int)
    requires |Split(id)| == 3
    ensures EndsDeep(Front(Split(FpPayload(p, id, hash, epoch))), Split(id)[1], Split(id)[2], hash)
  {
    FpFront(p, id, hash, epoch);
    var x := Split(id);
    assert Split(p) + x + Split(hash) == (Split(p) + [x[0]]) + ([x[1], x[2]] + Split(hash));
    assert Ends([x[1], x[2]] + Split(hash), x[1], x[2], hash);
    EndsExtends(Split(p) + [x[0]], [x[1], x[2]] + Split(hash), x[1], x[2], hash);
  }

  /** A finalization payload over ':'-free fields ends, deep enough, only with its own vote. */
  lemma FpEndsWithItsVote(prev: string, e: int, creator: string, i: int, hash: string, c: string, z: string, h: string)
    requires ColonFree(prev) && ColonFree(creator) && ColonFree(hash)
    requires EndsDeep(Front(Split(FpPayload(prev, BlockId(e, creator, i), hash, e))), c, z, h)
    ensures c == creator && z == Itoa(i) && h == hash
  {
    FpFront(prev, BlockId(e, creator, i), hash, e);
    BlockIdParts(e, creator, i);
    SplitColonFree(prev);
    SplitColonFree(hash);
    var parts := [prev] + [Itoa(e), creator, Itoa(i)] + [hash];
    assert |Split(h)| == 1;
    assert parts[2..] == [c, z] + Split(h);
    assert parts[4] == parts[2..][2] == Split(h)[0];
    assert Split(h) == [hash];
    SplitInjective(h, hash);
    assert parts[2] == c && parts[3] == z;
  }

  /** A rotation payload that ends with somebody's vote carries that ending inside its hash. */
  lemma ArpEndsInHash(a: string, k: int, x: string, e: int, c: string, z: string, h: string)
    requires ColonFree(a) && !Numeral(c)
    requires EndsDeep(Front(Split(ArpPayload(a, k, x, e))), c, z, h)
    ensures Ends(Split(x), c, z, h)
  {
    ArpParts(a, k, x, e);
    var t, u := Split(h), Split(x);
    var parts := [ARP_TAG, a, Itoa(k)] + u;
    assert Front(Split(ArpPayload(a, k, x, e))) == parts;
    var n := |parts| - |t| - 2;
    assert n >= 2 && parts[n..][0] == c;
    assert parts[2] == Itoa(k);
    assert Numeral(Itoa(k));
    assert parts[n..] == u[n - 3..];
  }
}
