/** A creator's two concurrent loops over one epoch: generateBlock appends blocks, and
    runFinalizationProofsGrabbing collects certificates for them. Every event is one critical
    section or one durable write; a crash may fall between any two. */
module Maker {
  import opened Text
  import opened Structures
  import opened Payloads
  import opened Certificates
  import opened Voter

  datatype GenMeta = GenMeta(prevHash: string, nextIndex: int)

  datatype Grabber = Grabber(acceptedIndex: int, acceptedHash: string, afpForPrevious: Afp)

  datatype Generator = GenIdle | GenRead(accepted: int) | GenBuilt(block: Block) | GenBumped(block: Block)

  datatype Hunter =
    | HuntIdle | Hunting(from: Grabber, block: Block, proofs: map<string, string>)
    | AfpStored(afp: Afp) | Advanced

  /** `chain` is history: the blocks durably written, in order. `gt` and `saved` are durable
      snapshots; the rest is memory, lost in a crash. */
  datatype Maker = Maker(
    chain: seq<Block>, gt: GenMeta, saved: Grabber,
    meta: GenMeta, grabber: Grabber, pointer: Option<Block>, cache: map<string, string>,
    gen: Generator, hunt: Hunter)

  const GENESIS_META: GenMeta := GenMeta(INIT_HASH, 0)
  const GENESIS_GRABBER: Grabber := Grabber(-1, INIT_HASH, EMPTY_AFP)

  const FRESH: Maker := Maker([], GENESIS_META, GENESIS_GRABBER, GENESIS_META, GENESIS_GRABBER, None, map[], GenIdle,
                              HuntIdle)

  datatype Event =
    | ReadAccepted | Build(time: int, extra: ExtraData, sig: string) | Bump | Write
    | Start | Collect(responses: map<string, string>) | Certify | Advance | Persist | GiveUp
    | Crash

  function NewBlock(w: World, ep: Epoch, me: string, meta: GenMeta, time: int, extra: ExtraData, sig: string): Block {
    Block(me, time, FullId(ep), extra, meta.nextIndex, meta.prevHash, sig)
  }

  function HuntedSlot(ep: Epoch, me: string, m: Maker): Slot { Slot(ep.id, me, m.grabber.acceptedIndex + 1) }

  predicate PointerHits(m: Maker) {
    m.pointer.Some? && m.pointer.value.index == m.grabber.acceptedIndex + 1
  }

  /** The certificate a hunt would produce from these proofs. */
  function HuntAfp(w: World, ep: Epoch, me: string, h: Hunter): Afp
    requires h.Hunting?
  {
    Afp(h.from.acceptedHash, BlockId(ep.id, me, h.from.acceptedIndex + 1), GetHash(w, h.block), h.proofs)
  }

  /** The check each finalization reply passes before it is counted (voter and signature). */
  predicate ReplyOk(w: World, ep: Epoch, payload: string, voter: string, sig: string) {
    voter in ep.quorum && w.verify(payload, voter, sig)
  }

  predicate Can(w: World, ep: Epoch, me: string, n: Node, m: Maker, ev: Event) {
    match ev
    case ReadAccepted => m.gen.GenIdle?
    case Build(_, _, _) => m.gen.GenRead?
    case Bump => m.gen.GenBuilt?
    case Write => m.gen.GenBumped?
    case Start => m.hunt.HuntIdle? && (PointerHits(m) || HuntedSlot(ep, me, m) in n.blocks)
    case Collect(responses) =>
      && m.hunt.Hunting? && |m.hunt.proofs| < Majority(|ep.quorum|)
      && forall v :: v in responses ==> ReplyOk(w, ep, AfpPayload(HuntAfp(w, ep, me, m.hunt), ep.id), v, responses[v])
    case Certify => m.hunt.Hunting? && |m.hunt.proofs| >= Majority(|ep.quorum|)
    case Advance => m.hunt.AfpStored?
    case Persist => m.hunt.Advanced?
    case GiveUp => m.hunt.Hunting?
    case Crash => true
  }

  function AfterBuild(w: World, ep: Epoch, me: string, m: Maker, time: int, extra: ExtraData, sig: string): Maker
    requires m.gen.GenRead?
  {
    if m.meta.nextIndex <= m.gen.accepted + 1 then m.(gen := GenBuilt(NewBlock(w, ep, me, m.meta, time, extra, sig)))
    else m.(gen := GenIdle)
  }

  function AfterBump(w: World, m: Maker): Maker
    requires m.gen.GenBuilt?
  {
    m.(meta := GenMeta(GetHash(w, m.gen.block), m.meta.nextIndex + 1), gen := GenBumped(m.gen.block))
  }

  function AfterWrite(m: Maker): Maker
    requires m.gen.GenBumped?
  {
    m.(chain := m.chain + [m.gen.block], gt := m.meta, gen := GenIdle)
  }

  function PutBlock(n: Node, slot: Slot, b: Block): Node { n.(blocks := n.blocks[slot := b]) }

  function PutAfp(n: Node, slot: Slot, afp: Afp): Node { n.(afps := n.afps[slot := afp]) }

  function AfterStart(m: Maker, b: Block): Maker { m.(pointer := Some(b), hunt := Hunting(m.grabber, b, m.cache)) }

  function AfterCollect(m: Maker, responses: map<string, string>): Maker
    requires m.hunt.Hunting?
  {
    m.(hunt := Hunting(m.hunt.from, m.hunt.block, m.hunt.proofs + responses), cache := m.hunt.proofs + responses)
  }

  function AfterAdvance(m: Maker): Maker
    requires m.hunt.AfpStored?
  {
    m.(grabber := Grabber(m.grabber.acceptedIndex + 1, m.hunt.afp.blockHash, m.hunt.afp), cache := map[],
       hunt := Advanced)
  }

  function AfterCrash(m: Maker): Maker {
    m.(meta := m.gt, grabber := m.saved, pointer := None, cache := map[], gen := GenIdle, hunt := HuntIdle)
  }

  /** The node's databases and the maker after an event. */
  function Do(w: World, ep: Epoch, me: string, n: Node, m: Maker, ev: Event): (Node, Maker)
    requires Can(w, ep, me, n, m, ev)
  {
    match ev
    case ReadAccepted => (n, m.(gen := GenRead(m.grabber.acceptedIndex)))
    case Build(time, extra, sig) => (n, AfterBuild(w, ep, me, m, time, extra, sig))
    case Bump => (n, AfterBump(w, m))
    case Write => (PutBlock(n, Slot(ep.id, me, m.gen.block.index), m.gen.block), AfterWrite(m))
    case Start => (n, AfterStart(m, if PointerHits(m) then m.pointer.value else n.blocks[HuntedSlot(ep, me, m)]))
    case Collect(responses) => (n, AfterCollect(m, responses))
    case Certify =>
      var afp := HuntAfp(w, ep, me, m.hunt);
      (PutAfp(n, Slot(ep.id, me, m.hunt.from.acceptedIndex + 1), afp), m.(hunt := AfpStored(afp)))
    case Advance => (n, AfterAdvance(m))
    case Persist => (n, m.(saved := m.grabber, hunt := HuntIdle))
    case GiveUp => (n, m.(hunt := HuntIdle))
    case Crash => (n, AfterCrash(m))
  }

  // ---- Invariant ----

  /** The hash a successor of block i must name. */
  function HashAt(w: World, chain: seq<Block>, i: int): string
    requires -1 <= i < |chain|
  {
    if i == -1 then INIT_HASH else GetHash(w, chain[i])
  }

  /** b is the creator's block number i, naming `prev` as its predecessor. */
  predicate IsBlock(ep: Epoch, me: string, i: int, prev: string, b: Block) {
    b.index == i && b.creator == me && b.epoch == FullId(ep) && b.prevHash == prev
  }

  /** One block per index, each naming its predecessor's hash. */
  predicate Linked(w: World, ep: Epoch, me: string, chain: seq<Block>) {
    forall i {:trigger chain[i]} :: 0 <= i < |chain| ==> IsBlock(ep, me, i, HashAt(w, chain, i - 1), chain[i])
  }

  predicate Follows(w: World, ep: Epoch, me: string, chain: seq<Block>, b: Block) {
    IsBlock(ep, me, |chain|, HashAt(w, chain, |chain| - 1), b)
  }

  /** A certificate for own block i; one whose PrevBlockHash is ':'-free also names block i-1. */
  predicate StoredAfpOk(w: World, ep: Epoch, me: string, chain: seq<Block>, i: int, afp: Afp) {
    && 0 <= i < |chain|
    && afp.blockId == BlockId(ep.id, me, i) && AfpOk(w, afp, ep)
    && afp.blockHash == GetHash(w, chain[i])
    && (ColonFree(afp.prevBlockHash) ==> afp.prevBlockHash == chain[i].prevHash)
  }

  predicate GrabberOk(w: World, ep: Epoch, me: string, chain: seq<Block>, g: Grabber) {
    && -1 <= g.acceptedIndex < |chain|
    && g.acceptedHash == HashAt(w, chain, g.acceptedIndex)
    && (g.acceptedIndex >= 0 ==> StoredAfpOk(w, ep, me, chain, g.acceptedIndex, g.afpForPrevious))
  }

  ghost predicate ProofsOk(w: World, ep: Epoch, payload: string, proofs: map<string, string>) {
    forall v :: v in proofs ==> ReplyOk(w, ep, payload, v, proofs[v])
  }

  /** The text quorum members sign for block i of this chain. */
  function VoteText(w: World, ep: Epoch, me: string, chain: seq<Block>, i: int): string
    requires 0 <= i < |chain|
  {
    FpPayload(HashAt(w, chain, i - 1), BlockId(ep.id, me, i), GetHash(w, chain[i]), ep.id)
  }

  predicate StoredBlockOk(w: World, chain: seq<Block>, i: int, b: Block) {
    0 <= i < |chain| && b.index == i && GetHash(w, b) == GetHash(w, chain[i])
  }

  /** The node's databases hold exactly the chain, and only certificates for it. */
  ghost predicate OwnStore(w: World, ep: Epoch, me: string, n: Node, chain: seq<Block>, certified: int) {
    && (forall i {:trigger Slot(ep.id, me, i)} :: Slot(ep.id, me, i) in n.blocks ==>
        StoredBlockOk(w, chain, i, n.blocks[Slot(ep.id, me, i)]))
    && (forall i {:trigger Slot(ep.id, me, i)} :: 0 <= i < |chain| ==> Slot(ep.id, me, i) in n.blocks)
    && (forall i {:trigger Slot(ep.id, me, i)} :: Slot(ep.id, me, i) in n.afps ==>
        StoredAfpOk(w, ep, me, chain, i, n.afps[Slot(ep.id, me, i)]))
    && (forall i {:trigger Slot(ep.id, me, i)} :: 0 <= i <= certified ==> Slot(ep.id, me, i) in n.afps)
  }

  /** AcceptedIndex and NextIndex stay in step; one more slot is possible once a crash has
      rolled the accepted index back. */
  predicate InWindow(n: int, next: int, a: int, saved: int, gen: Generator, hunt: Hunter, crashes: bool) {
    && 0 <= a + 1 <= n
    && next == (if gen.GenBumped? then n + 1 else n)
    && -1 <= saved <= a <= saved + 1 && (hunt.Advanced? || saved == a)
    && next <= saved + 3
    && (!crashes ==> next <= a + 2)
    && (gen.GenRead? ==> gen.accepted <= a)
    && (gen.GenBuilt? ==> next <= a + 1)
    && (hunt.Hunting? || hunt.AfpStored? ==> a + 1 < n)
  }

  ghost predicate GeneratorOk(w: World, ep: Epoch, me: string, chain: seq<Block>, gt: GenMeta, meta: GenMeta,
                              gen: Generator) {
    && gt == GenMeta(HashAt(w, chain, |chain| - 1), |chain|)
    && (gen.GenBuilt? || gen.GenBumped? ==> Follows(w, ep, me, chain, gen.block))
    && meta == (if gen.GenBumped? then GenMeta(GetHash(w, gen.block), |chain| + 1) else gt)
  }

  /** What the hunt for block a + 1 has gathered so far. */
  ghost predicate HuntOk(w: World, ep: Epoch, me: string, chain: seq<Block>, grabber: Grabber, hunt: Hunter)
    requires 0 <= grabber.acceptedIndex + 1
    requires hunt.Hunting? || hunt.AfpStored? ==> grabber.acceptedIndex + 1 < |chain|
  {
    var a := grabber.acceptedIndex;
    match hunt
    case Hunting(from, block, proofs) =>
      from == grabber && StoredBlockOk(w, chain, a + 1, block) &&
          ProofsOk(w, ep, VoteText(w, ep, me, chain, a + 1), proofs)
    case AfpStored(afp) => StoredAfpOk(w, ep, me, chain, a + 1, afp) && afp.prevBlockHash == HashAt(w, chain, a)
    case _ => true
  }

  ghost predicate CacheOk(w: World, ep: Epoch, me: string, chain: seq<Block>, a: int, cache: map<string, string>)
    requires 0 <= a + 1
  {
    cache != map[] ==> a + 1 < |chain| && ProofsOk(w, ep, VoteText(w, ep, me, chain, a + 1), cache)
  }

  predicate PointerOk(w: World, chain: seq<Block>, pointer: Option<Block>) {
    pointer.Some? ==> StoredBlockOk(w, chain, pointer.value.index, pointer.value)
  }

  function CertifiedUpTo(m: Maker): int {
    m.grabber.acceptedIndex + (if m.hunt.AfpStored? then 1 else 0)
  }

  ghost predicate MakerInv(w: World, ep: Epoch, me: string, n: Node, m: Maker, crashes: bool) {
    && Linked(w, ep, me, m.chain)
    && InWindow(|m.chain|, m.meta.nextIndex, m.grabber.acceptedIndex, m.saved.acceptedIndex, m.gen, m.hunt, crashes)
    && GeneratorOk(w, ep, me, m.chain, m.gt, m.meta, m.gen)
    && GrabberOk(w, ep, me, m.chain, m.grabber) && GrabberOk(w, ep, me, m.chain, m.saved)
    && HuntOk(w, ep, me, m.chain, m.grabber, m.hunt)
    && CacheOk(w, ep, me, m.chain, m.grabber.acceptedIndex, m.cache)
    && PointerOk(w, m.chain, m.pointer)
    && OwnStore(w, ep, me, n, m.chain, CertifiedUpTo(m))
  }

  lemma FreshMaker(w: World, ep: Epoch, me: string, n: Node, crashes: bool)
    requires n.blocks == map[] && n.afps == map[]
    ensures MakerInv(w, ep, me, n, FRESH, crashes)
  {
    hide GetHash, AfpOk, FpPayload, BlockId, ColonFree, FullId;
  }

  /** Facts about a chain survive its growth. */
  lemma ChainGrows(w: World, ep: Epoch, me: string, chain: seq<Block>, b: Block)
    requires Linked(w, ep, me, chain) && Follows(w, ep, me, chain, b)
    ensures Linked(w, ep, me, chain + [b])
    ensures forall i :: -1 <= i < |chain| ==> HashAt(w, chain + [b], i) == HashAt(w, chain, i)
    ensures forall i :: 0 <= i < |chain| ==> VoteText(w, ep, me, chain + [b], i) == VoteText(w, ep, me, chain, i)
    ensures forall i, afp :: StoredAfpOk(w, ep, me, chain, i, afp) ==> StoredAfpOk(w, ep, me, chain + [b], i, afp)
    ensures forall i, c :: StoredBlockOk(w, chain, i, c) ==> StoredBlockOk(w, chain + [b], i, c)
  {
    hide *;
    LinkedGrows(w, ep, me, chain, b);
    TextsStay(w, ep, me, chain, b);
    StoredGrows(w, ep, me, chain, b);
  }

  lemma LinkedGrows(w: World, ep: Epoch, me: string, chain: seq<Block>, b: Block)
    requires Linked(w, ep, me, chain) && Follows(w, ep, me, chain, b)
    ensures Linked(w, ep, me, chain + [b])
    ensures forall i :: -1 <= i < |chain| ==> HashAt(w, chain + [b], i) == HashAt(w, chain, i)
  {
    hide GetHash, FullId;
  }

  lemma TextsStay(w: World, ep: Epoch, me: string, chain: seq<Block>, b: Block)
    ensures forall i :: 0 <= i < |chain| ==> VoteText(w, ep, me, chain + [b], i) == VoteText(w, ep, me, chain, i)
  {
    hide GetHash, FpPayload, BlockId;
  }

  lemma StoredGrows(w: World, ep: Epoch, me: string, chain: seq<Block>, b: Block)
    ensures forall i, afp :: StoredAfpOk(w, ep, me, chain, i, afp) ==> StoredAfpOk(w, ep, me, chain + [b], i, afp)
    ensures forall i, c :: StoredBlockOk(w, chain, i, c) ==> StoredBlockOk(w, chain + [b], i, c)
  {
    hide GetHash, AfpOk, FpPayload, BlockId, ColonFree, FullId;
  }

  lemma BuildKeepsInv(w: World, ep: Epoch, me: string, n: Node, m: Maker, time: int, extra: ExtraData, sig: string,
                      crashes: bool)
    requires MakerInv(w, ep, me, n, m, crashes) && m.gen.GenRead?
    ensures MakerInv(w, ep, me, n, AfterBuild(w, ep, me, m, time, extra, sig), crashes)
  {
    hide GetHash, FullId, VoteText, OwnStore, GrabberOk, HuntOk, CacheOk, PointerOk, Linked;
  }

  lemma BumpKeepsInv(w: World, ep: Epoch, me: string, n: Node, m: Maker, crashes: bool)
    requires MakerInv(w, ep, me, n, m, crashes) && m.gen.GenBuilt?
    ensures MakerInv(w, ep, me, n, AfterBump(w, m), crashes)
  {
    hide GetHash, FullId, VoteText, OwnStore, GrabberOk, HuntOk, CacheOk, PointerOk, Linked;
  }

  lemma StoreGrows(w: World, ep: Epoch, me: string, n: Node, chain: seq<Block>, certified: int, b: Block)
    requires OwnStore(w, ep, me, n, chain, certified) && Linked(w, ep, me, chain) && Follows(w, ep, me, chain, b)
    ensures OwnStore(w, ep, me, PutBlock(n, Slot(ep.id, me, b.index), b), chain + [b], certified)
  {
    hide GetHash, AfpOk, BlockId, ColonFree, FullId, StoredAfpOk, VoteText, HashAt, Linked;
    ChainGrows(w, ep, me, chain, b);
  }

  lemma GrabbingGrows(w: World, ep: Epoch, me: string, chain: seq<Block>, b: Block, grabber: Grabber, saved: Grabber,
                      hunt: Hunter, cache: map<string, string>, pointer: Option<Block>)
    requires Linked(w, ep, me, chain) && Follows(w, ep, me, chain, b)
    requires GrabberOk(w, ep, me, chain, grabber) && GrabberOk(w, ep, me, chain, saved)
    requires hunt.Hunting? || hunt.AfpStored? ==> grabber.acceptedIndex + 1 < |chain|
    requires HuntOk(w, ep, me, chain, grabber, hunt) && CacheOk(w, ep, me, chain, grabber.acceptedIndex, cache)
    requires PointerOk(w, chain, pointer)
    ensures GrabberOk(w, ep, me, chain + [b], grabber) && GrabberOk(w, ep, me, chain + [b], saved)
    ensures HuntOk(w, ep, me, chain + [b], grabber, hunt) &&
        CacheOk(w, ep, me, chain + [b], grabber.acceptedIndex, cache)
    ensures PointerOk(w, chain + [b], pointer)
  {
    hide GetHash, VoteText, StoredAfpOk, StoredBlockOk, ProofsOk, HashAt;
    ChainGrows(w, ep, me, chain, b);
  }

  lemma WriteKeepsInv(w: World, ep: Epoch, me: string, n: Node, m: Maker, crashes: bool)
    requires MakerInv(w, ep, me, n, m, crashes) && m.gen.GenBumped?
    ensures MakerInv(w, ep, me, PutBlock(n, Slot(ep.id, me, m.gen.block.index), m.gen.block), AfterWrite(m), crashes)
  {
    hide GetHash, FullId, VoteText, OwnStore, StoredAfpOk, StoredBlockOk, ProofsOk, HuntOk, CacheOk, GrabberOk,
         PointerOk, Linked;
    var b := m.gen.block;
    ChainGrows(w, ep, me, m.chain, b);
    GrabbingGrows(w, ep, me, m.chain, b, m.grabber, m.saved, m.hunt, m.cache, m.pointer);
    StoreGrows(w, ep, me, n, m.chain, CertifiedUpTo(m), b);
  }

  lemma StartKeepsInv(w: World, ep: Epoch, me: string, n: Node, m: Maker, crashes: bool)
    requires MakerInv(w, ep, me, n, m, crashes) && Can(w, ep, me, n, m, Start)
    ensures MakerInv(w, ep, me, n, Do(w, ep, me, n, m, Start).1, crashes)
  {
    hide GetHash, VoteText, ReplyOk, GrabberOk, GeneratorOk, Linked, StoredAfpOk;
    assert Slot(ep.id, me, m.grabber.acceptedIndex + 1) == HuntedSlot(ep, me, m);
  }

  lemma HuntedText(w: World, ep: Epoch, me: string, m: Maker)
    requires m.hunt.Hunting? && m.hunt.from == m.grabber && -1 <= m.grabber.acceptedIndex < |m.chain| - 1
    requires GrabberOk(w, ep, me, m.chain, m.grabber)
    requires StoredBlockOk(w, m.chain, m.grabber.acceptedIndex + 1, m.hunt.block)
    ensures AfpPayload(HuntAfp(w, ep, me, m.hunt), ep.id) == VoteText(w, ep, me, m.chain, m.grabber.acceptedIndex + 1)
  {
    hide GetHash, BlockId, FpPayload, StoredAfpOk;
  }

  lemma ProofsMerge(w: World, ep: Epoch, payload: string, p: map<string, string>, q: map<string, string>)
    requires ProofsOk(w, ep, payload, p) && ProofsOk(w, ep, payload, q)
    ensures ProofsOk(w, ep, payload, p + q)
  {
    hide ReplyOk;
  }

  lemma CollectedAreChecked(w: World, ep: Epoch, me: string, n: Node, m: Maker, responses: map<string, string>)
    requires Can(w, ep, me, n, m, Collect(responses))
    ensures m.hunt.Hunting? && ProofsOk(w, ep, AfpPayload(HuntAfp(w, ep, me, m.hunt), ep.id), responses)
  {
    hide ReplyOk, AfpPayload, HuntAfp, Majority;
  }

  /** Cached proofs always belong to the block being hunted. */
  lemma CollectKeepsInv(w: World, ep: Epoch, me: string, n: Node, m: Maker, responses: map<string, string>,
                        crashes: bool)
    requires MakerInv(w, ep, me, n, m, crashes) && m.hunt.Hunting?
    requires ProofsOk(w, ep, AfpPayload(HuntAfp(w, ep, me, m.hunt), ep.id), responses)
    ensures MakerInv(w, ep, me, n, AfterCollect(m, responses), crashes)
  {
    hide GetHash, VoteText, ReplyOk, GeneratorOk, Linked, StoredAfpOk, OwnStore, PointerOk, HuntAfp, AfpPayload,
         FpPayload, ProofsOk;
    HuntedText(w, ep, me, m);
    ProofsMerge(w, ep, VoteText(w, ep, me, m.chain, m.grabber.acceptedIndex + 1), m.hunt.proofs, responses);
  }

  /** Every certificate the grabber stores passes the verifier. */
  lemma HuntCertifies(w: World, ep: Epoch, me: string, m: Maker)
    requires m.hunt.Hunting? && m.hunt.from == m.grabber && -1 <= m.grabber.acceptedIndex < |m.chain| - 1
    requires GrabberOk(w, ep, me, m.chain, m.grabber) && Linked(w, ep, me, m.chain)
    requires StoredBlockOk(w, m.chain, m.grabber.acceptedIndex + 1, m.hunt.block)
    requires ProofsOk(w, ep, VoteText(w, ep, me, m.chain, m.grabber.acceptedIndex + 1), m.hunt.proofs)
    requires |m.hunt.proofs| >= Majority(|ep.quorum|)
    ensures StoredAfpOk(w, ep, me, m.chain, m.grabber.acceptedIndex + 1, HuntAfp(w, ep, me, m.hunt))
    ensures HuntAfp(w, ep, me, m.hunt).prevBlockHash == HashAt(w, m.chain, m.grabber.acceptedIndex)
  {
    hide GetHash, BlockId, FpPayload, AfpPayload, VoteText, AfpOk, FullId;
    HuntedText(w, ep, me, m);
    var afp := HuntAfp(w, ep, me, m.hunt);
    assert forall v :: v in afp.proofs ==> ReplyOk(w, ep, AfpPayload(afp, ep.id), v, afp.proofs[v]);
    CheckedProofsCertify(w, afp, ep);
    assert m.chain[m.grabber.acceptedIndex + 1].prevHash == HashAt(w, m.chain, m.grabber.acceptedIndex);
  }

  lemma CertifyKeepsInv(w: World, ep: Epoch, me: string, n: Node, m: Maker, crashes: bool)
    requires MakerInv(w, ep, me, n, m, crashes) && Can(w, ep, me, n, m, Certify)
    ensures var r := Do(w, ep, me, n, m, Certify); MakerInv(w, ep, me, r.0, r.1, crashes)
  {
    hide GetHash, VoteText, AfpPayload, GeneratorOk, StoredBlockOk, PointerOk, HuntAfp, GrabberOk, ProofsOk,
         StoredAfpOk, Linked;
    HuntCertifies(w, ep, me, m);
  }

  lemma AdvanceKeepsInv(w: World, ep: Epoch, me: string, n: Node, m: Maker, crashes: bool)
    requires MakerInv(w, ep, me, n, m, crashes) && m.hunt.AfpStored?
    ensures MakerInv(w, ep, me, n, AfterAdvance(m), crashes)
  {
    hide GetHash, VoteText, GeneratorOk, Linked, OwnStore, PointerOk, AfpOk, ProofsOk;
  }

  lemma RestKeepsInv(w: World, ep: Epoch, me: string, n: Node, m: Maker, ev: Event, crashes: bool)
    requires MakerInv(w, ep, me, n, m, crashes) && Can(w, ep, me, n, m, ev)
    requires ev.ReadAccepted? || ev.Persist? || ev.GiveUp?
    ensures var r := Do(w, ep, me, n, m, ev); MakerInv(w, ep, me, r.0, r.1, crashes)
  {
    hide GetHash, VoteText, Linked, OwnStore, PointerOk, StoredAfpOk, StoredBlockOk, ProofsOk, CacheOk, GrabberOk,
         HashAt, Follows;
  }

  /** A restart from the durable snapshots is a good state again, possibly one slot wider. */
  lemma CrashKeepsInv(w: World, ep: Epoch, me: string, n: Node, m: Maker)
    requires MakerInv(w, ep, me, n, m, true)
    ensures MakerInv(w, ep, me, n, AfterCrash(m), true)
  {
    hide GetHash, VoteText, Linked, StoredAfpOk, StoredBlockOk, ProofsOk, HashAt, Follows;
  }

  /** Every event of either loop, in any order, keeps the invariant. */
  lemma EventKeepsInv(w: World, ep: Epoch, me: string, n: Node, m: Maker, ev: Event, crashes: bool)
    requires MakerInv(w, ep, me, n, m, crashes) && Can(w, ep, me, n, m, ev) && (ev.Crash? ==> crashes)
    ensures var r := Do(w, ep, me, n, m, ev);
            MakerInv(w, ep, me, r.0, r.1, crashes) && m.chain <= r.1.chain
  {
    hide MakerInv, HuntAfp, AfpPayload, ProofsOk;
    match ev
    case ReadAccepted => RestKeepsInv(w, ep, me, n, m, ev, crashes);
    case Build(time, extra, sig) => BuildKeepsInv(w, ep, me, n, m, time, extra, sig, crashes);
    case Bump => BumpKeepsInv(w, ep, me, n, m, crashes);
    case Write => WriteKeepsInv(w, ep, me, n, m, crashes);
    case Start => StartKeepsInv(w, ep, me, n, m, crashes);
    case Collect(responses) =>
      CollectedAreChecked(w, ep, me, n, m, responses);
      CollectKeepsInv(w, ep, me, n, m, responses, crashes);
    case Certify => CertifyKeepsInv(w, ep, me, n, m, crashes);
    case GiveUp => RestKeepsInv(w, ep, me, n, m, ev, crashes);
    case Advance => AdvanceKeepsInv(w, ep, me, n, m, crashes);
    case Persist => RestKeepsInv(w, ep, me, n, m, ev, crashes);
    case Crash => CrashKeepsInv(w, ep, me, n, m);
  }

  /** A write by the voting handler into the creator's own slots that agrees with the chain
      leaves the invariant alone; so does any change elsewhere in the databases. */
  lemma OtherWritesKeepInv(w: World, ep: Epoch, me: string, n: Node, n': Node, m: Maker, crashes: bool)
    requires MakerInv(w, ep, me, n, m, crashes)
    requires OwnStore(w, ep, me, n', m.chain, CertifiedUpTo(m))
    ensures MakerInv(w, ep, me, n', m, crashes)
  {
    hide OwnStore, HuntOk, CacheOk, GrabberOk, GeneratorOk, Linked, PointerOk;
  }
}
