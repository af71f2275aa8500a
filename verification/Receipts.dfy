/** Inclusion receipts: what a receiver sends back once its own block holds a rotation
    certificate, and what the sender checks before it stops sending. */
module Receipts {
  import opened Text
  import opened Structures
  import opened Payloads
  import opened Certificates
  import opened Voter
  import opened Maker
  import opened Network
  import opened Safety
  import opened StoredProofs
  import opened Walk

  datatype Receipt = Receipt(status: string, epochIndex: int, receiver: string, rotated: string,
                             blockId: string, block: Option<Block>, afp: Option<Afp>)

  /** The receiver's databases, under their text keys. */
  datatype ReceiverDb = ReceiverDb(marks: map<Mark, string>, blocks: map<string, Block>, afps: map<string, Afp>)

  function LoadOwnMark(db: ReceiverDb, m: Mark): string { if m in db.marks then db.marks[m] else "" }

  /** buildAarpInclusionReceiptIfAvailable. */
  function BuildReceipt(w: World, window: seq<Epoch>, db: ReceiverDb, e: int, receiver: string,
                        rotated: string): Option<Receipt> {
    var blockId := LoadOwnMark(db, Mark(e, receiver, rotated));
    var ep := FindEpochById(window, e);
    var parts := Split(blockId);
    if e < 0 || receiver == "" || rotated == "" || blockId == "" || ep.None? || |parts| != 3 then None
    else
      var index := Atoi(parts[2]);
      if index.None? || index.value < 0 || blockId !in db.blocks then None
      else
        var block := db.blocks[blockId];
        if block.creator != receiver || !BlockSigned(w, block) ||
            !HasValidAarp(w, block.extra.Aarps(), rotated, ep.value) then None
        else
          var nextBlockId := parts[0] + ":" + parts[1] + ":" + Itoa(Succ64(index.value));
          if nextBlockId !in db.afps then Some(Receipt("PENDING", e, receiver, rotated, blockId, None, None))
          else
            var afp := db.afps[nextBlockId];
            if !AfpOk(w, afp, ep.value) then None
            else Some(Receipt("OK", e, receiver, rotated, blockId, Some(block), Some(afp)))
  }

  /** The sender's checks on one receipt. */
  predicate Accepts(w: World, ep: Epoch, receiver: string, rotated: string, r: Receipt) {
    && r.status == "OK" && r.epochIndex == ep.id
    && r.receiver == receiver && r.rotated == rotated
    && r.blockId != "" && r.block.Some? && r.afp.Some?
    && BlockSigned(w, r.block.value) && r.block.value.creator == receiver
    && AfpOk(w, r.afp.value, ep)
    && r.afp.value.prevBlockHash == GetHash(w, r.block.value)
    && HasValidAarp(w, r.block.value.extra.Aarps(), rotated, ep)
  }

  /** A receipt answers one request only, and only a finished one that names a block answers any. */
  lemma OneRequestOnly(w: World, ep: Epoch, ep': Epoch, receiver: string, receiver': string, rotated: string,
                       rotated': string, r: Receipt)
    requires Accepts(w, ep, receiver, rotated, r) && Accepts(w, ep', receiver', rotated', r)
    ensures ep.id == ep'.id && receiver == receiver' && rotated == rotated'
    ensures r.status != "PENDING" && r.blockId != "" && r.rotated != ""
  {
    hide GetHash, AfpOk, AarpOk, BlockSigned;
    assert "PENDING"[0] != "OK"[0];
  }

  /** The first receipt from `from` on that passes all checks, or the end of the list. */
  function FirstAccepted(w: World, ep: Epoch, receiver: string, rotated: string, receipts: seq<Receipt>,
                         from: nat): (t: nat)
    requires from <= |receipts|
    ensures from <= t <= |receipts|
    decreases |receipts| - from
  {
    if from == |receipts| || Accepts(w, ep, receiver, rotated, receipts[from]) then from
    else FirstAccepted(w, ep, receiver, rotated, receipts, from + 1)
  }

  lemma {:induction false} FirstAcceptedIs(w: World, ep: Epoch, receiver: string, rotated: string,
                                           receipts: seq<Receipt>, from: nat)
    requires from <= |receipts|
    ensures var t := FirstAccepted(w, ep, receiver, rotated, receipts, from);
            && (t < |receipts| ==> Accepts(w, ep, receiver, rotated, receipts[t]))
            && forall u :: from <= u < t ==> !Accepts(w, ep, receiver, rotated, receipts[u])
    decreases |receipts| - from
  {
    hide Accepts;
    if from < |receipts| && !Accepts(w, ep, receiver, rotated, receipts[from]) {
      FirstAcceptedIs(w, ep, receiver, rotated, receipts, from + 1);
    }
  }

  /** The receipt loop of deliverAarpsForEpoch: the block id recorded for the receiver is that of
      the first receipt passing all checks. */
  method RecordInclusion(w: World, ep: Epoch, receiver: string, rotated: string, receipts: seq<Receipt>,
                         marks: map<Mark, string>)
    returns (marks': map<Mark, string>)
    ensures var t := FirstAccepted(w, ep, receiver, rotated, receipts, 0);
            marks' == if t == |receipts| then marks else marks[Mark(ep.id, receiver, rotated) := receipts[t].blockId]
  {
    hide GetHash, AfpOk, AarpOk, HasValidAarp, BlockSigned;
    for u := 0 to |receipts|
      invariant FirstAccepted(w, ep, receiver, rotated, receipts, 0) ==
          FirstAccepted(w, ep, receiver, rotated, receipts, u)
    {
      var r := receipts[u];
      if r.status == "OK" && r.epochIndex == ep.id && r.receiver == receiver && r.rotated == rotated
         && r.blockId != "" && r.block.Some? && r.afp.Some?
      {
        var block, afp := r.block.value, r.afp.value;
        if BlockSigned(w, block) && block.creator == receiver {
          var certified := VerifyAggregatedFinalizationProof(w, afp, ep);
          if certified && afp.prevBlockHash == GetHash(w, block) {
            var included := HasValidAggregatedAnchorRotationProof(w, block.extra.Aarps(), rotated, ep);
            if included {
              return marks[Mark(ep.id, receiver, rotated) := r.blockId];
            }
          }
        }
      }
    }
    return marks;
  }

  // ---- Completeness ----

  /** The block holds a certificate for the rotated anchor that verifies, and is the receiver's own. */
  predicate HoldsFor(w: World, ep: Epoch, receiver: string, rotated: string, b: Block) {
    b.creator == receiver && BlockSigned(w, b) &&
        exists p :: p in b.extra.Aarps() && p.anchor == rotated && AarpOk(w, p, ep)
  }

  lemma HeldMeansValid(w: World, ep: Epoch, proofs: seq<Aarp>, rotated: string)
    requires rotated != ""
    ensures HasValidAarp(w, proofs, rotated, ep) <==> exists p :: p in proofs && p.anchor == rotated && AarpOk(w, p, ep)
  {
    hide AarpOk;
    if p :| p in proofs && p.anchor == rotated && AarpOk(w, p, ep) {
      var i :| 0 <= i < |proofs| && proofs[i] == p;
    }
    if i :| 0 <= i < |proofs| && proofs[i].anchor == rotated && AarpOk(w, proofs[i], ep) {
      assert proofs[i] in proofs;
    }
  }

  /** What a receiver answers from a record that names an own block: nothing unless the block is there and
      holds the certificate; then, without a certificate above it, that it is pending, and with one that
      verifies the block and that certificate. */
  lemma ReceiptIs(w: World, window: seq<Epoch>, db: ReceiverDb, ep: Epoch, e2: int, receiver: string, rotated: string,
                  i: int)
    requires FindEpochById(window, ep.id) == Some(ep) && ep.id >= 0 && receiver != "" && rotated != ""
    requires ColonFree(receiver) && MIN_INT64 <= i <= MAX_INT64
    requires LoadOwnMark(db, Mark(ep.id, receiver, rotated)) == BlockId(e2, receiver, i)
    ensures var r, id, above := BuildReceipt(w, window, db, ep.id, receiver, rotated), BlockId(e2, receiver, i),
                BlockId(e2, receiver, Succ64(i));
            if i < 0 || id !in db.blocks || !HoldsFor(w, ep, receiver, rotated, db.blocks[id]) then r == None
            else if above !in db.afps then r == Some(Receipt("PENDING", ep.id, receiver, rotated, id, None, None))
            else if AfpOk(w, db.afps[above], ep)
            then r == Some(Receipt("OK", ep.id, receiver, rotated, id, Some(db.blocks[id]), Some(db.afps[above])))
            else r == None
  {
    hide GetHash, AfpOk, AarpOk, HasValidAarp, BlockSigned, Atoi, Split;
    BlockIdParts(e2, receiver, i);
    AtoiOfItoa(i);
    assert BlockId(e2, receiver, i) != "";
    assert BlockId(e2, receiver, Succ64(i)) == Itoa(e2) + ":" + receiver + ":" + Itoa(Succ64(i));
    if BlockId(e2, receiver, i) in db.blocks {
      HeldMeansValid(w, ep, db.blocks[BlockId(e2, receiver, i)].extra.Aarps(), rotated);
    }
  }

  /** A finished receipt passes the sender's checks exactly when its certificate names the block's hash. */
  lemma OkReceiptAcceptedIff(w: World, window: seq<Epoch>, db: ReceiverDb, ep: Epoch, receiver: string, rotated: string)
    requires FindEpochById(window, ep.id) == Some(ep)
    requires var r := BuildReceipt(w, window, db, ep.id, receiver, rotated); r.Some? && r.value.status == "OK"
    ensures var r := BuildReceipt(w, window, db, ep.id, receiver, rotated).value;
            && r.block.Some? && r.afp.Some?
            && (Accepts(w, ep, receiver, rotated, r) <==> r.afp.value.prevBlockHash == GetHash(w, r.block.value))
  {
    hide GetHash, AfpOk, HasValidAarp, BlockSigned, Atoi, Split;
    assert "PENDING"[0] != "OK"[0];
  }

  /** Whatever is found under a text key is what the node stores in the slot of that id. */
  ghost predicate Renders(n: Node, db: ReceiverDb) {
    && (forall id :: id in db.blocks ==>
        exists slot: Slot :: HasId(slot, id) && slot in n.blocks && n.blocks[slot] == db.blocks[id])
    && (forall id :: id in db.afps ==>
        exists slot: Slot :: HasId(slot, id) && slot in n.afps && n.afps[slot] == db.afps[id])
  }

  predicate HasId(slot: Slot, id: string) { BlockId(slot.epoch, slot.creator, slot.index) == id }

  lemma RenderedBlock(n: Node, db: ReceiverDb, e: int, c: string, i: int)
    requires Renders(n, db) && ColonFree(c) && BlockId(e, c, i) in db.blocks
    ensures Slot(e, c, i) in n.blocks && n.blocks[Slot(e, c, i)] == db.blocks[BlockId(e, c, i)]
  {
    hide BlockId, ColonFree;
    var id := BlockId(e, c, i);
    var slot: Slot :| HasId(slot, id) && slot in n.blocks && n.blocks[slot] == db.blocks[id];
    BlockIdFixed(e, c, i, slot.epoch, slot.creator, slot.index);
  }

  lemma RenderedAfp(n: Node, db: ReceiverDb, e: int, c: string, i: int)
    requires Renders(n, db) && ColonFree(c) && BlockId(e, c, i) in db.afps
    ensures Slot(e, c, i) in n.afps && n.afps[Slot(e, c, i)] == db.afps[BlockId(e, c, i)]
  {
    hide BlockId, ColonFree;
    var id := BlockId(e, c, i);
    var slot: Slot :| HasId(slot, id) && slot in n.afps && n.afps[slot] == db.afps[id];
    BlockIdFixed(e, c, i, slot.epoch, slot.creator, slot.index);
  }

  /** What a finished receipt for an own record carries: the block of the slot the record names,
      in whatever epoch, and the certificate of the next one. */
  lemma OkReceiptParts(w: World, window: seq<Epoch>, db: ReceiverDb, n: Node, e: int, e2: int, me: string,
                       rotated: string, i: int)
    requires ColonFree(me) && Renders(n, db) && LoadOwnMark(db, Mark(e, me, rotated)) == BlockId(e2, me, i)
    requires var r := BuildReceipt(w, window, db, e, me, rotated); r.Some? && r.value.status == "OK"
    ensures var r := BuildReceipt(w, window, db, e, me, rotated).value;
            && 0 <= i <= MAX_INT64
            && Slot(e2, me, i) in n.blocks && r.block == Some(n.blocks[Slot(e2, me, i)])
            && Slot(e2, me, Succ64(i)) in n.afps && r.afp == Some(n.afps[Slot(e2, me, Succ64(i))])
            && FindEpochById(window, e).Some? && AfpOk(w, r.afp.value, FindEpochById(window, e).value)
  {
    hide GetHash, AfpOk, HasValidAarp, BlockSigned, Atoi, Split, ColonFree, Renders;
    assert "PENDING"[0] != "OK"[0];
    BlockIdParts(e2, me, i);
    AtoiOfItoa(i);
    assert BlockId(e2, me, Succ64(i)) == Itoa(e2) + ":" + me + ":" + Itoa(Succ64(i));
    RenderedBlock(n, db, e2, me, i);
    RenderedAfp(n, db, e2, me, Succ64(i));
  }

  /** An own certificate names the own block below it exactly when its PrevBlockHash is ':'-free. */
  lemma OwnAfpNamesOwnBlock(w: World, ep: Epoch, me: string, n: Node, chain: seq<Block>, certified: int, i: int)
    requires Sound(w) && Linked(w, ep, me, chain) && OwnStore(w, ep, me, n, chain, certified)
    requires Slot(ep.id, me, i) in n.blocks && Slot(ep.id, me, i + 1) in n.afps
    ensures n.afps[Slot(ep.id, me, i + 1)].prevBlockHash == GetHash(w, n.blocks[Slot(ep.id, me, i)])
       <==> ColonFree(n.afps[Slot(ep.id, me, i + 1)].prevBlockHash)
  {
    hide HashInput, AfpOk, BlockId, FullId;
    var b, afp := n.blocks[Slot(ep.id, me, i)], n.afps[Slot(ep.id, me, i + 1)];
    assert StoredBlockOk(w, chain, i, b) && StoredAfpOk(w, ep, me, chain, i + 1, afp);
    assert chain[i + 1].prevHash == HashAt(w, chain, i);
    HashIsHex(w, b);
    HexTextFree(GetHash(w, b), ':');
  }

  /** A certificate over an own block of epoch e2 verifies in no other epoch in which its creator,
      running this code, is registered. */
  lemma OwnAfpFitsOneEpoch(cfg: Config, net: Net, e: int, e2: int, me: string, j: int, afp: Afp)
    requires ConfigOk(cfg) && Inv(cfg, net) && me in cfg.honest
    requires e in cfg.epochs && e2 in cfg.epochs && me in cfg.epochs[e].registry
    requires afp.blockId == BlockId(e2, me, j) && OnChain(cfg, net, me, e2, j, afp.blockHash)
    requires Certified(cfg, net, afp, e)
    ensures e == e2
  {
    hide Inv, ConfigOk, Certified, GenuineAt, GetHash, FullId, BlockId, Sound;
    KeyIsColonFree(cfg, me);
    BlockIdParts(e2, me, j);
    IdGrounded(cfg, net, afp, e);
    var i :| Itoa(j) == Itoa(i) && GenuineAt(cfg, net, e, me, i, afp.blockHash);
    ItoaInjective(i, j);
    CertifiedIsOwn(cfg, net, e, me, j, afp.blockHash);
    OwnBlocksDiffer(cfg, net, e, e2, me, j);
  }

  lemma OwnStored(cfg: Config, net: Net, e: int, me: string, j: int)
    requires ConfigOk(cfg) && Inv(cfg, net) && me in cfg.honest && me in net.nodes && e in cfg.epochs
    requires Slot(e, me, j) in net.nodes[me].afps
    ensures Lane(e, me) in net.makers && 0 <= j < |net.makers[Lane(e, me)].chain|
    ensures net.nodes[me].afps[Slot(e, me, j)].blockId == BlockId(e, me, j)
    ensures net.nodes[me].afps[Slot(e, me, j)].blockHash == GetHash(cfg.w, net.makers[Lane(e, me)].chain[j])
  {
    hide Inv, ConfigOk, GetHash, BlockId, AfpOk, Linked, InWindow, GeneratorOk, GrabberOk, HuntOk, CacheOk, PointerOk;
    OwnMaker(cfg, net, e, me);
    MakerOf(cfg, net, Lane(e, me));
    EpochId(cfg, e);
    var m := net.makers[Lane(e, me)];
    assert StoredAfpOk(cfg.w, cfg.epochs[e], me, m.chain, j, net.nodes[me].afps[Slot(e, me, j)]);
  }

  lemma CertifiedIsOwn(cfg: Config, net: Net, e: int, me: string, j: int, h: string)
    requires ConfigOk(cfg) && Inv(cfg, net) && me in cfg.honest && e in cfg.epochs && me in cfg.epochs[e].registry
    requires GenuineAt(cfg, net, e, me, j, h)
    ensures OnChain(cfg, net, me, e, j, h)
  {
    hide Inv, ConfigOk, GenuineAt, Genuine, GetHash, HexText;
    var g, k, v := AGenuineVote(cfg, net, e, me, j, h);
  }

  /** Blocks of one creator in different epochs have different hashes. */
  lemma OwnBlocksDiffer(cfg: Config, net: Net, e: int, e2: int, me: string, j: int)
    requires ConfigOk(cfg) && Inv(cfg, net) && me in cfg.honest && Lane(e, me) in net.makers &&
        Lane(e2, me) in net.makers
    requires 0 <= j < |net.makers[Lane(e, me)].chain| && j < |net.makers[Lane(e2, me)].chain|
    requires GetHash(cfg.w, net.makers[Lane(e, me)].chain[j]) == GetHash(cfg.w, net.makers[Lane(e2, me)].chain[j])
    ensures e == e2
  {
    hide Inv, GetHash, HashAt, FaultyBound, Numeral, Sound, FullId, HexText;
    MakerChainLinked(cfg, net, Lane(e, me));
    MakerChainLinked(cfg, net, Lane(e2, me));
    var a, b := net.makers[Lane(e, me)].chain, net.makers[Lane(e2, me)].chain;
    assert IsBlock(cfg.epochs[e], me, j, HashAt(cfg.w, a, j - 1), a[j]);
    assert IsBlock(cfg.epochs[e2], me, j, HashAt(cfg.w, b, j - 1), b[j]);
    assert EpochOk(cfg, e, cfg.epochs[e]) && EpochOk(cfg, e2, cfg.epochs[e2]);
    FullIdColonFree(cfg.epochs[e]);
    FullIdColonFree(cfg.epochs[e2]);
    HashFixesContent(cfg.w, a[j], b[j]);
    FullIdFixesEpoch(cfg.epochs[e], cfg.epochs[e2]);
  }

  /** A finished receipt built by a node running this code from an own record, whatever epoch the
      record's block id names, is for a block of the epoch asked about, and it is accepted by the
      sender exactly when the stored certificate above that block has a ':'-free PrevBlockHash. */
  lemma OwnReceiptAcceptedIff(cfg: Config, net: Net, window: seq<Epoch>, db: ReceiverDb, e: int, e2: int,
                              me: string, rotated: string, i: int)
    requires ConfigOk(cfg) && Inv(cfg, net) && me in cfg.honest && me in net.nodes && e in cfg.epochs &&
        e2 in cfg.epochs
    requires FindEpochById(window, e) == Some(cfg.epochs[e]) && Renders(net.nodes[me], db)
    requires LoadOwnMark(db, Mark(e, me, rotated)) == BlockId(e2, me, i)
    requires var r := BuildReceipt(cfg.w, window, db, e, me, rotated); r.Some? && r.value.status == "OK"
    requires e == e2 || me in cfg.epochs[e].registry
    requires forall id :: id in db.afps ==> AfpUnforged(cfg, net, db.afps[id], e)
    ensures var r := BuildReceipt(cfg.w, window, db, e, me, rotated).value;
            && e == e2 && r.afp.Some?
            && (Accepts(cfg.w, cfg.epochs[e], me, rotated, r) <==> ColonFree(r.afp.value.prevBlockHash))
  {
    hide Inv, ConfigOk, BuildReceipt, Accepts, Renders, BlockId, ColonFree, Linked, OwnStore, GetHash, AfpOk,
         AfpUnforged;
    var n := net.nodes[me];
    KeyIsColonFree(cfg, me);
    OkReceiptParts(cfg.w, window, db, n, e, e2, me, rotated, i);
    ReceiptAfpStored(cfg.w, window, db, e, me, rotated);
    if e != e2 {
      OwnStored(cfg, net, e2, me, Succ64(i));
      OwnAfpFitsOneEpoch(cfg, net, e, e2, me, Succ64(i), n.afps[Slot(e2, me, Succ64(i))]);
      assert false;
    }
    OwnNext(cfg, net, e, me, i);
    EpochId(cfg, e);
    OkReceiptAcceptedIff(cfg.w, window, db, cfg.epochs[e], me, rotated);
  }

  lemma ReceiptAfpStored(w: World, window: seq<Epoch>, db: ReceiverDb, e: int, me: string, rotated: string)
    requires var r := BuildReceipt(w, window, db, e, me, rotated); r.Some? && r.value.status == "OK"
    ensures var r := BuildReceipt(w, window, db, e, me, rotated).value;
            r.afp.Some? && exists id :: id in db.afps && db.afps[id] == r.afp.value
  {
    hide GetHash, AfpOk, HasValidAarp, BlockSigned, Atoi, Split;
    assert "PENDING"[0] != "OK"[0];
  }

  /** With voting stats from nodes running this code, every finished receipt of such a node is
      accepted. */
  lemma OwnReceiptAccepted(cfg: Config, net: Net, window: seq<Epoch>, db: ReceiverDb, e: int, e2: int,
                           me: string, rotated: string, i: int)
    requires ConfigOk(cfg) && Inv(cfg, net) && StoresFit(cfg, net) && cfg.honestReplies
    requires me in cfg.honest && me in net.nodes && e in cfg.epochs && e2 in cfg.epochs
    requires FindEpochById(window, e) == Some(cfg.epochs[e]) && Renders(net.nodes[me], db)
    requires LoadOwnMark(db, Mark(e, me, rotated)) == BlockId(e2, me, i)
    requires var r := BuildReceipt(cfg.w, window, db, e, me, rotated); r.Some? && r.value.status == "OK"
    requires e == e2 || me in cfg.epochs[e].registry
    requires forall id :: id in db.afps ==> AfpUnforged(cfg, net, db.afps[id], e)
    ensures Accepts(cfg.w, cfg.epochs[e], me, rotated, BuildReceipt(cfg.w, window, db, e, me, rotated).value)
  {
    hide Inv, ConfigOk, BuildReceipt, Accepts, Renders, BlockId, ColonFree, AfpOk, AfpUnforged, Certified;
    OwnReceiptAcceptedIff(cfg, net, window, db, e, e2, me, rotated, i);
    KeyIsColonFree(cfg, me);
    OkReceiptParts(cfg.w, window, db, net.nodes[me], e, e2, me, rotated, i);
    var slot := Slot(e, me, Succ64(i));
    assert StoreFits(cfg, net, net.nodes[me]) && AfpFits(cfg, net, slot, net.nodes[me].afps[slot]);
    NoColonsUnderHonestReplies(cfg, net, net.nodes[me].afps[slot], e, me, Succ64(i));
  }

  lemma KeyIsColonFree(cfg: Config, k: string)
    requires ConfigOk(cfg) && k in cfg.honest
    ensures ColonFree(k)
  {
    hide Sound, EpochOk;
  }

  lemma OwnNext(cfg: Config, net: Net, e: int, me: string, i: int)
    requires ConfigOk(cfg) && Inv(cfg, net) && me in cfg.honest && me in net.nodes && e in cfg.epochs
    requires 0 <= i && Slot(e, me, i) in net.nodes[me].blocks && Slot(e, me, Succ64(i)) in net.nodes[me].afps
    ensures net.nodes[me].afps[Slot(e, me, Succ64(i))].prevBlockHash ==
        GetHash(cfg.w, net.nodes[me].blocks[Slot(e, me, i)])
       <==> ColonFree(net.nodes[me].afps[Slot(e, me, Succ64(i))].prevBlockHash)
  {
    hide Inv, ConfigOk, ColonFree, GetHash, Linked, InWindow, GeneratorOk, GrabberOk, HuntOk, CacheOk, PointerOk;
    EpochId(cfg, e);
    ConfigIsSound(cfg);
    OwnMaker(cfg, net, e, me);
    MakerOf(cfg, net, Lane(e, me));
    var m, n := net.makers[Lane(e, me)], net.nodes[me];
    assert StoredAfpOk(cfg.w, cfg.epochs[e], me, m.chain, Succ64(i), n.afps[Slot(e, me, Succ64(i))]);
    OwnAfpNamesOwnBlock(cfg.w, cfg.epochs[e], me, n, m.chain, CertifiedUpTo(m), i);
  }

  lemma OwnMaker(cfg: Config, net: Net, e: int, me: string)
    requires Inv(cfg, net) && me in cfg.honest && e in cfg.epochs
    ensures Lane(e, me) in net.makers
  {
    hide NodeFacts, Makers;
    assert Lane(e, me).epoch in cfg.epochs && Lane(e, me).creator in cfg.honest;
  }

  // ---- Soundness ----

  /** Blocks with one hash have one creator, whatever else they contain. */
  lemma HashFixesCreator(w: World, b: Block, b': Block)
    requires Sound(w) && ColonFree(b.creator) && ColonFree(b'.creator) && GetHash(w, b) == GetHash(w, b')
    ensures b.creator == b'.creator
  {
    var s := HashInput(w, b)[|b.creator| + 1..];
    var s' := HashInput(w, b')[|b'.creator| + 1..];
    assert HashInput(w, b) == b.creator + [':'] + s && HashInput(w, b') == b'.creator + [':'] + s';
    PeelLeft(':', b.creator, s, b'.creator, s');
  }

  /** A certificate that names a block hash as its predecessor was signed over an honest vote for
      the successor of a certified block with that hash. */
  lemma PredecessorIsGenuine(cfg: Config, net: Net, afp: Afp, e: int, b: Block) returns (c: string, i: int)
    requires ConfigOk(cfg) && Inv(cfg, net) && Certified(cfg, net, afp, e) && afp.prevBlockHash == GetHash(cfg.w, b)
    ensures c in cfg.epochs[e].registry && i >= 0 && GenuineAt(cfg, net, e, c, i, GetHash(cfg.w, b))
  {
    hide Makers, StatFact, ProofsUnforged, GenuineAt, Ordered, AfpOk, Grounded, HashInput, FullId, FpPayload,
         ArpPayload, BlockId, HexText;
    var k, v := Speaker(cfg, net, afp, e);
    assert NodeFacts(cfg, net, net.nodes[k]);
    assert Fact(cfg, net, v);
    HashIsHex(cfg.w, b);
    HexTextFree(afp.prevBlockHash, ':');
    if v.Arp? {
      FpIsNotArp(afp.prevBlockHash, afp.blockId, afp.blockHash, e, v.creator, v.index, v.hash, v.epoch);
      assert false;
    } else {
      HexTextFree(v.prev, ':');
      LastPartIsEpoch(v, afp.prevBlockHash, afp.blockId, afp.blockHash, e);
      FpFirstField(afp.prevBlockHash, afp.blockId, afp.blockHash, e, v.prev, BlockId(v.epoch, v.creator, v.index),
                   v.hash, v.epoch);
      c, i := v.creator, v.index - 1;
    }
  }

  /** An accepted receipt is proof: the receiver has a certified block b, of this epoch and with the
      hash of the block in the receipt, which holds a valid certificate for the rotated anchor. The
      block shown has b's content exactly when its epoch text holds no ':'. */
  lemma AcceptedReceiptIsProof(cfg: Config, net: Net, e: int, receiver: string, rotated: string, r: Receipt)
    returns (i: int, b: Block)
    requires ConfigOk(cfg) && Inv(cfg, net) && e in cfg.epochs && receiver in cfg.epochs[e].registry
    requires Accepts(cfg.w, cfg.epochs[e], receiver, rotated, r) && AfpUnforged(cfg, net, r.afp.value, e)
    ensures i >= 0 && GenuineAt(cfg, net, e, receiver, i, GetHash(cfg.w, b))
    ensures b.creator == receiver && b.index == i && b.epoch == FullId(cfg.epochs[e])
    ensures GetHash(cfg.w, b) == GetHash(cfg.w, r.block.value) && r.block.value.creator == receiver
    ensures HasValidAarp(cfg.w, r.block.value.extra.Aarps(), rotated, cfg.epochs[e])
    ensures SameContent(cfg.w, r.block.value, b) <==> ColonFree(r.block.value.epoch)
  {
    hide Inv, ConfigOk, GenuineAt, GetHash, HasValidAarp, AfpOk, AfpUnforged, FullId, ColonFree, BlockSigned, Fact,
         SameContent;
    var c, j := PredecessorIsGenuine(cfg, net, r.afp.value, e, r.block.value);
    b := CertifiedBlockIs(cfg, net, e, c, j, r.block.value);
    i := j;
  }

  /** A certified block hash belongs to a block of its certified slot; any other block with that hash
      has the same creator, and the same content exactly when its epoch text holds no ':'. */
  lemma CertifiedBlockIs(cfg: Config, net: Net, e: int, c: string, i: int, shown: Block) returns (b: Block)
    requires ConfigOk(cfg) && Inv(cfg, net) && GenuineAt(cfg, net, e, c, i, GetHash(cfg.w, shown))
    requires c in cfg.epochs[e].registry && shown.creator in cfg.epochs[e].registry
    ensures shown.creator == c && b.creator == c && b.index == i && b.epoch == FullId(cfg.epochs[e])
    ensures GetHash(cfg.w, b) == GetHash(cfg.w, shown)
    ensures SameContent(cfg.w, shown, b) <==> ColonFree(shown.epoch)
  {
    hide Inv, GenuineAt, Genuine, HashInput, FullId, FaultyBound, Sound, HexText;
    var g, k, v := AGenuineVote(cfg, net, e, c, i, GetHash(cfg.w, shown));
    b := v.block;
    assert EpochOk(cfg, e, cfg.epochs[e]);
    HashFixesCreator(cfg.w, shown, b);
    FullIdColonFree(cfg.epochs[e]);
    if ColonFree(shown.epoch) {
      HashFixesContent(cfg.w, shown, b);
    }
  }

  /** A second block with the hash of b, when b's PrevHash spells extra data, an index and a hash: its
      epoch text takes in b's own extra data and index. */
  function OtherReading(w: World, b: Block, extra: ExtraData, index: int, prev: string): Block {
    b.(epoch := b.epoch + ":" + w.extraText(b.extra) + ":" + Itoa(b.index), extra := extra, index := index,
       prevHash := prev)
  }

  lemma RegroupReading(e: string, x: string, i: string, rest: string)
    ensures e + ":" + x + ":" + i + ":" + rest == e + ":" + (x + ":" + (i + ":" + rest))
  {
    assert x + ":" + (i + ":" + rest) == x + ":" + i + ":" + rest;
    assert e + ":" + (x + ":" + i + ":" + rest) == e + ":" + x + ":" + i + ":" + rest;
  }

  /** Such a block shown in place of b passes all checks on a receipt in which b passes the others,
      though it is not b and its epoch text holds ':'. */
  lemma OtherReadingAccepted(w: World, ep: Epoch, receiver: string, rotated: string, r: Receipt, extra: ExtraData,
                             index: int, prev: string)
    requires r.block.Some? && r.afp.Some?
    requires var b := r.block.value;
             && b.prevHash == w.extraText(extra) + ":" + (Itoa(index) + ":" + prev)
             && r.status == "OK" && r.epochIndex == ep.id && r.receiver == receiver && r.rotated == rotated
             && r.blockId != "" && BlockSigned(w, b) && b.creator == receiver
             && AfpOk(w, r.afp.value, ep) && r.afp.value.prevBlockHash == GetHash(w, b)
             && HasValidAarp(w, extra.Aarps(), rotated, ep)
    ensures var shown := OtherReading(w, r.block.value, extra, index, prev);
            && Accepts(w, ep, receiver, rotated, r.(block := Some(shown)))
            && !ColonFree(shown.epoch) && !SameContent(w, shown, r.block.value)
  {
    hide AfpOk, HasValidAarp, Itoa;
    var b := r.block.value;
    var shown := OtherReading(w, b, extra, index, prev);
    assert shown.epoch[|b.epoch|] == ':';
    RegroupReading(b.epoch, w.extraText(b.extra), Itoa(b.index), b.prevHash);
    assert HashInput(w, shown) == HashInput(w, b);
    assert |shown.epoch| > |b.epoch|;
  }
}
