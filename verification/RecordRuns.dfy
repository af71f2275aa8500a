/** The whole network together with the presence records of its honest nodes: what a record means at
    every moment of every run, whoever wrote it, and what an own record therefore yields as a receipt. */
module RecordRuns {
  import opened Text
  import opened Structures
  import opened Payloads
  import opened Certificates
  import opened Voter
  import opened Maker
  import opened Network
  import opened StoredProofs
  import opened Receipts
  import opened Records
  import opened AarpStore
  import opened AnchorNodes
  import opened Walk

  /** History: how a record came about. */
  datatype Origin =
    | ByVote(ep: Epoch, block: Block, p: Aarp) | ByOwn(i: int, block: Block, p: Aarp) | ByReceipt(r: Receipt)

  /** `issued` are the finished receipts honest nodes have built, `statsRead` the stats their collectors
      have last read. */
  datatype RNet = RNet(net: Net, books: map<string, Book>, origins: map<(string, Mark), Origin>,
                       issued: set<Receipt>, statsRead: map<(string, Lane), VotingStat>)

  /** Every quorum member is a registered anchor, as GetCurrentEpochQuorum makes it. */
  ghost predicate AnchorsVote(cfg: Config) {
    forall e, k :: e in cfg.epochs && k in cfg.epochs[e].quorum ==> k in cfg.epochs[e].registry
  }

  /** What an entry may rest on. A vote's bookkeeping is for a block that forges nobody's signature;
      the creator's own is for a stored block with a certificate above it; a collector assembles on
      the stat it has read; and a receiver running this code sends only receipts it has built. */
  ghost predicate PageOk(cfg: Config, r: RNet, k: string, ev: BookEvent) {
    && k in r.net.nodes && k in r.books && BookCan(cfg.w, cfg.epochs, k, r.books[k], ev)
    && match ev
       case NoteVoted(_, block, _) => BlockUnforged(cfg, r.net, block)
       case NoteOwn(ep, i, block, _) =>
         var n := r.net.nodes[k];
         Slot(ep.id, k, i) in n.blocks && n.blocks[Slot(ep.id, k, i)] == block && Slot(ep.id, k, i + 1) in n.afps
       case CollectProof(ep, p) => CollectedOk(cfg, r, k, ep, p)
       case TakeReceipt(ep, receipt) =>
         && AfpUnforged(cfg, r.net, receipt.afp.value, ep.id)
         && (receipt.receiver in cfg.honest ==> receipt in r.issued)
       case _ => true
  }

  ghost predicate CollectedOk(cfg: Config, r: RNet, k: string, ep: Epoch, p: Aarp) {
    var at := (k, Lane(ep.id, p.anchor));
    && at in r.statsRead && p == Assembled(ep, p.anchor, r.statsRead[at], p.signatures)
    && SignaturesChecked(cfg.w, ep, p.anchor, r.statsRead[at], p.signatures)
  }

  function OriginOf(ev: BookEvent): Option<Origin> {
    match ev
    case NoteVoted(ep, block, p) => Some(ByVote(ep, block, p))
    case NoteOwn(_, i, block, p) => Some(ByOwn(i, block, p))
    case TakeReceipt(_, receipt) => Some(ByReceipt(receipt))
    case _ => None
  }

  function AfterPage(r: RNet, k: string, ev: BookEvent): RNet
    requires k in r.books
  {
    r.(books := r.books[k := BookAfter(k, r.books[k], ev)],
       origins := if OriginOf(ev).Some? then r.origins[(k, Noting(k, ev).value.0) := OriginOf(ev).value] else r.origins)
  }

  /** A node builds a receipt from what it stores and records at the moment. */
  ghost predicate CanIssue(cfg: Config, r: RNet, k: string, window: seq<Epoch>, db: ReceiverDb, e: int,
                           rotated: string) {
    && k in r.net.nodes && k in r.books && WindowOk(cfg, window)
    && Renders(r.net.nodes[k], db) && db.marks == r.books[k].db.marks
    && BuildReceipt(cfg.w, window, db, e, k, rotated).Some?
  }

  ghost predicate Issues(cfg: Config, r: RNet, r': RNet) {
    exists k, window, db, e, rotated ::
      && CanIssue(cfg, r, k, window, db, e, rotated)
      && r' == r.(issued := r.issued + {BuildReceipt(cfg.w, window, db, e, k, rotated).value})
  }

  /** A collector reads the stat it will ask with. */
  ghost predicate Reads(cfg: Config, r: RNet, r': RNet) {
    exists k, lane: Lane ::
      && k in r.net.nodes && lane.epoch in cfg.epochs
      && r' == r.(statsRead := r.statsRead[(k, lane) := StatOf(r.net.nodes[k], lane)])
  }

  ghost predicate Acts(cfg: Config, r: RNet, r': RNet) {
    exists a :: Enabled(cfg, r.net, a) && r' == r.(net := After(cfg, r.net, a))
  }

  ghost predicate Pages(cfg: Config, r: RNet, r': RNet, k: string, ev: BookEvent) {
    k in r.books && PageOk(cfg, r, k, ev) && r' == AfterPage(r, k, ev)
  }

  ghost predicate RNext(cfg: Config, r: RNet, r': RNet) {
    Acts(cfg, r, r') || Issues(cfg, r, r') || Reads(cfg, r, r') || exists k, ev :: Pages(cfg, r, r', k, ev)
  }

  const EMPTY_BOOK: Book := Book(RotationDb(map[], map[], map[]), None)

  ghost predicate RInit(cfg: Config, r: RNet) {
    && Init(cfg, r.net) && r.books.Keys == cfg.honest
    && r.origins == map[] && r.issued == {} && r.statsRead == map[]
    && forall k :: k in r.books ==> r.books[k] == EMPTY_BOOK
  }

  ghost predicate IsRecordRun(cfg: Config, run: seq<RNet>) {
    && run != [] && RInit(cfg, run[0])
    && forall i {:trigger run[i]} :: 0 < i < |run| ==> RNext(cfg, run[i - 1], run[i])
  }

  // ---- What a record means ----

  /** The block of the record holds a certificate for the rotated anchor. */
  ghost predicate Holds(w: World, ep: Epoch, b: Block, rotated: string) {
    exists p :: p in b.extra.Aarps() && p.anchor == rotated && AarpOk(w, p, ep)
  }

  ghost predicate VoteRecord(cfg: Config, net: Net, mark: Mark, text: string, ep: Epoch, b: Block, p: Aarp) {
    && Tracked(cfg.epochs, ep) && b.creator == mark.creator && b.creator in ep.registry && b.epoch == FullId(ep)
    && Carries(cfg.w, ep, b, p) && p.anchor == mark.rotated && p.epochIndex == mark.epoch
    && text == BlockId(ep.id, mark.creator, b.index)
    && (mark.creator in cfg.honest ==> OnChain(cfg, net, mark.creator, ep.id, b.index, GetHash(cfg.w, b)))
  }

  ghost predicate HasCertificate(cfg: Config, net: Net, e: int, c: string, j: int) {
    exists afp :: CertifiedAt(cfg, net, afp, e, c, j)
  }

  ghost predicate OwnRecord(cfg: Config, net: Net, k: string, mark: Mark, text: string, i: int, b: Block, p: Aarp) {
    && mark.creator == k && mark.epoch in cfg.epochs && b.creator == k && b.index == i
    && Carries(cfg.w, cfg.epochs[mark.epoch], b, p) && p.anchor == mark.rotated
    && text == BlockId(mark.epoch, k, i) && OnChain(cfg, net, k, mark.epoch, i, GetHash(cfg.w, b))
    && HasCertificate(cfg, net, mark.epoch, k, i + 1)
  }

  ghost predicate CertifiedHash(cfg: Config, net: Net, e: int, c: string, h: string) {
    exists i :: i >= 0 && GenuineAt(cfg, net, e, c, i, h)
  }

  /** The text is the id of that block in the creator's own chain. */
  ghost predicate NamesOwnBlock(cfg: Config, net: Net, e: int, c: string, text: string, b: Block) {
    text == BlockId(e, c, b.index) && Int64(b.index) && OnChain(cfg, net, c, e, b.index, GetHash(cfg.w, b))
  }

  ghost predicate ReceiptRecord(cfg: Config, net: Net, k: string, mark: Mark, text: string, r: Receipt) {
    && mark.creator != k && mark.epoch in cfg.epochs && text == r.blockId && r.block.Some?
    && Accepts(cfg.w, cfg.epochs[mark.epoch], mark.creator, mark.rotated, r)
    && CertifiedHash(cfg, net, mark.epoch, mark.creator, GetHash(cfg.w, r.block.value))
    && (mark.creator in cfg.honest ==> NamesOwnBlock(cfg, net, mark.epoch, mark.creator, text, r.block.value))
  }

  ghost predicate RecordOk(cfg: Config, net: Net, k: string, mark: Mark, text: string, o: Origin) {
    match o
    case ByVote(ep, b, p) => VoteRecord(cfg, net, mark, text, ep, b, p)
    case ByOwn(i, b, p) => OwnRecord(cfg, net, k, mark, text, i, b, p)
    case ByReceipt(r) => ReceiptRecord(cfg, net, k, mark, text, r)
  }

  /** A request under way is to another anchor. */
  ghost predicate AskedOk(cfg: Config, k: string, asked: Option<Mark>) {
    asked.Some? ==>
      && asked.value.creator != k && asked.value.epoch in cfg.epochs
      && asked.value.creator in cfg.epochs[asked.value.epoch].quorum
  }

  ghost predicate BookOk(cfg: Config, r: RNet, k: string)
    requires k in r.books
  {
    && AskedOk(cfg, k, r.books[k].asked)
    && forall mark :: mark in r.books[k].db.marks ==>
      (k, mark) in r.origins && RecordOk(cfg, r.net, k, mark, r.books[k].db.marks[mark], r.origins[(k, mark)])
  }

  /** A stored rotation certificate, and when it verifies. */
  ghost predicate StoredOk(cfg: Config, lane: Lane, p: Aarp) {
    && lane.epoch in cfg.epochs && Lane(p.epochIndex, p.anchor) == lane && p.votingStat.index >= -1
    && (cfg.honestReplies ==> (AarpOk(cfg.w, p, cfg.epochs[lane.epoch]) <==> p.votingStat.index >= 0))
  }

  ghost predicate ProofsStoredOk(cfg: Config, b: Book) {
    forall lane :: lane in b.db.aarps ==> StoredOk(cfg, lane, b.db.aarps[lane])
  }

  /** A finished receipt of an honest node: its own block of some epoch and the certificate above it. */
  ghost predicate IssuedFor(cfg: Config, net: Net, r: Receipt, e2: int) {
    && r.receiver in cfg.honest && r.block.Some? && r.afp.Some? && e2 in cfg.epochs
    && NamesOwnBlock(cfg, net, e2, r.receiver, r.blockId, r.block.value)
    && r.afp.value.blockId == BlockId(e2, r.receiver, r.block.value.index + 1)
    && OnChain(cfg, net, r.receiver, e2, r.block.value.index + 1, r.afp.value.blockHash)
  }

  ghost predicate IssuedOk(cfg: Config, net: Net, r: Receipt) {
    r.status == "OK" ==> exists e2 :: IssuedFor(cfg, net, r, e2)
  }

  ghost predicate HistoryOk(cfg: Config, r: RNet) {
    && (forall receipt :: receipt in r.issued ==> IssuedOk(cfg, r.net, receipt))
    && (forall at :: at in r.statsRead ==> StatReadOk(cfg, r.net, at.1, r.statsRead[at]))
  }

  ghost predicate RInv(cfg: Config, r: RNet) {
    && Inv(cfg, r.net) && StoresFit(cfg, r.net) && r.books.Keys == cfg.honest && HistoryOk(cfg, r)
    && (forall k :: k in r.books ==> BookOk(cfg, r, k))
    && (forall k :: k in r.books ==> ProofsStoredOk(cfg, r.books[k]))
  }

  lemma IssuedGrows(cfg: Config, net: Net, net': Net, receipt: Receipt)
    requires Grows(net, net') && IssuedOk(cfg, net, receipt)
    ensures IssuedOk(cfg, net', receipt)
  {
    hide GetHash, BlockId;
    if receipt.status == "OK" {
      var e2 :| IssuedFor(cfg, net, receipt, e2);
      assert IssuedFor(cfg, net', receipt, e2);
    }
  }

  lemma HistoryGrows(cfg: Config, r: RNet, net': Net)
    requires Grows(r.net, net') && HistoryOk(cfg, r)
    ensures HistoryOk(cfg, r.(net := net'))
  {
    hide Grows, IssuedOk, StatFact;
    forall receipt | receipt in r.issued
      ensures IssuedOk(cfg, net', receipt)
    {
      IssuedGrows(cfg, r.net, net', receipt);
    }
    forall at | at in r.statsRead
      ensures StatReadOk(cfg, net', at.1, r.statsRead[at])
    {
      StatFactGrows(cfg, r.net, net', at.1, r.statsRead[at]);
    }
  }

  lemma RecordGrows(cfg: Config, net: Net, net': Net, k: string, mark: Mark, text: string, o: Origin)
    requires Grows(net, net') && RecordOk(cfg, net, k, mark, text, o)
    ensures RecordOk(cfg, net', k, mark, text, o)
  {
    hide Carries, Accepts, GetHash, FullId, BlockId, GenuineAt, Certified;
    match o
    case ByVote(ep, b, p) =>
    case ByOwn(i, b, p) =>
      var afp :| CertifiedAt(cfg, net, afp, mark.epoch, k, i + 1);
      CertifiedGrows(cfg, net, net', afp, mark.epoch);
      assert CertifiedAt(cfg, net', afp, mark.epoch, k, i + 1);
    case ByReceipt(r) =>
      var i :| i >= 0 && GenuineAt(cfg, net, mark.epoch, mark.creator, i, GetHash(cfg.w, r.block.value));
      GenuineGrows(cfg, net, net', mark.epoch, mark.creator, i, GetHash(cfg.w, r.block.value));
  }

  lemma ActKeepsRecords(cfg: Config, r: RNet, a: Action)
    requires ConfigOk(cfg) && RInv(cfg, r) && Enabled(cfg, r.net, a)
    ensures RInv(cfg, r.(net := After(cfg, r.net, a)))
  {
    hide Inv, ConfigOk, Enabled, After, CanAct, StoresFit, Grows, RecordOk, HistoryOk, ProofsStoredOk;
    var net' := Stepped(cfg, r.net, a);
    HistoryGrows(cfg, r, net');
    forall k | k in r.books
      ensures BookOk(cfg, r.(net := net'), k)
    {
      forall mark | mark in r.books[k].db.marks
        ensures RecordOk(cfg, net', k, mark, r.books[k].db.marks[mark], r.origins[(k, mark)])
      {
        RecordGrows(cfg, r.net, net', k, mark, r.books[k].db.marks[mark], r.origins[(k, mark)]);
      }
    }
  }

  lemma Stepped(cfg: Config, net: Net, a: Action) returns (net': Net)
    requires ConfigOk(cfg) && Inv(cfg, net) && StoresFit(cfg, net) && Enabled(cfg, net, a)
    ensures CanAct(cfg, net, a) && net' == After(cfg, net, a)
    ensures Inv(cfg, net') && StoresFit(cfg, net') && Grows(net, net')
  {
    hide Inv, ConfigOk, After, CanAct, InputOk, StoresFit, Grows;
    ActionKeepsInv(cfg, net, a);
    ActionKeepsStores(cfg, net, a);
    net' := After(cfg, net, a);
  }

  /** The record an entry writes is what its origin says. */
  lemma NewRecordOk(cfg: Config, r: RNet, k: string, ev: BookEvent)
    requires ConfigOk(cfg) && AnchorsVote(cfg) && RInv(cfg, r) && PageOk(cfg, r, k, ev) && OriginOf(ev).Some?
    ensures RecordOk(cfg, r.net, k, Noting(k, ev).value.0, Noting(k, ev).value.1, OriginOf(ev).value)
  {
    hide Inv, ConfigOk, AarpOk, Accepts, GetHash, FullId, BlockId, GenuineAt, BlockSigned, AfpUnforged, StoresFit;
    match ev
    case NoteVoted(ep, b, p) => VotedRecord(cfg, r.net, ep, b, p);
    case NoteOwn(ep, i, b, p) => NotedOwn(cfg, r, k, ep, i, b, p);
    case TakeReceipt(ep, receipt) => ReceiptTaken(cfg, r, k, ep, receipt);
    case _ =>
  }

  lemma VotedRecord(cfg: Config, net: Net, ep: Epoch, b: Block, p: Aarp)
    requires ConfigOk(cfg) && Inv(cfg, net) && Tracked(cfg.epochs, ep) && b.creator in ep.registry &&
        b.epoch == FullId(ep)
    requires Carries(cfg.w, ep, b, p) && BlockUnforged(cfg, net, b)
    ensures VoteRecord(cfg, net, Mark(p.epochIndex, b.creator, p.anchor), BlockId(ep.id, b.creator, b.index), ep, b, p)
  {
    hide Inv, ConfigOk, AarpOk, GetHash, FullId, BlockId, BlockSigned, BlockUnforged;
    if b.creator in cfg.honest {
      HonestBlock(cfg, net, ep.id, b);
    }
  }

  lemma NotedOwn(cfg: Config, r: RNet, k: string, ep: Epoch, i: int, b: Block, p: Aarp)
    requires ConfigOk(cfg) && RInv(cfg, r) && PageOk(cfg, r, k, NoteOwn(ep, i, b, p))
    ensures OwnRecord(cfg, r.net, k, Mark(ep.id, k, p.anchor), BlockId(ep.id, k, i), i, b, p)
  {
    hide Inv, ConfigOk, AarpOk, GetHash, FullId, BlockId, BlockSigned, Certified;
    var n := r.net.nodes[k];
    assert StoreFits(cfg, r.net, n);
    assert BlockFits(cfg, Slot(ep.id, k, i), b);
    assert AfpFits(cfg, r.net, Slot(ep.id, k, i + 1), n.afps[Slot(ep.id, k, i + 1)]);
    StoredIsOnChain(cfg, r.net, ep.id, k, i);
  }

  lemma StoredIsOnChain(cfg: Config, net: Net, e: int, k: string, i: int)
    requires ConfigOk(cfg) && Inv(cfg, net) && k in net.nodes && k in cfg.honest && e in cfg.epochs &&
        Slot(e, k, i) in net.nodes[k].blocks
    ensures OnChain(cfg, net, k, e, i, GetHash(cfg.w, net.nodes[k].blocks[Slot(e, k, i)]))
  {
    hide Inv, ConfigOk, GetHash, BlockId, AfpOk, Linked, InWindow, GeneratorOk, GrabberOk, HuntOk, CacheOk, PointerOk;
    OwnMaker(cfg, net, e, k);
    MakerOf(cfg, net, Lane(e, k));
    EpochId(cfg, e);
    var m := net.makers[Lane(e, k)];
    assert StoredBlockOk(cfg.w, m.chain, i, net.nodes[k].blocks[Slot(e, k, i)]);
  }

  /** A finished receipt of an honest node, once it passes the checks of an epoch, names its block there. */
  lemma IssuedForThisEpoch(cfg: Config, net: Net, ep: Epoch, receipt: Receipt)
    requires ConfigOk(cfg) && Inv(cfg, net) && Tracked(cfg.epochs, ep) && receipt.receiver in ep.registry
    requires IssuedOk(cfg, net, receipt) && receipt.status == "OK"
    requires Accepts(cfg.w, ep, receipt.receiver, receipt.rotated, receipt) &&
        AfpUnforged(cfg, net, receipt.afp.value, ep.id)
    ensures NamesOwnBlock(cfg, net, ep.id, receipt.receiver, receipt.blockId, receipt.block.value)
  {
    hide Inv, ConfigOk, GetHash, BlockId, AfpUnforged, AfpOk, HasValidAarp, BlockSigned, OnChain;
    var e2 :| IssuedFor(cfg, net, receipt, e2);
    OwnAfpFitsOneEpoch(cfg, net, ep.id, e2, receipt.receiver, receipt.block.value.index + 1, receipt.afp.value);
  }

  lemma ReceiptTaken(cfg: Config, r: RNet, k: string, ep: Epoch, receipt: Receipt)
    requires ConfigOk(cfg) && AnchorsVote(cfg) && RInv(cfg, r) && PageOk(cfg, r, k, TakeReceipt(ep, receipt))
    ensures ReceiptRecord(cfg, r.net, k, Mark(ep.id, receipt.receiver, receipt.rotated), receipt.blockId, receipt)
  {
    hide Inv, ConfigOk, GetHash, GenuineAt, AfpUnforged, StoresFit, AfpOk, HasValidAarp, BlockSigned, SameContent,
         IssuedOk, NamesOwnBlock, ProofsStoredOk, StatReadOk;
    assert BookOk(cfg, r, k);
    var i, b := AcceptedReceiptIsProof(cfg, r.net, ep.id, receipt.receiver, receipt.rotated, receipt);
    if receipt.receiver in cfg.honest {
      IssuedForThisEpoch(cfg, r.net, ep, receipt);
    }
  }

  /** A certificate stored by either writer verifies exactly at an index of 0 or more. */
  lemma StoredNew(cfg: Config, r: RNet, k: string, ev: BookEvent)
    requires ConfigOk(cfg) && RInv(cfg, r) && PageOk(cfg, r, k, ev) && (ev.AcceptProof? || ev.CollectProof?)
    ensures StoredOk(cfg, Lane(ev.p.epochIndex, ev.p.anchor), ev.p)
  {
    hide Inv, ConfigOk, AarpOk, StoresFit, BookOk, IssuedOk, StatFact, SignaturesChecked;
    assert ProofsStoredOk(cfg, r.books[k]);
    if ev.CollectProof? {
      var local := r.statsRead[(k, Lane(ev.ep.id, ev.p.anchor))];
      assert StatReadOk(cfg, r.net, (k, Lane(ev.ep.id, ev.p.anchor)).1, local);
      if cfg.honestReplies {
        AssembledOnReadStat(cfg, r.net, ev.ep.id, ev.p.anchor, local, ev.p.signatures);
      }
    }
  }

  lemma PageKeepsBooks(cfg: Config, r: RNet, k: string, ev: BookEvent)
    requires ConfigOk(cfg) && AnchorsVote(cfg) && RInv(cfg, r) && PageOk(cfg, r, k, ev)
    ensures forall j :: j in AfterPage(r, k, ev).books ==> BookOk(cfg, AfterPage(r, k, ev), j)
  {
    hide Inv, ConfigOk, StoresFit, RecordOk, AarpOk, Accepts, GetHash, FullId, BlockId, BlockSigned, AfpUnforged,
         BlockUnforged, HistoryOk, ProofsStoredOk, CollectedOk, Replaces;
    var r' := AfterPage(r, k, ev);
    if OriginOf(ev).Some? {
      NewRecordOk(cfg, r, k, ev);
    }
    forall j | j in r'.books
      ensures BookOk(cfg, r', j)
    {
      assert BookOk(cfg, r, j);
    }
  }

  lemma PageKeepsProofs(cfg: Config, r: RNet, k: string, ev: BookEvent)
    requires ConfigOk(cfg) && RInv(cfg, r) && PageOk(cfg, r, k, ev)
    ensures forall j :: j in AfterPage(r, k, ev).books ==> ProofsStoredOk(cfg, AfterPage(r, k, ev).books[j])
  {
    hide Inv, ConfigOk, StoresFit, RInv, StoredOk, BookCan, PageOk, OriginOf, Noting;
    ProofsOf(cfg, r, k, ev);
    forall j | j in AfterPage(r, k, ev).books
      ensures ProofsStoredOk(cfg, AfterPage(r, k, ev).books[j])
    {
      BooksAreOk(cfg, r, j);
    }
  }

  lemma BooksAreOk(cfg: Config, r: RNet, j: string)
    requires RInv(cfg, r)
    ensures j in r.books ==> ProofsStoredOk(cfg, r.books[j])
  {
    hide Inv, StoresFit, HistoryOk, BookOk, ProofsStoredOk;
  }

  lemma ProofsOf(cfg: Config, r: RNet, k: string, ev: BookEvent)
    requires ConfigOk(cfg) && RInv(cfg, r) && PageOk(cfg, r, k, ev)
    ensures k in r.books && ProofsStoredOk(cfg, BookAfter(k, r.books[k], ev))
  {
    hide Inv, ConfigOk, StoresFit, StoredOk, HistoryOk, BookOk, AarpOk, Accepts, CollectedOk, Replaces, RecordOk;
    assert ProofsStoredOk(cfg, r.books[k]);
    if ev.AcceptProof? || ev.CollectProof? {
      StoredNew(cfg, r, k, ev);
    }
  }

  lemma PageKeepsRecords(cfg: Config, r: RNet, k: string, ev: BookEvent)
    requires ConfigOk(cfg) && AnchorsVote(cfg) && RInv(cfg, r) && PageOk(cfg, r, k, ev)
    ensures RInv(cfg, AfterPage(r, k, ev))
  {
    hide Inv, ConfigOk, StoresFit, BookOk, ProofsStoredOk, BookCan, BookAfter, IssuedOk, StatReadOk;
    PageKeepsBooks(cfg, r, k, ev);
    PageKeepsProofs(cfg, r, k, ev);
  }

  /** A receipt an honest node builds is for a block of its own chain. */
  lemma IssueIsOk(cfg: Config, r: RNet, k: string, window: seq<Epoch>, db: ReceiverDb, e: int, rotated: string)
    requires ConfigOk(cfg) && RInv(cfg, r) && CanIssue(cfg, r, k, window, db, e, rotated)
    ensures IssuedOk(cfg, r.net, BuildReceipt(cfg.w, window, db, e, k, rotated).value)
  {
    hide Inv, ConfigOk, BuildReceipt, Renders, GetHash, BlockId, Certified, BookOk, HistoryOk, FullId, ProofsStoredOk;
    NodesAreHonest(cfg, r.net);
    var receipt, n := BuildReceipt(cfg.w, window, db, e, k, rotated).value, r.net.nodes[k];
    if receipt.status == "OK" {
      RecordIsThere(cfg.w, window, db, e, k, rotated);
      var e2, i := OwnShape(cfg, r, k, Mark(e, k, rotated));
      KeyIsColonFree(cfg, k);
      OkReceiptParts(cfg.w, window, db, n, e, e2, k, rotated, i);
      ReceiptIsFor(cfg.w, window, db, e, k, rotated);
      assert StoreFits(cfg, r.net, n) && BlockFits(cfg, Slot(e2, k, i), n.blocks[Slot(e2, k, i)]);
      StoredIsOnChain(cfg, r.net, e2, k, i);
      OwnStored(cfg, r.net, e2, k, Succ64(i));
      assert IssuedFor(cfg, r.net, receipt, e2);
    }
  }

  lemma ReceiptIsFor(w: World, window: seq<Epoch>, db: ReceiverDb, e: int, me: string, rotated: string)
    requires BuildReceipt(w, window, db, e, me, rotated).Some?
    ensures var r := BuildReceipt(w, window, db, e, me, rotated).value;
            r.receiver == me && r.blockId == LoadOwnMark(db, Mark(e, me, rotated))
  {
    hide GetHash, AfpOk, HasValidAarp, BlockSigned, Atoi, Split;
  }

  lemma OwnShape(cfg: Config, r: RNet, me: string, mark: Mark) returns (e2: int, i: int)
    requires RInv(cfg, r) && me in r.books && mark in r.books[me].db.marks && mark.creator == me
    ensures e2 in cfg.epochs && Int64(i) && r.books[me].db.marks[mark] == BlockId(e2, me, i)
  {
    hide Inv, StoresFit, HistoryOk, GetHash, FullId, BlockId, AarpOk, GenuineAt, Certified, BlockSigned;
    assert BookOk(cfg, r, me);
    match r.origins[(me, mark)]
    case ByOwn(j, _, _) => e2, i := mark.epoch, j;
    case ByVote(ep, b, _) => e2, i := ep.id, b.index;
  }

  lemma StartKeepsRecords(cfg: Config, r: RNet)
    requires ConfigOk(cfg) && RInit(cfg, r)
    ensures RInv(cfg, r)
  {
    hide ConfigOk, Inv;
    InitEstablishesInv(cfg, r.net);
  }

  lemma IssuesKeepRecords(cfg: Config, r: RNet, r': RNet)
    requires ConfigOk(cfg) && RInv(cfg, r) && Issues(cfg, r, r')
    ensures RInv(cfg, r')
  {
    hide ConfigOk, Inv, StoresFit, IssuedOk, StatReadOk, BuildReceipt, RecordOk, ProofsStoredOk, Renders, WindowOk;
    var k, window, db, e, rotated :|
      && CanIssue(cfg, r, k, window, db, e, rotated)
      && r' == r.(issued := r.issued + {BuildReceipt(cfg.w, window, db, e, k, rotated).value});
    IssueIsOk(cfg, r, k, window, db, e, rotated);
    forall j | j in r'.books
      ensures BookOk(cfg, r', j)
    {
      assert BookOk(cfg, r, j);
    }
  }

  lemma ReadsKeepRecords(cfg: Config, r: RNet, r': RNet)
    requires ConfigOk(cfg) && RInv(cfg, r) && Reads(cfg, r, r')
    ensures RInv(cfg, r')
  {
    hide ConfigOk, Inv, StoresFit, IssuedOk, StatReadOk, RecordOk, ProofsStoredOk, StatOf;
    var k, lane: Lane :|
      && k in r.net.nodes && lane.epoch in cfg.epochs
      && r' == r.(statsRead := r.statsRead[(k, lane) := StatOf(r.net.nodes[k], lane)]);
    NodesAreHonest(cfg, r.net);
    StatIsReadOk(cfg, r.net, k, lane);
    forall j | j in r'.books
      ensures BookOk(cfg, r', j)
    {
      assert BookOk(cfg, r, j);
    }
  }

  lemma NodesAreHonest(cfg: Config, net: Net)
    requires Inv(cfg, net)
    ensures net.nodes.Keys == cfg.honest
  {
    hide NodeFacts, Makers, StatFact;
  }

  lemma NextKeepsRecords(cfg: Config, r: RNet, r': RNet)
    requires ConfigOk(cfg) && AnchorsVote(cfg) && RInv(cfg, r) && RNext(cfg, r, r')
    ensures RInv(cfg, r')
  {
    hide ConfigOk, RInv, AnchorsVote, PageOk, After, CanAct, InputOk, AfterPage, Issues, Reads;
    if Acts(cfg, r, r') {
      var a :| Enabled(cfg, r.net, a) && r' == r.(net := After(cfg, r.net, a));
      ActKeepsRecords(cfg, r, a);
    } else if Issues(cfg, r, r') {
      IssuesKeepRecords(cfg, r, r');
    } else if Reads(cfg, r, r') {
      ReadsKeepRecords(cfg, r, r');
    } else {
      var k, ev :| Pages(cfg, r, r', k, ev);
      PageKeepsRecords(cfg, r, k, ev);
    }
  }

  lemma {:induction false} RecordRunKeepsInv(cfg: Config, run: seq<RNet>, t: nat)
    requires ConfigOk(cfg) && AnchorsVote(cfg) && IsRecordRun(cfg, run) && t < |run|
    ensures RInv(cfg, run[t])
  {
    hide ConfigOk, RInv, AnchorsVote, RNext, RInit;
    if t == 0 {
      StartKeepsRecords(cfg, run[0]);
    } else {
      RecordRunKeepsInv(cfg, run, t - 1);
      var r, r' := run[t - 1], run[t];
      assert RNext(cfg, r, r');
      NextKeepsRecords(cfg, r, r');
    }
  }

  // ---- Over every run ----

  /** What a record says, at every moment of every run. The block is the recorded creator's, correctly
      signed, and holds a certificate for the rotated anchor that verifies. A creator's own record names
      that block, in the epoch of the record, and the block is approved. A vote's record names it too,
      but in the epoch of the block, which is the epoch of the record exactly when the certificate is of
      the block's epoch. A sender's record rests on a certified block of that creator in that epoch and
      may say anything. */
  lemma RecordMeaning(cfg: Config, run: seq<RNet>, t: nat, k: string, mark: Mark) returns (ep: Epoch, b: Block)
    requires ConfigOk(cfg) && AnchorsVote(cfg) && IsRecordRun(cfg, run) && t < |run|
    requires k in run[t].books && mark in run[t].books[k].db.marks
    ensures (k, mark) in run[t].origins
    ensures Tracked(cfg.epochs, ep) && b.creator == mark.creator && BlockSigned(cfg.w, b) &&
        Holds(cfg.w, ep, b, mark.rotated)
    ensures var o, text := run[t].origins[(k, mark)], run[t].books[k].db.marks[mark];
            var named := text == BlockId(mark.epoch, mark.creator, b.index);
            match o
            case ByOwn(_, _, _) => ep.id == mark.epoch && named &&
                HasCertificate(cfg, run[t].net, mark.epoch, k, b.index + 1)
            case ByVote(_, _, p) => p.epochIndex == mark.epoch && (named <==> ep.id == mark.epoch)
            case ByReceipt(_) =>
              && ep.id == mark.epoch && CertifiedHash(cfg, run[t].net, mark.epoch, mark.creator, GetHash(cfg.w, b))
              && (mark.creator in cfg.honest ==> named)
  {
    hide ConfigOk, Inv, StoresFit, AnchorsVote, IsRecordRun, GetHash, FullId, BlockId, AarpOk, AfpOk, GenuineAt,
         Certified, BlockSigned;
    RecordRunKeepsInv(cfg, run, t);
    assert BookOk(cfg, run[t], k);
    match run[t].origins[(k, mark)]
    case ByOwn(i, block, p) =>
      ep, b := cfg.epochs[mark.epoch], block;
      EpochId(cfg, mark.epoch);
    case ByVote(e, block, p) =>
      ep, b := e, block;
      RegistryIsColonFree(cfg, e.id, b.creator);
      BlockIdFixed(e.id, b.creator, b.index, mark.epoch, b.creator, b.index);
    case ByReceipt(receipt) =>
      ep, b := cfg.epochs[mark.epoch], receipt.block.value;
      EpochId(cfg, mark.epoch);
      var j :| 0 <= j < |b.extra.Aarps()| && b.extra.Aarps()[j].anchor == mark.rotated &&
          AarpOk(cfg.w, b.extra.Aarps()[j], ep);
      assert b.extra.Aarps()[j] in b.extra.Aarps();
  }

  /** An own record always names a slot of the node itself, in some epoch. */
  lemma OwnRecordShape(cfg: Config, run: seq<RNet>, t: nat, me: string, mark: Mark) returns (e2: int, i: int)
    requires ConfigOk(cfg) && AnchorsVote(cfg) && IsRecordRun(cfg, run) && t < |run|
    requires me in run[t].books && mark in run[t].books[me].db.marks && mark.creator == me
    ensures e2 in cfg.epochs && Int64(i) && run[t].books[me].db.marks[mark] == BlockId(e2, me, i)
  {
    hide ConfigOk, RInv, AnchorsVote, IsRecordRun, BlockId;
    RecordRunKeepsInv(cfg, run, t);
    e2, i := OwnShape(cfg, run[t], me, mark);
  }

  /** In every run, whatever its own records name: a finished receipt a node running this code builds
      for an epoch in which it is registered is accepted by the sender exactly when the stored
      certificate above the block has a ':'-free PrevBlockHash. */
  lemma HonestReceiptAcceptedIff(cfg: Config, run: seq<RNet>, t: nat, window: seq<Epoch>, db: ReceiverDb, e: int,
                                 me: string, rotated: string)
    requires ConfigOk(cfg) && AnchorsVote(cfg) && IsRecordRun(cfg, run) && t < |run|
    requires me in run[t].books && me in run[t].net.nodes && e in cfg.epochs && me in cfg.epochs[e].registry
    requires db.marks == run[t].books[me].db.marks && Renders(run[t].net.nodes[me], db)
    requires FindEpochById(window, e) == Some(cfg.epochs[e])
    requires forall id :: id in db.afps ==> AfpUnforged(cfg, run[t].net, db.afps[id], e)
    requires var r := BuildReceipt(cfg.w, window, db, e, me, rotated); r.Some? && r.value.status == "OK"
    ensures var r := BuildReceipt(cfg.w, window, db, e, me, rotated).value;
            r.afp.Some? && (Accepts(cfg.w, cfg.epochs[e], me, rotated, r) <==> ColonFree(r.afp.value.prevBlockHash))
    ensures cfg.honestReplies ==>
        Accepts(cfg.w, cfg.epochs[e], me, rotated, BuildReceipt(cfg.w, window, db, e, me, rotated).value)
  {
    hide ConfigOk, Inv, StoresFit, AnchorsVote, IsRecordRun, BuildReceipt, Accepts, Renders, BlockId, ColonFree,
         BookOk, AfpUnforged, HistoryOk, ProofsStoredOk;
    RecordRunKeepsInv(cfg, run, t);
    RecordIsThere(cfg.w, window, db, e, me, rotated);
    var e2, i := OwnRecordShape(cfg, run, t, me, Mark(e, me, rotated));
    OwnReceiptAcceptedIff(cfg, run[t].net, window, db, e, e2, me, rotated, i);
    if cfg.honestReplies {
      OwnReceiptAccepted(cfg, run[t].net, window, db, e, e2, me, rotated, i);
    }
  }

  lemma RecordIsThere(w: World, window: seq<Epoch>, db: ReceiverDb, e: int, me: string, rotated: string)
    requires BuildReceipt(w, window, db, e, me, rotated).Some?
    ensures Mark(e, me, rotated) in db.marks
  {
    hide GetHash, AfpOk, HasValidAarp, BlockSigned, Atoi, Split;
  }

  // ---- When an inclusion is lost ----

  /** Node k takes a receipt of somebody not running this code, whose block id names no block, over a
      readable record with its certificate stored. */
  ghost predicate OddReceiptTaken(cfg: Config, r: RNet, r': RNet, k: string) {
    exists ep, receipt ::
      && Pages(cfg, r, r', k, TakeReceipt(ep, receipt)) && Spoils(r.books[k], TakeReceipt(ep, receipt))
      && receipt.receiver !in cfg.honest
  }

  lemma NetworkEpochsFit(cfg: Config, k: string)
    requires ConfigOk(cfg) && k in cfg.honest
    ensures EpochsFit(cfg.epochs, k)
  {
    hide Sound, FaultyBound, HexText, Numeral;
    forall e | e in cfg.epochs
      ensures cfg.epochs[e].id == e && forall c :: c in cfg.epochs[e].registry ==> ColonFree(c)
    {
      assert EpochOk(cfg, e, cfg.epochs[e]);
    }
  }

  lemma BookKeys(cfg: Config, r: RNet, k: string)
    requires RInv(cfg, r) && k in r.books
    ensures OwnKeys(r.books[k].db) && k in cfg.honest
  {
    hide Inv, StoresFit, HistoryOk, BookOk, AarpOk;
    assert ProofsStoredOk(cfg, r.books[k]);
  }

  /** A receipt of a node running this code spoils nothing. */
  lemma HonestReceiptSpoilsNothing(cfg: Config, r: RNet, k: string, ep: Epoch, receipt: Receipt)
    requires ConfigOk(cfg) && AnchorsVote(cfg) && RInv(cfg, r) && k in r.books
    requires PageOk(cfg, r, k, TakeReceipt(ep, receipt)) && receipt.receiver in cfg.honest
    ensures !Spoils(r.books[k], TakeReceipt(ep, receipt))
  {
    hide ConfigOk, RInv, AnchorsVote, PageOk, Accepts, BlockId, OnChain, Included, CertifiedHash;
    ReceiptTaken(cfg, r, k, ep, receipt);
    KeyIsColonFree(cfg, receipt.receiver);
    NoteIsReadable(ep.id, receipt.receiver, receipt.block.value.index);
  }

  lemma PageLosesIff(cfg: Config, r: RNet, k: string, ev: BookEvent, j: string)
    requires ConfigOk(cfg) && AnchorsVote(cfg) && RInv(cfg, r) && k in r.books && PageOk(cfg, r, k, ev) && j in r.books
    ensures j in AfterPage(r, k, ev).books
    ensures !KeepsIncluded(r.books[j].db, AfterPage(r, k, ev).books[j].db) ==>
              j == k && Spoils(r.books[k], ev) && ev.r.receiver !in cfg.honest
    ensures j == k && Spoils(r.books[k], ev) ==> !KeepsIncluded(r.books[j].db, AfterPage(r, k, ev).books[j].db)
  {
    hide ConfigOk, RInv, AnchorsVote, BookCan, BookAfter, Spoils, KeepsIncluded, OwnKeys, Accepts, Included;
    BookKeys(cfg, r, k);
    NetworkEpochsFit(cfg, k);
    if j == k {
      StepLosesIff(cfg.w, cfg.epochs, k, r.books[k], ev);
      if Spoils(r.books[k], ev) {
        SpoilingIsTaking(r.books[k], ev);
        if ev.r.receiver in cfg.honest {
          HonestReceiptSpoilsNothing(cfg, r, k, ev.ep, ev.r);
        }
      }
    } else {
      Unchanged(r.books[j].db);
    }
  }

  lemma SpoilingIsTaking(b: Book, ev: BookEvent)
    requires Spoils(b, ev)
    ensures ev.TakeReceipt? && ev == TakeReceipt(ev.ep, ev.r)
  {
    hide Included, ParseBlockIndex;
  }

  /** At any step of any run, a node loses an inclusion exactly when it takes such a receipt. */
  lemma InclusionLostIff(cfg: Config, run: seq<RNet>, t: nat, j: string)
    requires ConfigOk(cfg) && AnchorsVote(cfg) && IsRecordRun(cfg, run) && t + 1 < |run| && j in run[t].books
    ensures j in run[t + 1].books
    ensures !KeepsIncluded(run[t].books[j].db, run[t + 1].books[j].db) <==> OddReceiptTaken(cfg, run[t], run[t + 1], j)
  {
    hide ConfigOk, RInv, AnchorsVote, PageOk, AfterPage, RInit, InputOk, After, CanAct, CanIssue, BuildReceipt, StatOf,
         Spoils, KeepsIncluded;
    RecordRunKeepsInv(cfg, run, t);
    var r, r' := run[t], run[t + 1];
    assert RNext(cfg, run[t + 1 - 1], run[t + 1]);
    if OddReceiptTaken(cfg, r, r', j) {
      var ep, receipt :| Pages(cfg, r, r', j, TakeReceipt(ep, receipt)) && Spoils(r.books[j], TakeReceipt(ep, receipt))
                         && receipt.receiver !in cfg.honest;
      PageLosesIff(cfg, r, j, TakeReceipt(ep, receipt), j);
    }
    if exists k, ev :: Pages(cfg, r, r', k, ev) {
      var k, ev :| Pages(cfg, r, r', k, ev);
      PageLosesIff(cfg, r, k, ev, j);
      if !KeepsIncluded(r.books[j].db, r'.books[j].db) {
        SpoilingIsTaking(r.books[k], ev);
        assert Pages(cfg, r, r', j, TakeReceipt(ev.ep, ev.r));
      }
    } else {
      BooksStay(cfg, r, r');
      Unchanged(r.books[j].db);
    }
  }

  lemma BooksStay(cfg: Config, r: RNet, r': RNet)
    requires Acts(cfg, r, r') || Issues(cfg, r, r') || Reads(cfg, r, r')
    ensures r'.books == r.books
  {
    hide InputOk, After, CanAct, Renders, WindowOk, BuildReceipt, StatOf;
  }

  ghost predicate NoOddReceipt(cfg: Config, run: seq<RNet>, i: nat, j: nat, k: string)
    requires j < |run|
  {
    forall t :: i <= t < j ==> !OddReceiptTaken(cfg, run[t], run[t + 1], k)
  }

  lemma {:induction false} InclusionsStayOverRun(cfg: Config, run: seq<RNet>, i: nat, j: nat, k: string)
    requires ConfigOk(cfg) && AnchorsVote(cfg) && IsRecordRun(cfg, run) && i <= j < |run|
    requires k in run[i].books && NoOddReceipt(cfg, run, i, j, k)
    ensures k in run[j].books && KeepsIncluded(run[i].books[k].db, run[j].books[k].db)
    decreases j
  {
    hide ConfigOk, AnchorsVote, IsRecordRun, OddReceiptTaken, Included;
    if i < j {
      InclusionsStayOverRun(cfg, run, i, j - 1, k);
      InclusionLostIff(cfg, run, j - 1, k);
      assert !OddReceiptTaken(cfg, run[j - 1], run[j - 1 + 1], k);
    }
  }

  /** Between two moments of any run, as long as a node takes no such receipt, its answer for the
      current anchor of an epoch never moves back. */
  lemma CurrentAnchorOverRun(cfg: Config, run: seq<RNet>, i: nat, j: nat, k: string, e: int, anchors: seq<string>,
                             q: int, q': int)
    requires ConfigOk(cfg) && AnchorsVote(cfg) && IsRecordRun(cfg, run) && i <= j < |run|
    requires k in run[i].books && k in run[j].books && NoOddReceipt(cfg, run, i, j, k)
    requires Farthest(run[i].books[k].db, e, anchors, q) && Farthest(run[j].books[k].db, e, anchors, q')
    ensures q <= q'
  {
    hide ConfigOk, AnchorsVote, IsRecordRun, NoOddReceipt, Reaches, KeepsIncluded;
    InclusionsStayOverRun(cfg, run, i, j, k);
    ReachesMore(run[i].books[k].db, run[j].books[k].db, e, anchors, q);
  }

  // ---- Which stored certificates verify ----

  /** With stat replies from nodes running this code, a rotation certificate an honest node stores
      verifies exactly when its index is at least 0. */
  lemma StoredVerifiesIff(cfg: Config, run: seq<RNet>, t: nat, k: string, lane: Lane)
    requires ConfigOk(cfg) && AnchorsVote(cfg) && IsRecordRun(cfg, run) && t < |run| && cfg.honestReplies
    requires k in run[t].books && lane in run[t].books[k].db.aarps
    ensures lane.epoch in cfg.epochs
    ensures var p := run[t].books[k].db.aarps[lane];
            && p.epochIndex == lane.epoch && p.anchor == lane.creator
            && (AarpOk(cfg.w, p, cfg.epochs[lane.epoch]) <==> p.votingStat.index >= 0)
  {
    hide ConfigOk, AnchorsVote, IsRecordRun, RInv, AarpOk;
    RecordRunKeepsInv(cfg, run, t);
    BooksAreOk(cfg, run[t], k);
  }

  /** So the certificates handed out in alignment data all verify exactly when no listed one is for an
      anchor without an approved block. */
  lemma ListedCertificatesVerifyIff(cfg: Config, run: seq<RNet>, t: nat, k: string, e: int, creator: string,
                                    anchors: seq<string>, required: seq<string>, data: map<int, AnchorData>)
    requires ConfigOk(cfg) && AnchorsVote(cfg) && IsRecordRun(cfg, run) && t < |run| && cfg.honestReplies
    requires k in run[t].books && e in cfg.epochs && Lists(run[t].books[k].db, e, creator, anchors, required, data)
    ensures (forall i :: i in data ==> AarpOk(cfg.w, data[i].aarp, cfg.epochs[e]))
       <==> (forall i :: i in data ==> data[i].aarp.votingStat.index >= 0)
  {
    hide ConfigOk, AnchorsVote, IsRecordRun, AarpOk, ParseBlockIndex, IsLast, HasEntry;
    forall i | i in data
      ensures AarpOk(cfg.w, data[i].aarp, cfg.epochs[e]) <==> data[i].aarp.votingStat.index >= 0
    {
      StoredVerifiesIff(cfg, run, t, k, Lane(e, anchors[i]));
    }
  }
}
