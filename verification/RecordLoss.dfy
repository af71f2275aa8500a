/** Two runs of a network of four anchors, one of them not running this code, in which a presence record
    is not what it seems: a late receipt spoils one, and a vote records a block of another epoch. */
module RecordLoss {
  import opened Text
  import opened Structures
  import opened Payloads
  import opened Certificates
  import opened Voter
  import opened Network
  import opened Safety
  import opened AnchorNodes
  import opened Receipts
  import opened Walk
  import opened Records
  import opened RecordRuns
  import opened Presence
  import opened FourAnchors

  const BOOKS: map<string, Book> := map["a" := EMPTY_BOOK, "c" := EMPTY_BOOK, "d" := EMPTY_BOOK]

  function Bare(net: Net): RNet { RNet(net, BOOKS, map[], {}, map[]) }

  ghost predicate Arrives(cfg: Config, run: seq<RNet>, r: RNet) {
    run != [] && IsRecordRun(cfg, run) && run[|run| - 1] == r
  }

  /** A run of the network is one with empty records. */
  lemma Lifted(cfg: Config, run: seq<Net>) returns (run': seq<RNet>)
    requires FourOk(cfg) && run != [] && RunOf(cfg, run)
    ensures Arrives(cfg, run', Bare(run[|run| - 1]))
  {
    hide ConfigOk, Enabled, After, CanAct;
    run' := seq(|run|, i requires 0 <= i < |run| => Bare(run[i]));
    forall i {:trigger run'[i]} | 0 < i < |run'|
      ensures RNext(cfg, run'[i - 1], run'[i])
    {
      assert Next(cfg, run[i - 1], run[i]);
      assert Acts(cfg, run'[i - 1], run'[i]);
    }
  }

  lemma Followed(cfg: Config, run: seq<RNet>, r: RNet, r': RNet) returns (run': seq<RNet>)
    requires Arrives(cfg, run, r) && RNext(cfg, r, r')
    ensures run' == run + [r'] && Arrives(cfg, run', r')
  {
    hide RNext, RInit;
    run' := run + [r'];
    forall i {:trigger run'[i]} | 0 < i < |run'|
      ensures RNext(cfg, run'[i - 1], run'[i])
    {
      if i < |run| {
        assert run'[i] == run[i] && run'[i - 1] == run[i - 1];
      }
    }
  }

  lemma PageTurned(cfg: Config, run: seq<RNet>, r: RNet, ev: BookEvent) returns (run': seq<RNet>)
    requires Arrives(cfg, run, r) && "c" in r.books && PageOk(cfg, r, "c", ev)
    ensures run' == run + [AfterPage(r, "c", ev)] && Arrives(cfg, run', AfterPage(r, "c", ev))
  {
    hide PageOk, AfterPage, Arrives, Acts, Issues, Reads;
    assert Pages(cfg, r, AfterPage(r, "c", ev), "c", ev);
    run' := Followed(cfg, run, r, AfterPage(r, "c", ev));
  }

  // ---- The certificate of "a" and the blocks that hold it ----

  function Out(w: World): Aarp { Assembled(E0, "a", GoodStat(w), Sigs(RotationText(E0, "a", GoodStat(w)))) }

  function Carried(w: World): ExtraData { ExtraData(Some([Out(w)]), None, None) }

  lemma OutIsCertified(cfg: Config) returns (run: seq<Net>)
    requires FourOk(cfg) && !cfg.honestReplies
    ensures var n := StoppedA(cfg.w, GoodStat(cfg.w)); At(cfg, run, RestOfA(cfg.w), n, n)
    ensures AarpCertified(cfg, run[|run| - 1], Out(cfg.w))
    ensures var n := StoppedA(cfg.w, GoodStat(cfg.w));
            n.stats == map[LANE_A := GoodStat(cfg.w)] && n.disabled == {LANE_A} && n.finished == {}
  {
    hide ConfigOk, IsRun, GetHash, Payload, StoppedA, RestOfA, AarpCertified, BlockId, StatOfA, NamesItsBlock;
    GoodStatFits(cfg.w);
    run := AStopped(cfg, GoodStat(cfg.w));
    assert FOUR[0] == "a";
    RotationIsCertified(cfg, run[|run| - 1], "a", GoodStat(cfg.w));
  }

  lemma OutVerifies(cfg: Config, net: Net)
    requires FourOk(cfg) && AarpCertified(cfg, net, Out(cfg.w))
    ensures AarpOk(cfg.w, Out(cfg.w), E0) && AarpOk(cfg.w, Out(cfg.w), E1(cfg.w))
    ensures SignaturesChecked(cfg.w, E0, "a", GoodStat(cfg.w), Out(cfg.w).signatures)
    ensures |Out(cfg.w).signatures| >= Majority(|FOUR|)
  {
    hide ConfigOk, AarpOk, GoodStat, ArpPayload;
    RotationProofIgnoresHandlerEpoch(cfg.w, Out(cfg.w), E0, E1(cfg.w));
    SigsVerify(cfg, RotationText(E0, "a", GoodStat(cfg.w)));
  }

  // ---- A late receipt ----

  /** The receipt "b" sends: all in good order, except that its block id is no block id. */
  function OddReceipt(w: World): Receipt {
    Receipt("OK", 0, "b", "a", "?", Some(BBlock(w, Carried(w), 0)), Some(BAfp(w, Carried(w), 1)))
  }

  lemma OddReceiptPasses(w: World)
    requires AarpOk(w, Out(w), E0) && BlockSigned(w, BBlock(w, Carried(w), 0)) && AfpOk(w, BAfp(w, Carried(w), 1), E0)
    ensures Accepts(w, E0, "b", "a", OddReceipt(w))
  {
    hide GetHash, AarpOk, AfpOk, GoodStat, BlockSigned, Payload;
    var proofs := Carried(w).Aarps();
    assert proofs[0] == Out(w);
    assert HasValidAarp(w, proofs, "a", E0);
  }

  /** Everything "c" can see once "a" is rotated and two blocks of "b" are voted for. */
  ghost predicate BlocksOut(cfg: Config, net: Net) {
    && "c" in net.nodes && AarpCertified(cfg, net, Out(cfg.w)) && StatOf(net.nodes["c"], LANE_A) == GoodStat(cfg.w)
    && AfpOk(cfg.w, BAfp(cfg.w, Carried(cfg.w), 1), E0) && AfpUnforged(cfg, net, BAfp(cfg.w, Carried(cfg.w), 1), 0)
  }

  lemma BlocksSentOut(cfg: Config) returns (run: seq<Net>)
    requires FourOk(cfg) && !cfg.honestReplies
    ensures run != [] && RunOf(cfg, run) && BlocksOut(cfg, run[|run| - 1])
  {
    hide ConfigOk, IsRun, StoppedA, RestOfA, AarpCertified, BVote, BAfp, GoodStat, BNode, Carried,
         Out, SignedAs, Certified;
    var w, n := cfg.w, StoppedA(cfg.w, GoodStat(cfg.w));
    run := OutIsCertified(cfg);
    var net := run[|run| - 1];
    run := BVoted(cfg, run, RestOfA(w), n, Carried(w), 1);
    AarpGrows(cfg, net, run[|run| - 1], Out(w));
    BAfpIsSigned(w, Carried(w), 1);
    SignedIsCertified(cfg, run[|run| - 1], BVote(w, Carried(w), 1), BAfp(w, Carried(w), 1));
  }

  const MARK: Mark := Mark(0, "b", "a")

  /** The records of "c" with its own copy of the certificate of "a". */
  function BookOfC(w: World, marks: map<Mark, string>, asked: Option<Mark>): Book {
    Book(RotationDb(marks, map[LANE_A := Out(w)], map[]), asked)
  }

  /** "c" has read its stat, stored the certificate and found no record for "b". */
  function AskedNet(w: World, net: Net): RNet {
    RNet(net, BOOKS["c" := BookOfC(w, map[], Some(MARK))], map[], {}, map[("c", LANE_A) := GoodStat(w)])
  }

  function ReadNet(w: World, net: Net): RNet { Bare(net).(statsRead := map[("c", LANE_A) := GoodStat(w)]) }

  function StoredNet(w: World, net: Net): RNet { ReadNet(w, net).(books := BOOKS["c" := BookOfC(w, map[], None)]) }

  lemma StatRead(cfg: Config, net: Net)
    requires FourOk(cfg) && BlocksOut(cfg, net)
    ensures Reads(cfg, Bare(net), ReadNet(cfg.w, net))
  {
    hide ConfigOk, AarpCertified, GoodStat, AfpOk, AfpUnforged, BAfp;
    var r, lane := Bare(net), LANE_A;
    assert ReadNet(cfg.w, net) == r.(statsRead := r.statsRead[("c", lane) := StatOf(net.nodes["c"], lane)]);
  }

  lemma ProofCollected(cfg: Config, net: Net)
    requires FourOk(cfg) && BlocksOut(cfg, net)
    ensures "c" in ReadNet(cfg.w, net).books && PageOk(cfg, ReadNet(cfg.w, net), "c", CollectProof(E0, Out(cfg.w)))
    ensures AfterPage(ReadNet(cfg.w, net), "c", CollectProof(E0, Out(cfg.w))) == StoredNet(cfg.w, net)
  {
    hide ConfigOk, AarpOk, AarpCertified, AfpOk, AfpUnforged, SignaturesChecked, GetHash, BAfp;
    OutVerifies(cfg, net);
    assert FOUR[0] == "a";
  }

  lemma RequestSent(cfg: Config, run: seq<RNet>, net: Net) returns (run': seq<RNet>)
    requires FourOk(cfg) && BlocksOut(cfg, net) && Arrives(cfg, run, Bare(net))
    ensures Arrives(cfg, run', AskedNet(cfg.w, net))
  {
    hide ConfigOk, Arrives, BlocksOut, Reads, Acts, Issues, PageOk, AfterPage, AskedNet, StoredNet;
    var w := cfg.w;
    StatRead(cfg, net);
    run' := Followed(cfg, run, Bare(net), ReadNet(w, net));
    ProofCollected(cfg, net);
    run' := PageTurned(cfg, run', ReadNet(w, net), CollectProof(E0, Out(w)));
    RequestIsDue(cfg, net);
    run' := PageTurned(cfg, run', StoredNet(w, net), Ask(E0, "b", "a"));
  }

  lemma RequestIsDue(cfg: Config, net: Net)
    requires FourOk(cfg) && BlocksOut(cfg, net)
    ensures "c" in StoredNet(cfg.w, net).books && PageOk(cfg, StoredNet(cfg.w, net), "c", Ask(E0, "b", "a"))
    ensures AfterPage(StoredNet(cfg.w, net), "c", Ask(E0, "b", "a")) == AskedNet(cfg.w, net)
  {
    hide ConfigOk, AarpCertified, AfpOk, AfpUnforged, BAfp, GoodStat, Out, Payload;
    assert FOUR[1] == "b" && "b"[0] != "c"[0];
  }

  function NotedNet(w: World, net: Net): RNet {
    AfterPage(AskedNet(w, net), "c", NoteVoted(E0, BBlock(w, Carried(w), 0), Out(w)))
  }

  function LostNet(w: World, net: Net): RNet { AfterPage(NotedNet(w, net), "c", TakeReceipt(E0, OddReceipt(w))) }

  lemma BlockOfBFits(cfg: Config, net: Net, x: ExtraData)
    requires FourOk(cfg)
    ensures BlockSigned(cfg.w, BBlock(cfg.w, x, 0)) && BlockUnforged(cfg, net, BBlock(cfg.w, x, 0))
    ensures "b" in FOUR && "b" !in cfg.honest
    ensures var b := BBlock(cfg.w, x, 0);
            b.creator == "b" && b.epoch == FullId(E0) && b.index == 0 && b.extra == x
  {
    hide ConfigOk, HashInput, FullId;
    KeysAreOk();
    assert FOUR[1] == "b";
    SignatureOf(cfg, "b", Block("b", 0, FullId(E0), x, 0, INIT_HASH, ""));
  }

  lemma VoteIsNoted(cfg: Config, net: Net)
    requires FourOk(cfg) && "c" in net.nodes && AarpCertified(cfg, net, Out(cfg.w))
    ensures "c" in AskedNet(cfg.w, net).books
    ensures PageOk(cfg, AskedNet(cfg.w, net), "c", NoteVoted(E0, BBlock(cfg.w, Carried(cfg.w), 0), Out(cfg.w)))
  {
    hide ConfigOk, AarpOk, AarpCertified, GoodStat, Out, FullId, BlockSigned, BlockUnforged,
         BBlock, RotationText;
    OutVerifies(cfg, net);
    BlockOfBFits(cfg, net, Carried(cfg.w));
    assert Carried(cfg.w).Aarps()[0] == Out(cfg.w);
    OutIsOfA(cfg.w);
  }

  lemma OutIsOfA(w: World)
    ensures Out(w).epochIndex == 0 && Out(w).anchor == "a"
  {
    hide GoodStat;
  }

  lemma ReceiptComes(cfg: Config, net: Net)
    requires FourOk(cfg) && BlocksOut(cfg, net)
    ensures "c" in NotedNet(cfg.w, net).books
    ensures PageOk(cfg, NotedNet(cfg.w, net), "c", TakeReceipt(E0, OddReceipt(cfg.w)))
  {
    hide ConfigOk, AarpOk, AarpCertified, AfpOk, AfpUnforged, BlockSigned, Accepts, BAfp, BBlock, Carried, NotedNet,
         GoodStat, Out;
    OutVerifies(cfg, net);
    BlockOfBFits(cfg, net, Carried(cfg.w));
    OddReceiptPasses(cfg.w);
    LateReceiptSpoils(cfg.w, net);
    NetStays(cfg.w, net);
  }

  /** The vote's bookkeeping fills the record, the receipt then comes in. */
  lemma ReceiptCame(cfg: Config, run: seq<RNet>, net: Net) returns (run': seq<RNet>)
    requires FourOk(cfg) && BlocksOut(cfg, net) && Arrives(cfg, run, AskedNet(cfg.w, net))
    ensures |run'| == |run| + 2 && Arrives(cfg, run', LostNet(cfg.w, net))
    ensures run'[|run'| - 2] == NotedNet(cfg.w, net)
    ensures OddReceiptTaken(cfg, NotedNet(cfg.w, net), LostNet(cfg.w, net), "c")
  {
    hide ConfigOk, Arrives, PageOk, AfterPage, AskedNet, BBlock, BAfp, Out, Spoils, AarpCertified, AfpOk, AfpUnforged;
    var w := cfg.w;
    VoteIsNoted(cfg, net);
    ReceiptComes(cfg, net);
    BlockOfBFits(cfg, net, Carried(w));
    LateReceiptSpoils(w, net);
    run' := PageTurned(cfg, run, AskedNet(w, net), NoteVoted(E0, BBlock(w, Carried(w), 0), Out(w)));
    run' := PageTurned(cfg, run', NotedNet(w, net), TakeReceipt(E0, OddReceipt(w)));
    assert Pages(cfg, NotedNet(w, net), LostNet(w, net), "c", TakeReceipt(E0, OddReceipt(w)));
  }

  lemma LateReceiptSpoils(w: World, net: Net)
    ensures "c" in NotedNet(w, net).books && "c" in LostNet(w, net).books
    ensures NotedNet(w, net).books["c"] == BookOfC(w, map[MARK := BlockId(0, "b", 0)], Some(MARK))
    ensures LostNet(w, net).books["c"] == BookOfC(w, map[MARK := "?"], None)
    ensures Spoils(NotedNet(w, net).books["c"], TakeReceipt(E0, OddReceipt(w)))
    ensures Included(NotedNet(w, net).books["c"].db, 0, "b", "a")
    ensures !Included(LostNet(w, net).books["c"].db, 0, "b", "a")
  {
    hide GetHash, FullId, BlockId, GoodStat, BAfp, Payload, Split;
    NoteIsReadable(0, "b", 0);
    SplitColonFree("?");
  }

  lemma NoRecordIsRead()
    ensures ParseBlockIndex("").None?
  {
    SplitColonFree("");
  }

  /** Over records about "b" alone, the current anchor is "b" exactly when it is recorded with "a". */
  lemma CurrentAnchorOver(w: World, text: string, asked: Option<Mark>)
    ensures var db := BookOfC(w, map[MARK := text], asked).db;
            Farthest(db, 0, FOUR, if Included(db, 0, "b", "a") then 1 else 0)
  {
    hide Farthest, ParseBlockIndex, Out;
    var db := BookOfC(w, map[MARK := text], asked).db;
    assert FOUR[0] == "a" && FOUR[1] == "b" && FOUR[2] == "c" && FOUR[3] == "d";
    assert "b"[0] != "c"[0] && "b"[0] != "d"[0];
    NoRecordIsRead();
    assert !Included(db, 0, "c", "b") && !Included(db, 0, "d", "b") && !Included(db, 0, "c", "a");
    assert !Included(db, 0, "d", "a");
    DeadEndIsFarthest(db, 0, FOUR, if Included(db, 0, "b", "a") then [0, 1] else [0]);
  }

  /** A run that loses an inclusion. "a" is rotated, "b" puts the certificate into its block 0, and both
      are in order. "c" finds no record for "b" and asks; the vote on the block fills the record meanwhile;
      then the receipt of "b", whose block id is no block id, replaces it, and the answer of "c" for the
      current anchor moves back from "b" to "a". */
  lemma LosingRun(cfg: Config) returns (run: seq<RNet>)
    requires FourOk(cfg) && !cfg.honestReplies
    ensures ConfigOk(cfg) && AnchorsVote(cfg) && IsRecordRun(cfg, run) && |run| >= 2
    ensures var r, r' := run[|run| - 2], run[|run| - 1];
            && "c" in r.books && "c" in r'.books && OddReceiptTaken(cfg, r, r', "c")
            && Farthest(r.books["c"].db, 0, FOUR, 1) && Farthest(r'.books["c"].db, 0, FOUR, 0)
            && LANE_A in r'.books["c"].db.aarps && AarpCertified(cfg, r'.net, r'.books["c"].db.aarps[LANE_A])
  {
    hide ConfigOk, RunOf, IsRecordRun, AarpCertified, Farthest, NotedNet, LostNet, OddReceiptTaken, Included;
    var plain := BlocksSentOut(cfg);
    var net := plain[|plain| - 1];
    run := Lifted(cfg, plain);
    run := RequestSent(cfg, run, net);
    run := ReceiptCame(cfg, run, net);
    LateReceiptSpoils(cfg.w, net);
    CurrentAnchorOver(cfg.w, BlockId(0, "b", 0), Some(MARK));
    CurrentAnchorOver(cfg.w, "?", None);
    NetStays(cfg.w, net);
  }

  lemma NetStays(w: World, net: Net)
    ensures NotedNet(w, net).net == net && LostNet(w, net).net == net
  {
  }

  // ---- A record of another epoch ----

  /** Block 0 of "b" in epoch 1, holding the certificate of epoch 0. */
  function LaterBlock(w: World): Block {
    SignedBy(w, "b", Block("b", 0, FullId(E1(w)), Carried(w), 0, INIT_HASH, ""))
  }

  function LaterVote(w: World): Action { Vote("c", true, [E1(w)], FpRequest(LaterBlock(w), EMPTY_AFP), 4) }

  lemma LaterVoteCounts(cfg: Config, net: Net)
    requires FourOk(cfg) && "c" in net.nodes && Lane(1, "b") !in net.nodes["c"].stats
    requires Lane(1, "b") !in net.nodes["c"].disabled && 1 !in net.nodes["c"].finished
    ensures BlockUnforged(cfg, net, LaterBlock(cfg.w)) && BlockSigned(cfg.w, LaterBlock(cfg.w))
    ensures Enabled(cfg, net, LaterVote(cfg.w))
    ensures After(cfg, net, LaterVote(cfg.w)) ==
        WithNode(net, "c", VoteUpTo(cfg.w, net.nodes["c"], E1(cfg.w), FpRequest(LaterBlock(cfg.w), EMPTY_AFP), 4))
  {
    hide ConfigOk, HashInput, FullId, Carried, VoteUpTo, AfpUnforged;
    var w := cfg.w;
    KeysAreOk();
    NobodySigned(cfg, net);
    assert FOUR[1] == "b" && FindEpoch([E1(w)], FullId(E1(w))) == Some(E1(w));
    SignatureOf(cfg, "b", Block("b", 0, FullId(E1(w)), Carried(w), 0, INIT_HASH, ""));
  }

  lemma LaterBlockVoted(cfg: Config) returns (run: seq<Net>)
    requires FourOk(cfg) && !cfg.honestReplies
    ensures run != [] && RunOf(cfg, run) && AarpCertified(cfg, run[|run| - 1], Out(cfg.w))
    ensures BlockUnforged(cfg, run[|run| - 1], LaterBlock(cfg.w)) && BlockSigned(cfg.w, LaterBlock(cfg.w))
    ensures "c" in run[|run| - 1].nodes
    ensures Slot(1, "b", 0) in run[|run| - 1].nodes["c"].blocks
    ensures run[|run| - 1].nodes["c"].blocks[Slot(1, "b", 0)] == LaterBlock(cfg.w)
  {
    hide ConfigOk, IsRun, StoppedA, RestOfA, AarpCertified, GoodStat, GetHash, Out, Enabled, After, NextStat,
         Unforged, BlockSigned;
    run := OutIsCertified(cfg);
    var net := run[|run| - 1];
    LaterVoteCounts(cfg, net);
    run := RunExtends(cfg, run, LaterVote(cfg.w));
    var net' := run[|run| - 1];
    Network.IssuedGrows(cfg, net, net', GetHash(cfg.w, LaterBlock(cfg.w)), "b", LaterBlock(cfg.w).sig);
    AarpGrows(cfg, net, net', Out(cfg.w));
  }

  /** A run in which a vote on a block of epoch 1 that holds a certificate of epoch 0, which verifies there
      as well, puts a block id of epoch 1 under a record of epoch 0. */
  lemma ForeignEpochRecorded(cfg: Config) returns (run: seq<RNet>)
    requires FourOk(cfg) && !cfg.honestReplies
    ensures ConfigOk(cfg) && AnchorsVote(cfg) && IsRecordRun(cfg, run) && run != []
    ensures var r := run[|run| - 1];
            && "c" in r.books && r.books["c"].db.marks == map[MARK := BlockId(1, "b", 0)]
            && ("c", MARK) in r.origins && r.origins[("c", MARK)].ByVote?
            && AarpCertified(cfg, r.net, r.origins[("c", MARK)].p)
  {
    hide ConfigOk, RunOf, IsRecordRun, AarpCertified, AarpOk, GoodStat, FullId, GetHash, BlockSigned, BlockUnforged,
         BlockId;
    var w := cfg.w;
    var plain := LaterBlockVoted(cfg);
    var net := plain[|plain| - 1];
    run := Lifted(cfg, plain);
    OutVerifies(cfg, net);
    assert FOUR[1] == "b" && LaterBlock(w).extra.Aarps()[0] == Out(w);
    run := PageTurned(cfg, run, Bare(net), NoteVoted(E1(w), LaterBlock(w), Out(w)));
  }
}
