/** Runs of the four anchors that show the theorems over runs to be as strong as they can be: bounds that
    are attained, and hypotheses without which they fail. */
module SharpBounds {
  import opened Text
  import opened Structures
  import opened Payloads
  import opened Certificates
  import opened Voter
  import opened Maker
  import opened Network
  import opened Safety
  import opened AnchorNodes
  import opened FourAnchors

  // ---- A certificate whose PrevBlockHash holds ':' ----

  /** The hash under which the certificate of block 0 can be read with another id. */
  function Relabelled(w: World): string { "a" + ":" + Itoa(0) + ":" + GetHash(w, BlockOfA(w)) }

  /** The block's own signatures read with the epoch alone as block id: what "b" replies. */
  function ForeignStat(w: World): VotingStat {
    VotingStat(0, Relabelled(w), Afp(INIT_HASH, Itoa(0), Relabelled(w), Sigs(Payload(VoteOfA(w)))))
  }

  lemma SameText(p: string, z: string, c: string, h: string, x: string)
    ensures p + ":" + (z + ":" + c + ":" + z) + ":" + h + ":" + x ==
        p + ":" + z + ":" + (c + ":" + z + ":" + h) + ":" + x
  {
    assert (z + ":" + c + ":" + z) + ":" + h == z + ":" + (c + ":" + z + ":" + h);
    assert p + ":" + (z + ":" + c + ":" + z) + ":" + h == p + ":" + ((z + ":" + c + ":" + z) + ":" + h);
    assert p + ":" + z + ":" + (c + ":" + z + ":" + h) == p + ":" + (z + ":" + (c + ":" + z + ":" + h));
  }

  lemma ForeignStatFits(w: World)
    ensures StatOfA(w, ForeignStat(w))
  {
    hide GetHash;
    NatTextRoundTrip(0);
    SameText(INIT_HASH, Itoa(0), "a", GetHash(w, BlockOfA(w)), Itoa(0));
  }

  /** The rotation signed on that stat, read as a certificate of block 0. */
  function ColonAfp(w: World): Afp {
    Afp(ARP_TAG + ":" + "a", BlockId(0, "a", 0), GetHash(w, BlockOfA(w)), Sigs(ArpPayload("a", 0, Relabelled(w), 0)))
  }

  lemma ColonAfpIsSigned(w: World)
    ensures SignedAs(ColonAfp(w), Arp(0, "a", 0, Relabelled(w)))
    ensures ColonAfp(w).blockId == BlockId(0, "a", 0) && !ColonFree(ColonAfp(w).prevBlockHash)
  {
    hide GetHash, BlockOfA, ArpPayload, FpPayload, BlockId;
    assert ColonAfp(w).prevBlockHash[|ARP_TAG|] == ':';
    PayloadsMeetOverColons("a", "a", 0, GetHash(w, BlockOfA(w)), 0);
  }

  /** A run that certifies block 0 of an anchor running this code with a PrevBlockHash holding ':', with
      one faulty member in a quorum of four. Its reply spells the block's own signatures under a shorter
      block id, two others take it and sign the rotation on that stat, and their signatures, read as
      those of a finalization payload, certify block 0. */
  lemma ColonCertificateReached(cfg: Config) returns (run: seq<Net>, afp: Afp)
    requires FourOk(cfg) && !cfg.honestReplies
    ensures run != [] && RunOf(cfg, run) && CertifiedAt(cfg, run[|run| - 1], afp, 0, "a", 0)
    ensures !ColonFree(afp.prevBlockHash)
    ensures !exists chain :: chain != [] && chain[|chain| - 1] == afp && IsChain(cfg, run[|run| - 1], chain, 0, "a")
  {
    hide ConfigOk, IsRun, IsChain, StoppedA, RestOfA, Certified, StatOfA, SignedAs, VoteOfA, Relabelled, BlockId,
         ColonAfp, ColonFree, AfpOk, AfpUnforged;
    var w := cfg.w;
    afp := ColonAfp(w);
    ForeignStatFits(w);
    run := AStopped(cfg, ForeignStat(w));
    ColonAfpIsSigned(w);
    SignedIsCertified(cfg, run[|run| - 1], Arp(0, "a", 0, Relabelled(w)), afp);
    assert FOUR[0] == "a";
    TopsChainIff(cfg, run, |run| - 1, afp, 0, "a", 0);
  }

  // ---- Rotation points and the cut ----

  /** "c" and "d" vote for blocks 0 to k + 1, ban "b" and sign its rotation at k. */
  lemma BRotated(cfg: Config, x: ExtraData, k: nat) returns (run: seq<Net>, n: Node)
    requires FourOk(cfg)
    ensures At(cfg, run, START, n, n) && StatOf(n, LANE_B) == BStat(cfg.w, x, k) && LANE_B in n.disabled
    ensures BVote(cfg.w, x, k + 1) in n.signed && Arp(0, "b", k, BStat(cfg.w, x, k).hash) in n.signed
  {
    hide ConfigOk, At, BStat, BVote, BNode, SignedAs;
    BStatIs(cfg.w, x, k);
    run := Started(cfg);
    run := BVoted(cfg, run, START, EMPTY_NODE, x, k + 1);
    n := BNode(cfg.w, x, EMPTY_NODE, k + 1);
    run := BothSwitchOff(cfg, run, START, n, LANE_B);
    n := Disable(n, LANE_B);
    run := BothRotate(cfg, run, START, n, LANE_B, BVote(cfg.w, x, k));
    n := Rotating(n, LANE_B);
  }

  /** The cut is sharp at every index: a run with a rotation certificate at k and a finalization
      certificate at k + 1 of the same anchor. */
  lemma CutIsSharp(cfg: Config, k: nat) returns (run: seq<Net>, aarp: Aarp, afp: Afp)
    requires FourOk(cfg) && k < MAX_INT64
    ensures run != [] && RunOf(cfg, run) && aarp.epochIndex == 0 && aarp.anchor == "b" && aarp.votingStat.index == k
    ensures AarpCertified(cfg, run[|run| - 1], aarp) && CertifiedAt(cfg, run[|run| - 1], afp, 0, "b", k + 1)
  {
    hide ConfigOk, IsRun, BStat, BVote, SignedAs, AarpCertified, Certified, BlockId, NamesItsBlock;
    var w, stat, n := cfg.w, BStat(cfg.w, NO_EXTRA, k), EMPTY_NODE;
    afp := BAfp(w, NO_EXTRA, k + 1);
    run, n := BRotated(cfg, NO_EXTRA, k);
    BStatIs(w, NO_EXTRA, k);
    aarp := Assembled(E0, "b", stat, Sigs(RotationText(E0, "b", stat)));
    assert FOUR[1] == "b";
    RotationIsCertified(cfg, run[|run| - 1], "b", stat);
    BAfpIsSigned(w, NO_EXTRA, k + 1);
    SignedIsCertified(cfg, run[|run| - 1], BVote(w, NO_EXTRA, k + 1), afp);
  }

  /** The collector for either anchor takes the certificate of block j of "b" as an upgrade; it checks no
      creator. */
  lemma BothUpgrade(cfg: Config, run: seq<Net>, rest: Net, n: Node, lane: Lane, local: VotingStat, x: ExtraData, j: nat)
    returns (run': seq<Net>)
    requires FourOk(cfg) && At(cfg, run, rest, n, n) && lane.epoch == 0 && local.index < j <= MAX_INT64
    requires BVote(cfg.w, x, j) in n.signed && (cfg.honestReplies ==> (lane, BStat(cfg.w, x, j)) in rest.replies)
    ensures var n' := Raise(n, lane, BStat(cfg.w, x, j)); At(cfg, run', rest, n', n')
  {
    hide ConfigOk, At, AfpOk, AfpUnforged, SignedAs, BAfp, BVote, GetHash, BlockId;
    var w, stat := cfg.w, BStat(cfg.w, x, j);
    var n' := Raise(n, lane, stat);
    BStatIs(w, x, j);
    UpgradeIs(cfg, Quad(rest, n, n), lane, local, x, j);
    UpgradeIs(cfg, Quad(rest, n', n), lane, local, x, j);
    run' := BothStep(cfg, run, rest, n, n', TakeUpgrade("c", lane, local, stat), TakeUpgrade("d", lane, local, stat));
  }

  lemma UpgradeIs(cfg: Config, net: Net, lane: Lane, local: VotingStat, x: ExtraData, j: nat)
    requires FourOk(cfg) && "c" in net.nodes && "d" in net.nodes && lane.epoch == 0 && local.index < j <= MAX_INT64
    requires BVote(cfg.w, x, j) in net.nodes["c"].signed && BVote(cfg.w, x, j) in net.nodes["d"].signed
    requires cfg.honestReplies ==> (lane, BStat(cfg.w, x, j)) in net.replies
    ensures ReplyAllowed(cfg, net, lane, BStat(cfg.w, x, j)) && UpgradeAcceptable(cfg.w, E0, local, BStat(cfg.w, x, j))
  {
    hide ConfigOk, AfpOk, AfpUnforged, SignedAs, BVote, GetHash, BlockId;
    var w, stat := cfg.w, BStat(cfg.w, x, j);
    BAfpIsSigned(w, x, j);
    SignedIsCertified(cfg, net, BVote(w, x, j), BAfp(w, x, j));
    KeysAreOk();
    assert FOUR[1] == "b";
    BlockIdRoundTrip(0, "b", j);
  }

  lemma VotedAhead(cfg: Config, net: Net, x: ExtraData, k: nat)
    requires FourOk(cfg) && "c" in net.nodes && "d" in net.nodes && "a" in net.nodes && net.nodes["a"] == EMPTY_NODE
    requires BVote(cfg.w, x, k + 1) in net.nodes["c"].signed && BVote(cfg.w, x, k + 1) in net.nodes["d"].signed
    ensures var req := BRequest(cfg.w, x, k + 2); var s := VoteUpTo(cfg.w, EMPTY_NODE, E0, req, 4);
            && Enabled(cfg, net, Vote("a", true, [E0], req, 4))
            && After(cfg, net, Vote("a", true, [E0], req, 4)) == WithNode(net, "a", s)
            && StatOf(s, LANE_B) == BStat(cfg.w, x, k + 1)
  {
    hide ConfigOk, GetHash, Payload, BlockId, BVote, SignedAs, AfpOk, AfpUnforged, MayVote, FullId, CanSend;
    var w, req := cfg.w, BRequest(cfg.w, x, k + 2);
    BAfpIsSigned(w, x, k + 1);
    SignedIsCertified(cfg, net, BVote(w, x, k + 1), BAfp(w, x, k + 1));
    BMayBeVoted(cfg, net, x, k + 2, EMPTY_NODE);
    CanVote(cfg, net, "a", req);
    assert FindEpoch([E0], FullId(E0)) == Some(E0);
  }

  /** "a" answers a request or bans somebody. */
  lemma StepOfA(cfg: Config, run: seq<Net>, s: Node, s': Node, n: Node, act: Action) returns (run': seq<Net>)
    requires FourOk(cfg) && At(cfg, run, Rest(s, FRESH), n, n) && Enabled(cfg, run[|run| - 1], act)
    requires After(cfg, run[|run| - 1], act) == WithNode(run[|run| - 1], "a", s')
    ensures At(cfg, run', Rest(s', FRESH), n, n)
  {
    hide ConfigOk, IsRun, After, Enabled;
    run' := RunExtends(cfg, run, act);
    assert run'[|run'| - 1] == Quad(Rest(s', FRESH), n, n);
  }

  lemma ReportOfA(cfg: Config, run: seq<Net>, s: Node, n: Node) returns (run': seq<Net>, rest: Net)
    requires FourOk(cfg) && At(cfg, run, Rest(s, FRESH), n, n)
    ensures At(cfg, run', rest, n, n) && rest.replies == {(LANE_B, StatOf(s, LANE_B))}
  {
    hide ConfigOk, IsRun;
    run' := RunExtends(cfg, run, Report("a", LANE_B));
    rest := Rest(s, FRESH).(replies := {(LANE_B, StatOf(s, LANE_B))});
    assert run'[|run'| - 1] == Quad(rest, n, n);
  }

  /** "a" votes for block k + 2, bans "b" and reports its stat. */
  lemma AheadReported(cfg: Config, run: seq<Net>, n: Node, x: ExtraData, k: nat) returns (run': seq<Net>, rest: Net)
    requires FourOk(cfg) && At(cfg, run, START, n, n) && BVote(cfg.w, x, k + 1) in n.signed
    ensures At(cfg, run', rest, n, n) && rest.replies == {(LANE_B, BStat(cfg.w, x, k + 1))}
  {
    hide ConfigOk, IsRun, BStat, BVote, BRequest, VoteUpTo, VoteStep, MayVote;
    var req := BRequest(cfg.w, x, k + 2);
    var s := VoteUpTo(cfg.w, EMPTY_NODE, E0, req, 4);
    VotedAhead(cfg, run[|run| - 1], x, k);
    run' := StepOfA(cfg, run, EMPTY_NODE, s, n, Vote("a", true, [E0], req, 4));
    run' := StepOfA(cfg, run', s, Disable(s, LANE_B), n, SwitchOff("a", LANE_B));
    run', rest := ReportOfA(cfg, run', Disable(s, LANE_B), n);
  }

  /** Two rotation points can differ, at every index and with all stat replies from nodes running this code:
      "c" and "d" sign the rotation of "b" at k, then their collectors learn from "a", which has voted on,
      that block k + 1 is approved, and they sign it there as well. */
  lemma PointsDiffer(cfg: Config, k: nat) returns (run: seq<Net>, p: Aarp, q: Aarp)
    requires FourOk(cfg) && k < MAX_INT64
    ensures run != [] && RunOf(cfg, run) && AarpCertified(cfg, run[|run| - 1], p) &&
        AarpCertified(cfg, run[|run| - 1], q)
    ensures p.epochIndex == q.epochIndex == 0 && p.anchor == q.anchor == "b"
    ensures p.votingStat.index == k && q.votingStat.index == k + 1
  {
    hide ConfigOk, IsRun, BStat, BVote, SignedAs, AarpCertified, NamesItsBlock;
    var w, rest, n := cfg.w, START, EMPTY_NODE;
    var low, high := BStat(w, NO_EXTRA, k), BStat(w, NO_EXTRA, k + 1);
    BStatIs(w, NO_EXTRA, k);
    BStatIs(w, NO_EXTRA, k + 1);
    run, n := BRotated(cfg, NO_EXTRA, k);
    run, rest := AheadReported(cfg, run, n, NO_EXTRA, k);
    run := BothUpgrade(cfg, run, rest, n, LANE_B, low, NO_EXTRA, k + 1);
    n := Raise(n, LANE_B, high);
    run := BothRotate(cfg, run, rest, n, LANE_B, BVote(w, NO_EXTRA, k + 1));
    assert FOUR[1] == "b";
    p := Assembled(E0, "b", low, Sigs(RotationText(E0, "b", low)));
    q := Assembled(E0, "b", high, Sigs(RotationText(E0, "b", high)));
    RotationIsCertified(cfg, run[|run| - 1], "b", low);
    RotationIsCertified(cfg, run[|run| - 1], "b", high);
  }

  // ---- Two blocks of "b" at one index ----

  /** Block k again, at another time. */
  function TwinBlock(w: World, k: nat): Block { SignedBy(w, "b", BBlock(w, NO_EXTRA, k).(time := 1)) }

  function TwinRequest(w: World, k: nat): FpRequest { FpRequest(TwinBlock(w, k), BRequest(w, NO_EXTRA, k).prevAfp) }

  function TwinVote(w: World, k: nat): Statement {
    Fp(BPrev(w, NO_EXTRA, k), 0, "b", k, GetHash(w, TwinBlock(w, k)), TwinBlock(w, k))
  }

  function TwinAfp(w: World, k: nat): Afp {
    Afp(BPrev(w, NO_EXTRA, k), BlockId(0, "b", k), GetHash(w, TwinBlock(w, k)), Sigs(Payload(TwinVote(w, k))))
  }

  lemma TwinDiffers(cfg: Config, k: nat)
    requires FourOk(cfg)
    ensures GetHash(cfg.w, TwinBlock(cfg.w, k)) != GetHash(cfg.w, BBlock(cfg.w, NO_EXTRA, k))
  {
    hide BPrev, FaultyBound, Numeral;
    KeysAreOk();
    assert FOUR[1] == "b";
    InitHashIsHex();
    FullIdColonFree(E0);
    HashFixesContent(cfg.w, TwinBlock(cfg.w, k), BBlock(cfg.w, NO_EXTRA, k));
  }

  /** A voter that has voted for block k is as ready for its twin. */
  lemma TwinMayBeVoted(cfg: Config, net: Net, k: nat, s: Node)
    requires FourOk(cfg) && MayVote(cfg.w, s, E0, BRequest(cfg.w, NO_EXTRA, k)) && StatOf(s, LANE_B).index < k
    requires CanSend(cfg, net, BRequest(cfg.w, NO_EXTRA, k))
    ensures MayVote(cfg.w, s, E0, TwinRequest(cfg.w, k)) && CanSend(cfg, net, TwinRequest(cfg.w, k))
    ensures TwinVote(cfg.w, k) in VoteUpTo(cfg.w, s, E0, TwinRequest(cfg.w, k), 4).signed
  {
    hide ConfigOk, FullId, Payload, AfpOk, AfpUnforged, BlockId, HashInput;
    KeysAreOk();
    SignatureOf(cfg, "b", BBlock(cfg.w, NO_EXTRA, k).(time := 1));
  }

  /** A creator not running this code can get two blocks certified at one index, at every index: a voter
      that has voted for block k remembers k - 1 and votes for another block k as well. */
  lemma ForkReached(cfg: Config, k: nat) returns (run: seq<Net>, a: Afp, b: Afp)
    requires FourOk(cfg)
    ensures run != [] && RunOf(cfg, run) && a.blockHash != b.blockHash
    ensures CertifiedAt(cfg, run[|run| - 1], a, 0, "b", k) && CertifiedAt(cfg, run[|run| - 1], b, 0, "b", k)
  {
    hide ConfigOk, IsRun, GetHash, BBlock, FpPayload, BNode, BVote, TwinVote, SignedAs, AfpOk, AfpUnforged, MayVote,
         CanSend, VoteUpTo, BlockId;
    var w, x := cfg.w, NO_EXTRA;
    run := Started(cfg);
    run := BVoted(cfg, run, START, EMPTY_NODE, x, k);
    var n := BNode(w, x, EMPTY_NODE, k);
    var net := run[|run| - 1];
    if k > 0 {
      BAfpIsSigned(w, x, k - 1);
      SignedIsCertified(cfg, net, BVote(w, x, k - 1), BAfp(w, x, k - 1));
    }
    BMayBeVoted(cfg, net, x, k, n);
    TwinMayBeVoted(cfg, net, k, n);
    run := BothVote(cfg, run, START, n, TwinRequest(w, k));
    a, b := BAfp(w, x, k), TwinAfp(w, k);
    net := run[|run| - 1];
    VotesStay(w, n, TwinRequest(w, k));
    BAfpIsSigned(w, x, k);
    SignedIsCertified(cfg, net, BVote(w, x, k), a);
    assert SignedAs(b, TwinVote(w, k)) by { TwinAfpIsSigned(w, k); }
    SignedIsCertified(cfg, net, TwinVote(w, k), b);
    TwinDiffers(cfg, k);
  }

  lemma VotesStay(w: World, s: Node, req: FpRequest)
    ensures s.signed <= VoteUpTo(w, s, E0, req, 4).signed
  {
  }

  lemma TwinAfpIsSigned(w: World, k: nat)
    ensures SignedAs(TwinAfp(w, k), TwinVote(w, k))
  {
    hide GetHash, FpPayload, BlockId, BBlock;
  }

  // ---- A rotation point no certificate backs ----

  /** The rotation certificate "b" makes of a rotation signed for "a" at its own block j; the verifier does
      not look at the signatures inside. */
  function FarAarp(w: World, j: nat): Aarp {
    var h := BStat(w, NO_EXTRA, j).hash;
    var stat := VotingStat(j, h, Afp("", BlockId(0, "a", j), h, map[]));
    Assembled(E0, "a", stat, Sigs(RotationText(E0, "a", stat)))
  }

  ghost predicate OnlyFirstCertified(cfg: Config, net: Net) {
    forall afp, i :: CertifiedAt(cfg, net, afp, 0, "a", i) ==> i == 0
  }

  /** With a reply from a node not running this code rotation points agree no longer: a run with rotation
      certificates of an honest anchor at 0 and at any j, in which nothing of it is certified but block 0.
      The collector takes the certificate of somebody else's block j as an upgrade. */
  lemma AnyPointReached(cfg: Config, j: nat) returns (run: seq<Net>, p: Aarp, q: Aarp)
    requires FourOk(cfg) && !cfg.honestReplies && 0 < j <= MAX_INT64
    ensures run != [] && RunOf(cfg, run) && AarpCertified(cfg, run[|run| - 1], p) &&
        AarpCertified(cfg, run[|run| - 1], q)
    ensures p.epochIndex == q.epochIndex == 0 && p.anchor == q.anchor == "a"
    ensures p.votingStat.index == 0 && q.votingStat.index == j && OnlyFirstCertified(cfg, run[|run| - 1])
  {
    hide ConfigOk, IsRun, GoodStat, BStat, VoteOfA, BVote, SignedAs, AarpCertified, NamesItsBlock, RestOfA, VotedA,
         BNode,
         OnlyFirstCertified;
    var w, n := cfg.w, BNode(cfg.w, NO_EXTRA, VotedA(cfg.w), j);
    GoodStatFits(w);
    BStatIs(w, NO_EXTRA, j);
    run := BlockOfAVoted(cfg);
    run := BVoted(cfg, run, RestOfA(w), VotedA(w), NO_EXTRA, j);
    run := Stop(cfg, run, n, GoodStat(w));
    n := Stopped(n, GoodStat(w));
    run := BothUpgrade(cfg, run, RestOfA(w), n, LANE_A, GoodStat(w), NO_EXTRA, j);
    n := Raise(n, LANE_A, BStat(w, NO_EXTRA, j));
    run := BothRotate(cfg, run, RestOfA(w), n, LANE_A, BVote(w, NO_EXTRA, j));
    assert FOUR[0] == "a";
    p, q := Assembled(E0, "a", GoodStat(w), Sigs(RotationText(E0, "a", GoodStat(w)))), FarAarp(w, j);
    RotationIsCertified(cfg, run[|run| - 1], "a", GoodStat(w));
    FarAarpNames(w, j);
    RotationIsCertified(cfg, run[|run| - 1], "a", q.votingStat);
    OneBlockCertified(cfg, run);
  }

  lemma FarAarpNames(w: World, j: nat)
    ensures NamesItsBlock(LANE_A, FarAarp(w, j).votingStat)
  {
    hide GetHash, BlockId, Payload;
  }

  lemma OneBlockCertified(cfg: Config, run: seq<Net>)
    requires FourOk(cfg) && run != [] && RunOf(cfg, run) && run[|run| - 1].makers == RestOfA(cfg.w).makers
    ensures OnlyFirstCertified(cfg, run[|run| - 1])
  {
    hide ConfigOk, IsRun, CertifiedAt, GetHash;
    var net := run[|run| - 1];
    assert FOUR[0] == "a";
    forall afp, i | CertifiedAt(cfg, net, afp, 0, "a", i)
      ensures i == 0
    {
      NoFork(cfg, run, |run| - 1, |run| - 1, afp, afp, 0, "a", i);
    }
  }
}
