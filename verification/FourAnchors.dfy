/** A network of four anchors, "b" of them not running this code, in which signatures are ideal, and the
    pieces its runs are put together from: every signature in them is genuine. */
module FourAnchors {
  import opened Text
  import opened Structures
  import opened Payloads
  import opened Certificates
  import opened Voter
  import opened Maker
  import opened Network
  import opened Safety
  import opened AnchorNodes

  const HONEST: set<string> := {"a", "c", "d"}
  const E0: Epoch := Epoch(0, INIT_HASH, FOUR, FOUR, 0)
  const LANE_A: Lane := Lane(0, "a")
  const LANE_B: Lane := Lane(0, "b")
  const LANES: set<Lane> := {Lane(0, "a"), Lane(0, "c"), Lane(0, "d"), Lane(1, "a"), Lane(1, "c"), Lane(1, "d")}

  function E1(w: World): Epoch { Epoch(1, w.blake3(INIT_HASH), FOUR, FOUR, 1) }

  /** The quorum is the registry, as in every epoch; a signature of m by k is the text k + m. */
  ghost predicate FourOk(cfg: Config) {
    && ConfigOk(cfg) && cfg.epochs == map[0 := E0, 1 := E1(cfg.w)] && cfg.honest == HONEST
    && cfg.crashes && forall m, k, s :: cfg.w.verify(m, k, s) <==> s == k + m
  }

  lemma KeysAreOk()
    ensures forall c :: c in FOUR ==> ColonFree(c) && !Numeral(c)
    ensures FaultyBound(FOUR, HONEST) && "b" !in HONEST && |FOUR| == 4
  {
    assert FOUR[1..] == ["b", "c", "d"] && ["b", "c", "d"][1..] == ["c", "d"] && ["c", "d"][1..] == ["d"];
    assert ["d"][1..] == [];
    assert "b"[0] == 'b' && "a"[0] == 'a' && "c"[0] == 'c' && "d"[0] == 'd';
    assert FaultyCount(["d"], HONEST) == 0 && FaultyCount(["c", "d"], HONEST) == 0;
    assert FaultyCount(["b", "c", "d"], HONEST) == 1 && FaultyCount(FOUR, HONEST) == 1;
    forall c, n | c in FOUR
      ensures c != Itoa(n)
    {
      NatTextRoundTrip(if n < 0 then -n else n);
      assert n < 0 ==> Itoa(n)[0] == '-';
      assert n >= 0 ==> IsDigit(Itoa(n)[0]);
    }
  }

  lemma FourExist(honestReplies: bool) returns (cfg: Config)
    ensures FourOk(cfg) && cfg.honestReplies == honestReplies
  {
    hide FaultyBound, Numeral;
    var w := SoundWorldsExist();
    w := w.(verify := (m: string, k: string, s: string) => s == k + m);
    assert Sound(w);
    cfg := Config(w, map[0 := E0, 1 := E1(w)], HONEST, honestReplies, true);
    KeysAreOk();
    InitHashIsHex();
    assert EpochOk(cfg, 0, E0) && EpochOk(cfg, 1, E1(w));
  }

  // ---- States and steps ----

  /** The voters "c" and "d" and the rest of the network. */
  function Quad(rest: Net, nc: Node, nd: Node): Net { rest.(nodes := rest.nodes["c" := nc]["d" := nd]) }

  /** The rest, when only the loops of "a" have moved. */
  function Rest(n: Node, m: Maker): Net {
    Net(map["a" := n], (map lane | lane in LANES :: FRESH)[LANE_A := m], {})
  }

  const START: Net := Rest(EMPTY_NODE, FRESH)

  ghost predicate At(cfg: Config, run: seq<Net>, rest: Net, nc: Node, nd: Node) {
    run != [] && RunOf(cfg, run) && run[|run| - 1] == Quad(rest, nc, nd)
  }

  lemma Started(cfg: Config) returns (run: seq<Net>)
    requires FourOk(cfg)
    ensures At(cfg, run, START, EMPTY_NODE, EMPTY_NODE)
  {
    hide ConfigOk;
    run := [Quad(START, EMPTY_NODE, EMPTY_NODE)];
  }

  /** "a" takes one step of its loops. */
  lemma LoopStep(cfg: Config, run: seq<Net>, n: Node, m: Maker, ev: Event) returns (run': seq<Net>)
    requires FourOk(cfg) && At(cfg, run, Rest(n, m), EMPTY_NODE, EMPTY_NODE) && Can(cfg.w, E0, "a", n, m, ev)
    requires !ev.Certify?
    ensures var r := Do(cfg.w, E0, "a", n, m, ev); At(cfg, run', Rest(r.0, r.1), EMPTY_NODE, EMPTY_NODE)
  {
    hide ConfigOk, IsRun, Do, Can;
    run' := RunExtends(cfg, run, Run(LANE_A, ev));
    var r := Do(cfg.w, E0, "a", n, m, ev);
    assert run'[|run'| - 1] == Quad(Rest(r.0, r.1), EMPTY_NODE, EMPTY_NODE);
  }

  /** First "c" and then "d" does the same thing to the same state. */
  lemma BothStep(cfg: Config, run: seq<Net>, rest: Net, n: Node, n': Node, ac: Action, ad: Action)
    returns (run': seq<Net>)
    requires FourOk(cfg) && At(cfg, run, rest, n, n)
    requires Enabled(cfg, Quad(rest, n, n), ac) && Enabled(cfg, Quad(rest, n', n), ad)
    requires After(cfg, Quad(rest, n, n), ac) == WithNode(Quad(rest, n, n), "c", n')
    requires After(cfg, Quad(rest, n', n), ad) == WithNode(Quad(rest, n', n), "d", n')
    ensures At(cfg, run', rest, n', n')
  {
    hide ConfigOk, IsRun, After, Enabled;
    assert WithNode(Quad(rest, n, n), "c", n') == Quad(rest, n', n);
    assert WithNode(Quad(rest, n', n), "d", n') == Quad(rest, n', n');
    run' := RunExtends(cfg, run, ac);
    run' := RunExtends(cfg, run', ad);
  }

  // ---- Certificates of "b", "c" and "d" ----

  /** The three signatures of a text. */
  function Sigs(m: string): map<string, string> { map["b" := "b" + m, "c" := "c" + m, "d" := "d" + m] }

  lemma SigsVerify(cfg: Config, m: string)
    requires FourOk(cfg)
    ensures |ValidSigners(cfg.w, m, Sigs(m), FOUR)| >= Majority(|FOUR|)
    ensures |RotationSigners(cfg.w, m, Sigs(m), FOUR)| >= Majority(|FOUR|)
    ensures forall k :: k in Sigs(m) ==> k in FOUR && Sigs(m)[k] != "" && cfg.w.verify(m, k, Sigs(m)[k])
    ensures |Sigs(m)| >= Majority(|FOUR|)
  {
    hide ConfigOk;
    ThreeSigners();
    var signers := Sigs(m).Keys;
    assert forall k :: k in signers ==> Sigs(m)[k] == k + m && k != "";
    assert signers == {"b", "c", "d"};
    assert ValidSigners(cfg.w, m, Sigs(m), FOUR) == signers;
    assert RotationSigners(cfg.w, m, Sigs(m), FOUR) == signers;
  }

  lemma ThreeSigners()
    ensures |{"b", "c", "d"}| == Majority(|FOUR|) && forall k :: k in {"b", "c", "d"} ==> k in FOUR
  {
    assert FOUR[1] == "b" && FOUR[2] == "c" && FOUR[3] == "d";
    assert "b"[0] != "c"[0] && "c"[0] != "d"[0] && "b"[0] != "d"[0];
  }

  /** They forge nothing once "c" and "d" have stated the text; and as signatures of another text
      they verify for nobody. */
  lemma SigsUnforged(cfg: Config, net: Net, m: string, m': string)
    requires FourOk(cfg) && (m' == m ==> Stated(net, "c", m) && Stated(net, "d", m))
    ensures ProofsUnforged(cfg, net, m', Sigs(m))
  {
    hide ConfigOk, Payload;
    KeysAreOk();
    forall k | k in Sigs(m)
      ensures Unforged(cfg, net, m', k, Sigs(m)[k])
    {
      if k in cfg.honest && cfg.w.verify(m', k, Sigs(m)[k]) {
        assert (k + m)[|k|..] == m && (k + m')[|k|..] == m';
      }
    }
  }

  /** A certificate of this epoch over a text both voters have stated. */
  predicate SignedAs(afp: Afp, v: Statement) { AfpPayload(afp, 0) == Payload(v) && afp.proofs == Sigs(Payload(v)) }

  lemma SignedIsCertified(cfg: Config, net: Net, v: Statement, afp: Afp)
    requires FourOk(cfg) && "c" in net.nodes && "d" in net.nodes
    requires v in net.nodes["c"].signed && v in net.nodes["d"].signed && SignedAs(afp, v)
    ensures AfpOk(cfg.w, afp, E0) && Certified(cfg, net, afp, 0)
    ensures forall e :: e in cfg.epochs ==> AfpUnforged(cfg, net, afp, e)
  {
    hide ConfigOk, Payload, FpPayload, ProofsUnforged, ValidSigners;
    var m := Payload(v);
    SigsVerify(cfg, m);
    assert Stated(net, "c", m) && Stated(net, "d", m);
    forall e | e in cfg.epochs
      ensures AfpUnforged(cfg, net, afp, e)
    {
      SigsUnforged(cfg, net, m, AfpPayload(afp, e));
    }
  }

  // ---- What "c" and "d" do together ----

  ghost predicate CanSend(cfg: Config, net: Net, req: FpRequest) {
    BlockUnforged(cfg, net, req.block) && forall e :: e in cfg.epochs ==> AfpUnforged(cfg, net, req.prevAfp, e)
  }

  lemma SendGrows(cfg: Config, net: Net, net': Net, req: FpRequest)
    requires Grows(net, net') && CanSend(cfg, net, req)
    ensures CanSend(cfg, net', req)
  {
    hide Grows, GetHash, FpPayload, Unforged, ProofsUnforged;
    Network.IssuedGrows(cfg, net, net', GetHash(cfg.w, req.block), req.block.creator, req.block.sig);
    forall e | e in cfg.epochs
      ensures AfpUnforged(cfg, net', req.prevAfp, e)
    {
      ProofsUnforgedGrow(cfg, net, net', AfpPayload(req.prevAfp, e), req.prevAfp.proofs);
    }
  }

  lemma BothVote(cfg: Config, run: seq<Net>, rest: Net, n: Node, req: FpRequest) returns (run': seq<Net>)
    requires FourOk(cfg) && At(cfg, run, rest, n, n) && req.block.epoch == FullId(E0)
    requires MayVote(cfg.w, n, E0, req) && CanSend(cfg, Quad(rest, n, n), req)
    ensures var n' := VoteUpTo(cfg.w, n, E0, req, 4); At(cfg, run', rest, n', n')
  {
    hide ConfigOk, At, MayVote, FullId, CanSend, GetHash, BlockUnforged, AfpUnforged, FpStatement, NextStat;
    var n' := VoteUpTo(cfg.w, n, E0, req, 4);
    assert FindEpoch([E0], FullId(E0)) == Some(E0);
    SendGrows(cfg, Quad(rest, n, n), Quad(rest, n', n), req);
    assert CanSend(cfg, Quad(rest, n, n), req) && CanSend(cfg, Quad(rest, n', n), req);
    CanVote(cfg, Quad(rest, n, n), "c", req);
    CanVote(cfg, Quad(rest, n', n), "d", req);
    run' := BothStep(cfg, run, rest, n, n', Vote("c", true, [E0], req, 4), Vote("d", true, [E0], req, 4));
  }

  lemma CanVote(cfg: Config, net: Net, k: string, req: FpRequest)
    requires FourOk(cfg) && k in net.nodes && CanSend(cfg, net, req)
    ensures Enabled(cfg, net, Vote(k, true, [E0], req, 4))
  {
    hide ConfigOk, BlockUnforged, AfpUnforged;
  }

  /** The health checker takes this stat from a reply. */
  lemma BothPull(cfg: Config, run: seq<Net>, rest: Net, n: Node, lane: Lane, stat: VotingStat, v: Statement)
    returns (run': seq<Net>)
    requires FourOk(cfg) && At(cfg, run, rest, n, n) && lane.epoch == 0
    requires stat.index >= 0 && stat.hash == stat.afp.blockHash && stat.afp.blockId != ""
    requires v in n.signed && SignedAs(stat.afp, v) && (cfg.honestReplies ==> (lane, stat) in rest.replies)
    ensures var n' := Raise(n, lane, stat); At(cfg, run', rest, n', n')
  {
    hide ConfigOk, At, AfpOk, AfpUnforged, SignedAs;
    var n' := Raise(n, lane, stat);
    SignedIsCertified(cfg, Quad(rest, n, n), v, stat.afp);
    SignedIsCertified(cfg, Quad(rest, n', n), v, stat.afp);
    run' := BothStep(cfg, run, rest, n, n', TakePull("c", lane, TEMPLATE, stat), TakePull("d", lane, TEMPLATE, stat));
  }

  lemma BothSwitchOff(cfg: Config, run: seq<Net>, rest: Net, n: Node, lane: Lane) returns (run': seq<Net>)
    requires FourOk(cfg) && At(cfg, run, rest, n, n)
    ensures At(cfg, run', rest, Disable(n, lane), Disable(n, lane))
  {
    hide ConfigOk, At;
    run' := BothStep(cfg, run, rest, n, Disable(n, lane), SwitchOff("c", lane), SwitchOff("d", lane));
  }

  function Rotating(n: Node, lane: Lane): Node {
    n.(signed := n.signed + {Arp(lane.epoch, lane.creator, StatOf(n, lane).index, StatOf(n, lane).hash)})
  }

  /** Asked about their own stat of a creator they have banned, both sign its rotation. */
  lemma BothRotate(cfg: Config, run: seq<Net>, rest: Net, n: Node, lane: Lane, v: Statement)
    returns (run': seq<Net>)
    requires FourOk(cfg) && At(cfg, run, rest, n, n) && lane in n.disabled && lane in {LANE_A, LANE_B}
    requires v in n.signed && SignedAs(StatOf(n, lane).afp, v)
    ensures At(cfg, run', rest, Rotating(n, lane), Rotating(n, lane))
  {
    hide ConfigOk, At, AfpOk, AfpUnforged, SignedAs, ValidateProposal;
    var n', rot := Rotating(n, lane), RotRequest(0, lane.creator, StatOf(n, lane));
    SignedIsCertified(cfg, Quad(rest, n, n), v, StatOf(n, lane).afp);
    SignedIsCertified(cfg, Quad(rest, n', n), v, StatOf(n, lane).afp);
    assert FindEpochById([E0], 0) == Some(E0);
    assert FOUR[0] == "a" && FOUR[1] == "b";
    run' := BothStep(cfg, run, rest, n, n', Rotate("c", [E0], rot), Rotate("d", [E0], rot));
  }

  // ---- Block 0 of "a" ----

  const NO_EXTRA: ExtraData := ExtraData(None, None, None)

  /** A signature is no part of a block's hash. */
  function SignedBy(w: World, k: string, b: Block): Block { b.(sig := k + GetHash(w, b)) }

  function BlockOfA(w: World): Block { SignedBy(w, "a", NewBlock(w, E0, "a", GENESIS_META, 0, NO_EXTRA, "")) }

  function MakerOfA(w: World): Maker {
    var meta := GenMeta(GetHash(w, BlockOfA(w)), 1);
    FRESH.(chain := [BlockOfA(w)], gt := meta, meta := meta)
  }

  function RestOfA(w: World): Net { Rest(PutBlock(EMPTY_NODE, Slot(0, "a", 0), BlockOfA(w)), MakerOfA(w)) }

  lemma BlockOfAWritten(cfg: Config) returns (run: seq<Net>)
    requires FourOk(cfg)
    ensures At(cfg, run, RestOfA(cfg.w), EMPTY_NODE, EMPTY_NODE)
  {
    hide ConfigOk, At, GetHash, FullId;
    var w, b := cfg.w, BlockOfA(cfg.w);
    var m0 := FRESH;
    var m1 := m0.(gen := GenRead(-1));
    var m2 := m1.(gen := GenBuilt(b));
    var m3 := m2.(meta := GenMeta(GetHash(w, b), 1), gen := GenBumped(b));
    run := Started(cfg);
    run := LoopStep(cfg, run, EMPTY_NODE, m0, ReadAccepted);
    run := LoopStep(cfg, run, EMPTY_NODE, m1, Build(0, NO_EXTRA, b.sig));
    run := LoopStep(cfg, run, EMPTY_NODE, m2, Bump);
    run := LoopStep(cfg, run, EMPTY_NODE, m3, Write);
    assert [] + [b] == [b];
  }

  function RequestOfA(w: World): FpRequest { FpRequest(BlockOfA(w), EMPTY_AFP) }

  function VoteOfA(w: World): Statement { Fp(INIT_HASH, 0, "a", 0, GetHash(w, BlockOfA(w)), BlockOfA(w)) }

  function VotedA(w: World): Node { VoteUpTo(w, EMPTY_NODE, E0, RequestOfA(w), 4) }

  lemma BlockOfAVoted(cfg: Config) returns (run: seq<Net>)
    requires FourOk(cfg)
    ensures At(cfg, run, RestOfA(cfg.w), VotedA(cfg.w), VotedA(cfg.w))
    ensures VoteOfA(cfg.w) in VotedA(cfg.w).signed && StatOf(VotedA(cfg.w), LANE_A) == TEMPLATE
    ensures VotedA(cfg.w).stats.Keys == {LANE_A} && VotedA(cfg.w).disabled == {} && VotedA(cfg.w).finished == {}
  {
    hide ConfigOk, At, HashInput, FullId, BlockId, CanSend;
    run := BlockOfAWritten(cfg);
    SignatureOf(cfg, "a", NewBlock(cfg.w, E0, "a", GENESIS_META, 0, NO_EXTRA, ""));
    assert FOUR[0] == "a";
    ACanSend(cfg);
    run := BothVote(cfg, run, RestOfA(cfg.w), EMPTY_NODE, RequestOfA(cfg.w));
  }

  lemma SignatureOf(cfg: Config, k: string, b: Block)
    requires FourOk(cfg) && b.creator == k
    ensures BlockSigned(cfg.w, SignedBy(cfg.w, k, b)) && GetHash(cfg.w, SignedBy(cfg.w, k, b)) == GetHash(cfg.w, b)
  {
    hide ConfigOk;
  }

  lemma ACanSend(cfg: Config)
    requires FourOk(cfg)
    ensures CanSend(cfg, Quad(RestOfA(cfg.w), EMPTY_NODE, EMPTY_NODE), RequestOfA(cfg.w))
  {
    hide ConfigOk, GetHash, FpPayload;
    var net := Quad(RestOfA(cfg.w), EMPTY_NODE, EMPTY_NODE);
    assert OnChain(cfg, net, "a", 0, 0, GetHash(cfg.w, BlockOfA(cfg.w)));
  }

  // ---- "a" is stopped on a stat for its block 0 ----

  function Stopped(n: Node, stat: VotingStat): Node { Rotating(Disable(Raise(n, LANE_A, stat), LANE_A), LANE_A) }

  function StoppedA(w: World, stat: VotingStat): Node { Stopped(VotedA(w), stat) }

  predicate StatOfA(w: World, stat: VotingStat) {
    stat.index == 0 && stat.hash == stat.afp.blockHash && stat.afp.blockId != "" && SignedAs(stat.afp, VoteOfA(w))
  }

  /** Both take this stat from a reply, ban "a" and sign its rotation. */
  lemma Stop(cfg: Config, run: seq<Net>, n: Node, stat: VotingStat) returns (run': seq<Net>)
    requires FourOk(cfg) && !cfg.honestReplies && StatOfA(cfg.w, stat) && At(cfg, run, RestOfA(cfg.w), n, n)
    requires VoteOfA(cfg.w) in n.signed && StatOf(n, LANE_A) == TEMPLATE
    ensures At(cfg, run', RestOfA(cfg.w), Stopped(n, stat), Stopped(n, stat))
    ensures StatOf(Stopped(n, stat), LANE_A) == stat && LANE_A in Stopped(n, stat).disabled
    ensures n.signed + {Arp(0, "a", 0, stat.hash)} == Stopped(n, stat).signed
  {
    hide ConfigOk, At, SignedAs, VoteOfA, RestOfA;
    var v, m := VoteOfA(cfg.w), Raise(n, LANE_A, stat);
    run' := BothPull(cfg, run, RestOfA(cfg.w), n, LANE_A, stat, v);
    run' := BothSwitchOff(cfg, run', RestOfA(cfg.w), m, LANE_A);
    m := Disable(m, LANE_A);
    run' := BothRotate(cfg, run', RestOfA(cfg.w), m, LANE_A, v);
  }

  lemma AStopped(cfg: Config, stat: VotingStat) returns (run: seq<Net>)
    requires FourOk(cfg) && !cfg.honestReplies && StatOfA(cfg.w, stat)
    ensures At(cfg, run, RestOfA(cfg.w), StoppedA(cfg.w, stat), StoppedA(cfg.w, stat))
    ensures Arp(0, "a", 0, stat.hash) in StoppedA(cfg.w, stat).signed && VoteOfA(cfg.w) in StoppedA(cfg.w, stat).signed
    ensures StoppedA(cfg.w, stat).stats == map[LANE_A := stat] && StoppedA(cfg.w, stat).disabled == {LANE_A}
    ensures StoppedA(cfg.w, stat).finished == {}
  {
    hide ConfigOk, At, SignedAs, VotedA, VoteOfA, RestOfA;
    run := BlockOfAVoted(cfg);
    run := Stop(cfg, run, VotedA(cfg.w), stat);
  }

  /** Block 0 of "a" with its own certificate. */
  function GoodStat(w: World): VotingStat {
    var h := GetHash(w, BlockOfA(w));
    VotingStat(0, h, Afp(INIT_HASH, BlockId(0, "a", 0), h, Sigs(Payload(VoteOfA(w)))))
  }

  lemma GoodStatFits(w: World)
    ensures StatOfA(w, GoodStat(w)) && NamesItsBlock(LANE_A, GoodStat(w))
  {
    hide GetHash, BlockId;
    BlockIdParts(0, "a", 0);
  }

  // ---- Blocks of "b" ----

  /** Block k of "b", which need not run this code; x is the extra data of its block 0. */
  function BBlock(w: World, x: ExtraData, k: nat): Block
    decreases k, 1
  {
    SignedBy(w, "b", Block("b", 0, FullId(E0), if k == 0 then x else NO_EXTRA, k, BPrev(w, x, k), ""))
  }

  function BPrev(w: World, x: ExtraData, k: nat): string
    decreases k, 0
  {
    if k == 0 then INIT_HASH else GetHash(w, BBlock(w, x, k - 1))
  }

  function BVote(w: World, x: ExtraData, k: nat): Statement {
    Fp(BPrev(w, x, k), 0, "b", k, GetHash(w, BBlock(w, x, k)), BBlock(w, x, k))
  }

  function BAfp(w: World, x: ExtraData, k: nat): Afp {
    Afp(BPrev(w, x, k), BlockId(0, "b", k), GetHash(w, BBlock(w, x, k)), Sigs(Payload(BVote(w, x, k))))
  }

  function BStat(w: World, x: ExtraData, k: int): VotingStat {
    if k < 0 then TEMPLATE else VotingStat(k, GetHash(w, BBlock(w, x, k)), BAfp(w, x, k))
  }

  function BRequest(w: World, x: ExtraData, k: nat): FpRequest {
    FpRequest(BBlock(w, x, k), if k == 0 then EMPTY_AFP else BAfp(w, x, k - 1))
  }

  /** A voter n after its votes for blocks 0 to k. */
  function BNode(w: World, x: ExtraData, n: Node, k: nat): Node {
    VoteUpTo(w, if k == 0 then n else BNode(w, x, n, k - 1), E0, BRequest(w, x, k), 4)
  }

  ghost predicate BVoter(w: World, x: ExtraData, n: Node, k: int, s: Node) {
    && StatOf(s, LANE_B) == BStat(w, x, k - 1) && (k >= 0 ==> BVote(w, x, k) in s.signed)
    && (k > 0 ==> BVote(w, x, k - 1) in s.signed)
    && n.signed <= s.signed && StatOf(s, LANE_A) == StatOf(n, LANE_A) && s.disabled == n.disabled
    && LANE_B !in s.disabled && 0 !in s.finished
  }

  lemma {:induction false} BVoted(cfg: Config, run: seq<Net>, rest: Net, n: Node, x: ExtraData, k: nat)
    returns (run': seq<Net>)
    requires FourOk(cfg) && At(cfg, run, rest, n, n) && LANE_B !in n.stats && LANE_B !in n.disabled && 0 !in n.finished
    ensures At(cfg, run', rest, BNode(cfg.w, x, n, k), BNode(cfg.w, x, n, k))
    ensures BVoter(cfg.w, x, n, k, BNode(cfg.w, x, n, k))
  {
    hide ConfigOk, At, BRequest, BVoter, VoteUpTo;
    var before := n;
    run' := run;
    if k > 0 {
      run' := BVoted(cfg, run, rest, n, x, k - 1);
      before := BNode(cfg.w, x, n, k - 1);
    }
    BStep(cfg, Quad(rest, before, before), x, n, k, before);
    run' := BothVote(cfg, run', rest, before, BRequest(cfg.w, x, k));
  }

  /** s is ready for block k. */
  ghost predicate BReady(w: World, x: ExtraData, n: Node, k: nat, s: Node) {
    if k == 0 then s == n && LANE_B !in n.stats && LANE_B !in n.disabled && 0 !in n.finished
    else BVoter(w, x, n, k - 1, s)
  }

  lemma BStep(cfg: Config, net: Net, x: ExtraData, n: Node, k: nat, s: Node)
    requires FourOk(cfg) && "c" in net.nodes && "d" in net.nodes && net.nodes["c"] == s && net.nodes["d"] == s
    requires BReady(cfg.w, x, n, k, s)
    ensures BRequest(cfg.w, x, k).block.epoch == FullId(E0) && MayVote(cfg.w, s, E0, BRequest(cfg.w, x, k))
    ensures CanSend(cfg, net, BRequest(cfg.w, x, k))
    ensures BVoter(cfg.w, x, n, k, VoteUpTo(cfg.w, s, E0, BRequest(cfg.w, x, k), 4))
  {
    hide ConfigOk, BNode, BVoter, BRequest, BAfp, BVote, MayVote, CanSend, VoteUpTo, AfpOk, AfpUnforged, Certified;
    BVoteCounts(cfg.w, x, n, k, s);
    if k > 0 {
      BAfpIsSigned(cfg.w, x, k - 1);
      SignedIsCertified(cfg, net, BVote(cfg.w, x, k - 1), BAfp(cfg.w, x, k - 1));
    }
    BMayBeVoted(cfg, net, x, k, s);
  }

  lemma BAfpIsSigned(w: World, x: ExtraData, k: nat)
    ensures SignedAs(BAfp(w, x, k), BVote(w, x, k))
  {
    hide GetHash, FpPayload, BlockId, BBlock;
  }

  lemma NobodySigned(cfg: Config, net: Net)
    ensures forall e :: AfpUnforged(cfg, net, EMPTY_AFP, e)
  {
  }

  lemma BMayBeVoted(cfg: Config, net: Net, x: ExtraData, k: nat, s: Node)
    requires FourOk(cfg) && StatOf(s, LANE_B).index < k && LANE_B !in s.disabled && 0 !in s.finished
    requires k > 0 ==> AfpOk(cfg.w, BAfp(cfg.w, x, k - 1), E0)
    requires k > 0 ==> forall e :: e in cfg.epochs ==> AfpUnforged(cfg, net, BAfp(cfg.w, x, k - 1), e)
    ensures BRequest(cfg.w, x, k).block.epoch == FullId(E0) && MayVote(cfg.w, s, E0, BRequest(cfg.w, x, k))
    ensures CanSend(cfg, net, BRequest(cfg.w, x, k))
  {
    hide ConfigOk, FullId, Payload, AfpOk, ProofsUnforged, BlockId, HashInput;
    assert FOUR[1] == "b";
    KeysAreOk();
    NobodySigned(cfg, net);
    SignatureOf(cfg, "b", Block("b", 0, FullId(E0), if k == 0 then x else NO_EXTRA, k, BPrev(cfg.w, x, k), ""));
  }

  lemma BVoteCounts(w: World, x: ExtraData, n: Node, k: nat, s: Node)
    requires BReady(w, x, n, k, s)
    ensures StatOf(s, LANE_B).index < k && LANE_B !in s.disabled && 0 !in s.finished
    ensures k > 0 ==> BVote(w, x, k - 1) in s.signed
    ensures BVoter(w, x, n, k, VoteUpTo(w, s, E0, BRequest(w, x, k), 4))
  {
    hide FullId, GetHash, Payload, BlockId;
  }

  /** Two signed rotations and that of "b" make a rotation certificate. */
  lemma RotationIsCertified(cfg: Config, net: Net, c: string, stat: VotingStat)
    requires FourOk(cfg) && "c" in net.nodes && "d" in net.nodes && c in FOUR
    requires Arp(0, c, stat.index, stat.hash) in net.nodes["c"].signed
    requires Arp(0, c, stat.index, stat.hash) in net.nodes["d"].signed
    requires NamesItsBlock(Lane(0, c), stat) && 0 <= stat.index <= MAX_INT64
    ensures AarpCertified(cfg, net, Assembled(E0, c, stat, Sigs(RotationText(E0, c, stat))))
  {
    hide ConfigOk, ProofsUnforged, ArpPayload, AarpShape, RotationSigners, NamesItsBlock;
    var m := RotationText(E0, c, stat);
    SigsVerify(cfg, m);
    assert Payload(Arp(0, c, stat.index, stat.hash)) == m;
    assert Stated(net, "c", m) && Stated(net, "d", m);
    SigsUnforged(cfg, net, m, m);
    ShapeOf(c, stat, Sigs(m));
  }

  lemma ShapeOf(c: string, stat: VotingStat, signatures: map<string, string>)
    requires c in FOUR && NamesItsBlock(Lane(0, c), stat) && 0 <= stat.index <= MAX_INT64
    ensures AarpShape(Assembled(E0, c, stat, signatures), E0)
  {
    hide BlockId;
    KeysAreOk();
    BlockIdRoundTrip(0, c, stat.index);
    BlockIdParts(0, c, stat.index);
    AtoiOfItoa(stat.index);
  }

  lemma BStatIs(w: World, x: ExtraData, k: nat)
    ensures var stat := BStat(w, x, k);
            && stat.index == k && stat.hash == stat.afp.blockHash && stat.afp.blockId != ""
            && NamesItsBlock(LANE_B, stat) && SignedAs(stat.afp, BVote(w, x, k))
  {
    hide GetHash, BlockId, BBlock, BPrev, BVote;
    BAfpIsSigned(w, x, k);
    BlockIdParts(0, "b", k);
  }
}
