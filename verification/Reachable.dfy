/** Runs of one anchor that reach the corner cases the other theorems bound: a restart that leaves the
    widest index window, and a majority that signs the rotation of a creator without approved blocks. */
module Reachable {
  import opened Text
  import opened Structures
  import opened Payloads
  import opened Certificates
  import opened Voter
  import opened Maker
  import opened Network
  import opened Safety
  import opened AnchorNodes

  const ME: string := "k"
  const EP: Epoch := Epoch(0, INIT_HASH, [ME], [ME], 0)
  const LANE: Lane := Lane(0, ME)
  const SIGS: map<string, string> := map[ME := "s"]

  /** One anchor alone, in a world where every signature verifies: it may then receive exactly the
      texts it has stated itself. */
  ghost predicate OneAnchor(cfg: Config) {
    && ConfigOk(cfg) && cfg.epochs == map[0 := EP] && cfg.honest == {ME} && !cfg.honestReplies
    && forall m, k, s :: cfg.w.verify(m, k, s)
  }

  lemma OneAnchorExists() returns (cfg: Config)
    ensures OneAnchor(cfg)
  {
    var strict, net := ConfigsExist();
    var w := strict.w.(verify := (m: string, k: string, s: string) => true);
    assert Sound(w);
    cfg := strict.(w := w, epochs := map[0 := EP], honestReplies := false);
    OneAnchorKeys();
    assert EpochOk(cfg, 0, EP);
  }

  lemma OneAnchorKeys()
    ensures ColonFree(ME) && !Numeral(ME) && HexText(INIT_HASH) && FaultyBound([ME], {ME})
  {
    InitHashIsHex();
    assert FaultyCount([ME], {ME}) == 0 by { assert [ME][1..] == []; }
    forall n
      ensures ME != Itoa(n)
    {
      NatTextRoundTrip(if n < 0 then -n else n);
      assert n < 0 ==> Itoa(n)[0] == '-';
      assert n >= 0 ==> IsDigit(Itoa(n)[0]);
    }
  }

  function OneNet(n: Node, m: Maker): Net { Net(map[ME := n], map[LANE := m], {}) }

  /** A run ending in this state of the one anchor. */
  ghost predicate Reaches(cfg: Config, run: seq<Net>, n: Node, m: Maker) {
    run != [] && RunOf(cfg, run) && run[|run| - 1] == OneNet(n, m)
  }

  lemma Started(cfg: Config) returns (run: seq<Net>)
    requires OneAnchor(cfg)
    ensures Reaches(cfg, run, EMPTY_NODE, FRESH)
  {
    hide ConfigOk;
    run := [OneNet(EMPTY_NODE, FRESH)];
  }

  /** The creator's loops take one step. */
  lemma LoopStep(cfg: Config, run: seq<Net>, n: Node, m: Maker, ev: Event) returns (run': seq<Net>)
    requires OneAnchor(cfg) && Reaches(cfg, run, n, m) && Can(cfg.w, EP, ME, n, m, ev) && !ev.Certify?
    requires ev.Crash? ==> cfg.crashes
    ensures var r := Do(cfg.w, EP, ME, n, m, ev); Reaches(cfg, run', r.0, r.1)
  {
    hide ConfigOk, IsRun, Do, Can;
    run' := RunExtends(cfg, run, Run(LANE, ev));
  }

  // ---- The first block and its votes ----

  function FirstBlock(w: World): Block { NewBlock(w, EP, ME, GENESIS_META, 0, ExtraData(None, None, None), "") }

  function WithFirstBlock(w: World): Maker {
    var meta := GenMeta(GetHash(w, FirstBlock(w)), 1);
    FRESH.(chain := [FirstBlock(w)], gt := meta, meta := meta)
  }

  function Written(w: World): Node { PutBlock(EMPTY_NODE, Slot(0, ME, 0), FirstBlock(w)) }

  lemma FirstBlockWritten(cfg: Config) returns (run: seq<Net>)
    requires OneAnchor(cfg)
    ensures Reaches(cfg, run, Written(cfg.w), WithFirstBlock(cfg.w))
  {
    hide ConfigOk, Reaches, GetHash, FullId;
    var w := cfg.w;
    var m0 := FRESH;
    var m1 := m0.(gen := GenRead(-1));
    var m2 := m1.(gen := GenBuilt(FirstBlock(w)));
    var m3 := m2.(meta := GenMeta(GetHash(w, FirstBlock(w)), 1), gen := GenBumped(FirstBlock(w)));
    run := Started(cfg);
    run := LoopStep(cfg, run, EMPTY_NODE, m0, ReadAccepted);
    run := LoopStep(cfg, run, EMPTY_NODE, m1, Build(0, ExtraData(None, None, None), ""));
    run := LoopStep(cfg, run, EMPTY_NODE, m2, Bump);
    run := LoopStep(cfg, run, EMPTY_NODE, m3, Write);
    assert [] + [FirstBlock(w)] == [FirstBlock(w)];
  }

  function FirstRequest(w: World): FpRequest { FpRequest(FirstBlock(w), EMPTY_AFP) }

  function FirstVote(w: World): Statement { FpStatement(w, EP, FirstRequest(w)) }

  function Voted(w: World): Node { VoteUpTo(w, Written(w), EP, FirstRequest(w), 4) }

  /** A request this anchor answers changes its own node only. */
  lemma NodeStep(cfg: Config, run: seq<Net>, n: Node, m: Maker, a: Action, n': Node) returns (run': seq<Net>)
    requires OneAnchor(cfg) && Reaches(cfg, run, n, m) && Enabled(cfg, OneNet(n, m), a)
    requires After(cfg, OneNet(n, m), a) == WithNode(OneNet(n, m), ME, n')
    ensures Reaches(cfg, run', n', m)
  {
    hide ConfigOk, IsRun, After, Enabled;
    run' := RunExtends(cfg, run, a);
    assert map[ME := n][ME := n'] == map[ME := n'];
  }

  lemma FirstVoteCast(cfg: Config) returns (run: seq<Net>)
    requires OneAnchor(cfg)
    ensures Reaches(cfg, run, Voted(cfg.w), WithFirstBlock(cfg.w))
  {
    hide ConfigOk, Reaches, GetHash, FullId, VoteUpTo, AfpOk, BlockId;
    var w, n, m := cfg.w, Written(cfg.w), WithFirstBlock(cfg.w);
    run := FirstBlockWritten(cfg);
    var a := Vote(ME, true, [EP], FirstRequest(w), 4);
    assert FindEpoch([EP], FullId(EP)) == Some(EP);
    assert MayVote(w, n, EP, FirstRequest(w));
    FirstBlockIsPublished(cfg);
    NobodySigned(cfg, OneNet(n, m));
    run := NodeStep(cfg, run, n, m, a, Voted(w));
  }

  lemma FirstBlockIsPublished(cfg: Config)
    requires OneAnchor(cfg)
    ensures BlockUnforged(cfg, OneNet(Written(cfg.w), WithFirstBlock(cfg.w)), FirstBlock(cfg.w))
  {
    hide ConfigOk, GetHash;
    var net := OneNet(Written(cfg.w), WithFirstBlock(cfg.w));
    assert OnChain(cfg, net, ME, 0, 0, GetHash(cfg.w, FirstBlock(cfg.w)));
  }

  lemma NobodySigned(cfg: Config, net: Net)
    ensures forall e :: AfpUnforged(cfg, net, EMPTY_AFP, e)
  {
  }

  // ---- Certificates over what the anchor has signed ----

  lemma SignedAlone(cfg: Config, payload: string)
    requires OneAnchor(cfg)
    ensures ValidSigners(cfg.w, payload, SIGS, [ME]) == {ME} &&
        |ValidSigners(cfg.w, payload, SIGS, [ME])| >= Majority(1)
  {
    hide ConfigOk;
    assert ValidSigners(cfg.w, payload, SIGS, [ME]) == {ME};
  }

  /** Any certificate whose text the anchor has stated passes the verifier and forges nothing. */
  lemma StatedIsCertified(cfg: Config, n: Node, m: Maker, v: Statement, afp: Afp)
    requires OneAnchor(cfg) && v in n.signed && Payload(v) == AfpPayload(afp, 0) && afp.proofs == SIGS
    ensures AfpOk(cfg.w, afp, EP) && AfpUnforged(cfg, OneNet(n, m), afp, 0) && Certified(cfg, OneNet(n, m), afp, 0)
  {
    hide ConfigOk, AfpPayload, Payload;
    SignedAlone(cfg, AfpPayload(afp, 0));
    assert Stated(OneNet(n, m), ME, AfpPayload(afp, 0));
  }

  // ---- A restart that leaves the widest window ----

  function FirstAfp(w: World): Afp { Afp(INIT_HASH, BlockId(0, ME, 0), GetHash(w, FirstBlock(w)), SIGS) }

  /** The grabber has the votes of block 0, and no certificate stored yet. */
  function Gathered(w: World): Maker {
    var b := FirstBlock(w);
    WithFirstBlock(w).(pointer := Some(b), hunt := Hunting(GENESIS_GRABBER, b, SIGS), cache := SIGS)
  }

  function Certificated(w: World): Node { PutAfp(Voted(w), Slot(0, ME, 0), FirstAfp(w)) }

  lemma VotesGathered(cfg: Config) returns (run: seq<Net>)
    requires OneAnchor(cfg)
    ensures Reaches(cfg, run, Voted(cfg.w), Gathered(cfg.w))
  {
    hide ConfigOk, Reaches, GetHash, FullId, BlockId, FpPayload;
    var w, n, m, b := cfg.w, Voted(cfg.w), WithFirstBlock(cfg.w), FirstBlock(cfg.w);
    run := FirstVoteCast(cfg);
    run := LoopStep(cfg, run, n, m, Start);
    var m1 := AfterStart(m, b);
    run := LoopStep(cfg, run, n, m1, Collect(SIGS));
    assert map[] + SIGS == SIGS;
  }

  lemma FirstVoteIsSigned(w: World)
    ensures FirstVote(w) in Voted(w).signed && Payload(FirstVote(w)) == AfpPayload(FirstAfp(w), 0)
  {
    hide GetHash, BlockId;
  }

  lemma CertificateStored(cfg: Config) returns (run: seq<Net>)
    requires OneAnchor(cfg)
    ensures Reaches(cfg, run, Certificated(cfg.w), Gathered(cfg.w).(hunt := AfpStored(FirstAfp(cfg.w))))
  {
    hide ConfigOk, IsRun, GetHash, FullId, BlockId, FpPayload, Voted, FirstVote, FirstBlock;
    var w := cfg.w;
    run := VotesGathered(cfg);
    FirstVoteIsSigned(w);
    StatedIsCertified(cfg, Voted(w), Gathered(w), FirstVote(w), FirstAfp(w));
    run := RunExtends(cfg, run, Run(LANE, Certify));
  }

  /** The second block, built on an accepted index that is in memory only. */
  function SecondBlock(w: World): Block {
    NewBlock(w, EP, ME, GenMeta(GetHash(w, FirstBlock(w)), 1), 0, ExtraData(None, None, None), "")
  }

  /** A run with a restart that leaves NextIndex three above AcceptedIndex: block 0 is accepted and block
      1 written on it, and the node stops before the accepted index is saved. */
  lemma WidestWindowReached(cfg: Config) returns (run: seq<Net>)
    requires OneAnchor(cfg) && cfg.crashes
    ensures run != [] && RunOf(cfg, run) && LANE in run[|run| - 1].makers
    ensures var m := run[|run| - 1].makers[LANE]; m.meta.nextIndex == m.grabber.acceptedIndex + 3
  {
    hide ConfigOk, IsRun, GetHash, FullId, BlockId, FpPayload, Certificated, FirstBlock;
    var w, n, m, b := cfg.w, Certificated(cfg.w), Gathered(cfg.w).(hunt := AfpStored(FirstAfp(cfg.w))),
        SecondBlock(cfg.w);
    run := CertificateStored(cfg);
    run := LoopStep(cfg, run, n, m, Advance);
    m := AfterAdvance(m);
    run := LoopStep(cfg, run, n, m, ReadAccepted);
    m := m.(gen := GenRead(0));
    run := LoopStep(cfg, run, n, m, Build(0, ExtraData(None, None, None), ""));
    m := m.(gen := GenBuilt(b));
    run := LoopStep(cfg, run, n, m, Bump);
    m := AfterBump(w, m);
    run := LoopStep(cfg, run, n, m, Write);
    n, m := PutBlock(n, Slot(0, ME, 1), b), AfterWrite(m);
    run := LoopStep(cfg, run, n, m, Crash);
  }

  // ---- A majority that signs the rotation of a creator without approved blocks ----

  function TemplateRotation(): Statement { Arp(0, ME, -1, INIT_HASH) }

  function Idle(): Node { Disable(EMPTY_NODE, LANE).(signed := {TemplateRotation()}) }

  /** A run in which a majority signs the rotation of the initial template: the collector assembles a
      certificate from genuine, checked signatures, and no verifier accepts it. */
  lemma TemplateRotationReached(cfg: Config) returns (run: seq<Net>)
    requires OneAnchor(cfg)
    ensures run != [] && RunOf(cfg, run) && ME in run[|run| - 1].nodes
    ensures StatOf(run[|run| - 1].nodes[ME], LANE) == TEMPLATE && LANE in run[|run| - 1].nodes[ME].disabled
    ensures SignaturesChecked(cfg.w, EP, ME, TEMPLATE, SIGS) && |SIGS| >= Majority(|EP.quorum|)
    ensures ProofsUnforged(cfg, run[|run| - 1], RotationText(EP, ME, TEMPLATE), SIGS)
    ensures !AarpOk(cfg.w, Assembled(EP, ME, TEMPLATE, SIGS), EP)
  {
    hide ConfigOk, Reaches, RunOf;
    run := TemplateRotationSigned(cfg);
    assert Payload(TemplateRotation()) == RotationText(EP, ME, TEMPLATE);
    LastIs(cfg, run, Idle(), FRESH);
    assert Stated(run[|run| - 1], ME, RotationText(EP, ME, TEMPLATE));
  }

  lemma TemplateRotationSigned(cfg: Config) returns (run: seq<Net>)
    requires OneAnchor(cfg)
    ensures Reaches(cfg, run, Idle(), FRESH)
  {
    hide ConfigOk, Reaches, AfpUnforged;
    run := Started(cfg);
    var off, rot := Disable(EMPTY_NODE, LANE), RotRequest(0, ME, TEMPLATE);
    run := NodeStep(cfg, run, EMPTY_NODE, FRESH, SwitchOff(ME, LANE), off);
    NobodySigned(cfg, OneNet(off, FRESH));
    assert FindEpochById([EP], 0) == Some(EP);
    assert RotationReply(cfg.w, off, [EP], rot) == Signed(TemplateRotation());
    assert RotationStep(cfg.w, off, [EP], rot) == Idle();
    run := NodeStep(cfg, run, off, FRESH, Rotate(ME, [EP], rot), Idle());
  }

  lemma LastIs(cfg: Config, run: seq<Net>, n: Node, m: Maker)
    requires Reaches(cfg, run, n, m)
    ensures run != [] && RunOf(cfg, run) && run[|run| - 1] == OneNet(n, m)
  {
    hide ConfigOk, IsRun;
  }
}
