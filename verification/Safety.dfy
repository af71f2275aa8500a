/** What holds over every run of the network: the rotation cut, agreeing rotation points,
    certificate chains, no forks, the voter's order and the creator's window. */
module Safety {
  import opened Text
  import opened Structures
  import opened Payloads
  import opened Certificates
  import opened Voter
  import opened Maker
  import opened Network

  ghost predicate RunOf(cfg: Config, run: seq<Net>) { ConfigOk(cfg) && IsRun(cfg, run) }

  /** A run goes on with any enabled action. */
  lemma RunExtends(cfg: Config, run: seq<Net>, a: Action) returns (run': seq<Net>)
    requires run != [] && RunOf(cfg, run) && Enabled(cfg, run[|run| - 1], a)
    ensures run' == run + [After(cfg, run[|run| - 1], a)] && RunOf(cfg, run')
  {
    hide ConfigOk, Init, After, CanAct, InputOk;
    run' := run + [After(cfg, run[|run| - 1], a)];
    forall i {:trigger run'[i]} | 0 < i < |run'|
      ensures Next(cfg, run'[i - 1], run'[i])
    {
      if i < |run| {
        assert run'[i] == run[i] && run'[i - 1] == run[i - 1];
      } else {
        assert Enabled(cfg, run'[i - 1], a);
      }
    }
  }

  /** aarp passes the verifier of its epoch and forges nobody's signature. */
  ghost predicate AarpCertified(cfg: Config, net: Net, aarp: Aarp) {
    && aarp.epochIndex in cfg.epochs
    && AarpOk(cfg.w, aarp, cfg.epochs[aarp.epochIndex])
    && ProofsUnforged(cfg, net, ArpPayload(aarp.anchor, aarp.votingStat.index, aarp.votingStat.hash, aarp.epochIndex),
                      aarp.signatures)
  }

  lemma ProofsUnforgedGrow(cfg: Config, net: Net, net': Net, m: string, proofs: map<string, string>)
    requires Grows(net, net') && ProofsUnforged(cfg, net, m, proofs)
    ensures ProofsUnforged(cfg, net', m, proofs)
  {
    hide Unforged;
    forall k | k in proofs
      ensures Unforged(cfg, net', m, k, proofs[k])
    {
      IssuedGrows(cfg, net, net', m, k, proofs[k]);
    }
  }

  /** An honest signer of a verified rotation certificate signed exactly that rotation. */
  lemma RotationVote(cfg: Config, net: Net, aarp: Aarp, k: string) returns (a: Statement)
    requires ConfigOk(cfg) && Inv(cfg, net) && AarpCertified(cfg, net, aarp)
    requires k in cfg.honest && k in AarpSigners(cfg.w, aarp, cfg.epochs[aarp.epochIndex])
    ensures k in net.nodes && a in net.nodes[k].signed && Fact(cfg, net, a)
    ensures a == Arp(aarp.epochIndex, aarp.anchor, aarp.votingStat.index, aarp.votingStat.hash)
  {
    hide Makers, StatFact, GenuineAt, Ordered, Grounded, GetHash, FullId, FpPayload, BlockId, HexText;
    var e, c, i, h := aarp.epochIndex, aarp.anchor, aarp.votingStat.index, aarp.votingStat.hash;
    var m := ArpPayload(c, i, h, e);
    assert Unforged(cfg, net, m, k, aarp.signatures[k]);
    assert EpochOk(cfg, e, cfg.epochs[e]);
    if Published(cfg, net, k, m) {
      var f, j :| OnChain(cfg, net, k, f, j, m);
      HashIsHex(cfg.w, net.makers[Lane(f, k)].chain[j]);
      PayloadIsNoHash(Arp(e, c, i, h), m);
      assert false;
    }
    a :| a in net.nodes[k].signed && Payload(a) == m;
    NodeOf(cfg, net, k);
    assert Fact(cfg, net, a);
    assert EpochOk(cfg, a.epoch, cfg.epochs[a.epoch]);
    if a.Fp? {
      FpIsNotArp(a.prev, BlockId(a.epoch, a.creator, a.index), a.hash, a.epoch, c, i, h, e);
      assert false;
    } else {
      ArpDecodes(c, i, h, e, a.creator, a.index, a.hash, a.epoch);
    }
  }

  lemma CutAt(cfg: Config, net: Net, aarp: Aarp, afp: Afp, index: int)
    requires ConfigOk(cfg) && Inv(cfg, net) && AarpCertified(cfg, net, aarp)
    requires CertifiedAt(cfg, net, afp, aarp.epochIndex, aarp.anchor, index)
    ensures index <= aarp.votingStat.index + 1
  {
    hide Makers, StatFact, AfpUnforged, GetHash, FullId, AfpPayload, ArpPayload, BlockId, Majority, Fact,
         ProofsUnforged;
    var e, c := aarp.epochIndex, aarp.anchor;
    var ep := cfg.epochs[e];
    CertifiedIsGenuine(cfg, net, afp, e, c, index);
    var g :| Genuine(cfg, net, g, e, c, index, afp.blockHash);
    assert EpochOk(cfg, e, ep);
    MajoritiesIntersect(ep.quorum, cfg.honest, ValidSigners(cfg.w, AfpPayload(g, e), g.proofs, ep.quorum),
                        AarpSigners(cfg.w, aarp, ep));
    var k :| k in ValidSigners(cfg.w, AfpPayload(g, e), g.proofs, ep.quorum) && k in AarpSigners(cfg.w, aarp, ep) &&
        k in cfg.honest;
    var v := GenuineVote(cfg, net, g, e, c, index, afp.blockHash, k);
    var a := RotationVote(cfg, net, aarp, k);
    NodeOf(cfg, net, k);
    assert Ordered(net.nodes[k], Lane(e, c));
  }

  lemma LaterState(cfg: Config, run: seq<Net>, i: nat, j: nat) returns (t: nat)
    requires RunOf(cfg, run) && i < |run| && j < |run|
    ensures i <= t < |run| && j <= t && Inv(cfg, run[t]) && Grows(run[i], run[t]) && Grows(run[j], run[t])
  {
    t := if i <= j then j else i;
    RunKeepsInv(cfg, run, t);
    RunGrows(cfg, run, i, t);
    RunGrows(cfg, run, j, t);
  }

  lemma AarpGrows(cfg: Config, net: Net, net': Net, aarp: Aarp)
    requires Grows(net, net') && AarpCertified(cfg, net, aarp)
    ensures AarpCertified(cfg, net', aarp)
  {
    hide AarpOk, ArpPayload, ProofsUnforged;
    ProofsUnforgedGrow(cfg, net, net', ArpPayload(aarp.anchor, aarp.votingStat.index, aarp.votingStat.hash,
                                                  aarp.epochIndex), aarp.signatures);
  }

  /** Rotation cut. Once a rotation certificate for (epoch, anchor, index k) verifies at any time
      of a run, no finalization certificate for that anchor at k + 2 or above verifies at any
      other time, before or after; so block k + 1 is never approved. */
  lemma RotationCut(cfg: Config, run: seq<Net>, i: nat, j: nat, aarp: Aarp, afp: Afp, index: int)
    requires RunOf(cfg, run) && i < |run| && j < |run|
    requires AarpCertified(cfg, run[i], aarp)
    requires CertifiedAt(cfg, run[j], afp, aarp.epochIndex, aarp.anchor, index)
    ensures index <= aarp.votingStat.index + 1
  {
    hide IsRun, ConfigOk, Inv, AarpCertified, Certified, BlockId, Grows;
    var t := LaterState(cfg, run, i, j);
    AarpGrows(cfg, run[i], run[t], aarp);
    CertifiedGrows(cfg, run[j], run[t], afp, aarp.epochIndex);
    CutAt(cfg, run[t], aarp, afp, index);
  }

  lemma AarpFacts(cfg: Config, net: Net, aarp: Aarp)
    requires ConfigOk(cfg) && Inv(cfg, net) && AarpCertified(cfg, net, aarp)
    ensures aarp.votingStat.index >= -1
    ensures cfg.honestReplies && aarp.votingStat.index >= 0 ==>
              GenuineAt(cfg, net, aarp.epochIndex, aarp.anchor, aarp.votingStat.index, aarp.votingStat.hash)
  {
    hide Makers, StatFact, GenuineAt, ProofsUnforged, Majority, ArpPayload, Grounded;
    var ep := cfg.epochs[aarp.epochIndex];
    assert EpochOk(cfg, aarp.epochIndex, ep);
    MajorityHasHonest(ep.quorum, cfg.honest, AarpSigners(cfg.w, aarp, ep));
    var k :| k in AarpSigners(cfg.w, aarp, ep) && k in cfg.honest;
    var a := RotationVote(cfg, net, aarp, k);
    NodeOf(cfg, net, k);
    assert Ordered(net.nodes[k], Lane(aarp.epochIndex, aarp.anchor));
  }

  /** With voting stats reported by nodes running this code, a rotation point k >= 0 is backed by
      a finalization certificate for exactly that anchor, index and hash. */
  lemma RotationPointIsCertified(cfg: Config, run: seq<Net>, i: nat, aarp: Aarp) returns (afp: Afp)
    requires RunOf(cfg, run) && i < |run| && cfg.honestReplies
    requires AarpCertified(cfg, run[i], aarp) && aarp.votingStat.index >= 0
    ensures CertifiedAt(cfg, run[i], afp, aarp.epochIndex, aarp.anchor, aarp.votingStat.index)
    ensures afp.blockHash == aarp.votingStat.hash
  {
    hide IsRun, ConfigOk, Inv, AarpCertified, CertifiedAt;
    RunKeepsInv(cfg, run, i);
    AarpFacts(cfg, run[i], aarp);
    afp :| Genuine(cfg, run[i], afp, aarp.epochIndex, aarp.anchor, aarp.votingStat.index, aarp.votingStat.hash);
  }

  /** Any two rotation points of one anchor in one epoch differ by at most one. */
  lemma RotationPointsAgree(cfg: Config, run: seq<Net>, i: nat, j: nat, a: Aarp, b: Aarp)
    requires RunOf(cfg, run) && i < |run| && j < |run| && cfg.honestReplies
    requires AarpCertified(cfg, run[i], a) && AarpCertified(cfg, run[j], b)
    requires a.epochIndex == b.epochIndex && a.anchor == b.anchor
    ensures -1 <= a.votingStat.index - b.votingStat.index <= 1
  {
    hide IsRun, ConfigOk, Inv, AarpCertified, CertifiedAt;
    RunKeepsInv(cfg, run, i);
    RunKeepsInv(cfg, run, j);
    AarpFacts(cfg, run[i], a);
    AarpFacts(cfg, run[j], b);
    if a.votingStat.index > b.votingStat.index {
      var afp := RotationPointIsCertified(cfg, run, i, a);
      RotationCut(cfg, run, j, i, b, afp, a.votingStat.index);
    } else if b.votingStat.index > a.votingStat.index {
      var afp := RotationPointIsCertified(cfg, run, j, b);
      RotationCut(cfg, run, i, j, a, afp, b.votingStat.index);
    }
  }

  // ---- Certificate chains ----

  /** Certificate t of a chain: for index t, naming the hash of the one below. */
  ghost predicate LinkAt(cfg: Config, net: Net, chain: seq<Afp>, e: int, c: string, t: int)
    requires 0 <= t < |chain|
  {
    CertifiedAt(cfg, net, chain[t], e, c, t) && chain[t].prevBlockHash ==
        (if t == 0 then INIT_HASH else chain[t - 1].blockHash)
  }

  /** One certificate per index 0, 1, ..., each naming the hash of the one below. */
  ghost predicate IsChain(cfg: Config, net: Net, chain: seq<Afp>, e: int, c: string) {
    forall t :: 0 <= t < |chain| ==> LinkAt(cfg, net, chain, e, c, t)
  }

  /** A genuine certificate names the initial hash at index 0 and a certified hash above it. */
  lemma NamesCertifiedHash(cfg: Config, net: Net, g: Afp, e: int, c: string, i: int)
    requires ConfigOk(cfg) && Inv(cfg, net) && Genuine(cfg, net, g, e, c, i, g.blockHash) && c in cfg.epochs[e].registry
    ensures i >= 0 && (i == 0 ==> g.prevBlockHash == INIT_HASH)
    ensures i > 0 ==> GenuineAt(cfg, net, e, c, i - 1, g.prevBlockHash)
  {
    hide Inv, ConfigOk, Genuine, GenuineAt, GetHash, HexText;
    var v := VoteOfCertificate(cfg, net, g, e, c, i);
  }

  lemma ChainExtends(cfg: Config, net: Net, chain: seq<Afp>, g: Afp, e: int, c: string)
    requires chain != [] && IsChain(cfg, net, chain, e, c) && CertifiedAt(cfg, net, g, e, c, |chain|)
    requires g.prevBlockHash == chain[|chain| - 1].blockHash
    ensures IsChain(cfg, net, chain + [g], e, c)
  {
    hide CertifiedAt;
    forall t | 0 <= t < |chain| + 1
      ensures LinkAt(cfg, net, chain + [g], e, c, t)
    {
      assert t < |chain| ==> LinkAt(cfg, net, chain, e, c, t);
    }
  }

  /** Below every genuine certificate hangs a complete chain, down to the fixed initial hash. */
  lemma {:induction false} ChainBelow(cfg: Config, net: Net, g: Afp, e: int, c: string, i: int)
      returns (chain: seq<Afp>)
    requires ConfigOk(cfg) && Inv(cfg, net) && Genuine(cfg, net, g, e, c, i, g.blockHash) && c in cfg.epochs[e].registry
    ensures i >= 0 && |chain| == i + 1 && chain[i] == g && IsChain(cfg, net, chain, e, c)
    decreases i
  {
    hide Inv, ConfigOk, CertifiedAt, HexText;
    NamesCertifiedHash(cfg, net, g, e, c, i);
    if i == 0 {
      chain := [g];
    } else {
      var below :| Genuine(cfg, net, below, e, c, i - 1, g.prevBlockHash);
      var rest := ChainBelow(cfg, net, below, e, c, i - 1);
      ChainExtends(cfg, net, rest, g, e, c);
      chain := rest + [g];
    }
  }

  /** Every certificate for index i has certificates for all indices below it, each naming the
      BlockHash one below, ending in the initial hash; the topmost carries the same BlockHash. */
  lemma CertificateChain(cfg: Config, run: seq<Net>, j: nat, afp: Afp, e: int, c: string, i: int)
      returns (chain: seq<Afp>)
    requires RunOf(cfg, run) && j < |run| && CertifiedAt(cfg, run[j], afp, e, c, i) && c in cfg.epochs[e].registry
    ensures i >= 0 && |chain| == i + 1 && IsChain(cfg, run[j], chain, e, c)
    ensures chain[i].blockHash == afp.blockHash
    ensures ColonFree(afp.prevBlockHash) ==> chain[i] == afp
  {
    hide IsRun, ConfigOk, Inv, Certified, BlockId;
    RunKeepsInv(cfg, run, j);
    CertifiedIsGenuine(cfg, run[j], afp, e, c, i);
    var g :| Genuine(cfg, run[j], g, e, c, i, afp.blockHash);
    if ColonFree(afp.prevBlockHash) {
      ColonFreePrevIsGenuine(cfg, run[j], afp, e, c, i);
      g := afp;
    }
    chain := ChainBelow(cfg, run[j], g, e, c, i);
  }

  lemma {:induction false} ChainIsColonFree(cfg: Config, net: Net, chain: seq<Afp>, e: int, c: string, t: int)
    requires ConfigOk(cfg) && Inv(cfg, net) && e in cfg.epochs && c in cfg.epochs[e].registry
    requires IsChain(cfg, net, chain, e, c) && 0 <= t < |chain|
    ensures ColonFree(chain[t].prevBlockHash)
  {
    hide Inv, ConfigOk, Certified, BlockId, GenuineAt, HexText;
    InitHashIsHex();
    HexTextFree(INIT_HASH, ':');
    assert LinkAt(cfg, net, chain, e, c, t);
    if t > 0 {
      assert LinkAt(cfg, net, chain, e, c, t - 1);
      assert CertifiedAt(cfg, net, chain[t - 1], e, c, t - 1);
      CertifiedIsGenuine(cfg, net, chain[t - 1], e, c, t - 1);
      GenuineIsHex(cfg, net, e, c, t - 1, chain[t - 1].blockHash);
      HexTextFree(chain[t - 1].blockHash, ':');
    }
  }

  /** A certificate itself tops such a chain exactly when its PrevBlockHash holds no ':'. */
  lemma TopsChainIff(cfg: Config, run: seq<Net>, j: nat, afp: Afp, e: int, c: string, i: int)
    requires RunOf(cfg, run) && j < |run| && CertifiedAt(cfg, run[j], afp, e, c, i) && c in cfg.epochs[e].registry
    ensures (exists chain :: chain != [] && chain[|chain| - 1] == afp && IsChain(cfg, run[j], chain, e, c))
       <==> ColonFree(afp.prevBlockHash)
  {
    hide IsRun, ConfigOk, Inv, AfpOk, AfpUnforged, BlockId, IsChain;
    RunKeepsInv(cfg, run, j);
    if ColonFree(afp.prevBlockHash) {
      var chain := CertificateChain(cfg, run, j, afp, e, c, i);
      assert chain != [] && chain[|chain| - 1] == afp;
    }
    forall chain | chain != [] && chain[|chain| - 1] == afp && IsChain(cfg, run[j], chain, e, c)
      ensures ColonFree(afp.prevBlockHash)
    {
      ChainIsColonFree(cfg, run[j], chain, e, c, |chain| - 1);
    }
  }

  lemma StatementParts(cfg: Config, net: Net, v: Statement)
    requires ConfigOk(cfg) && cfg.honestReplies && Fact(cfg, net, v)
    ensures |Split(Payload(v))| == if v.Fp? then 6 else 5
  {
    hide Sound, FaultyBound, Numeral, Grounded, GetHash, FullId, HexText, GenuineAt;
    assert EpochOk(cfg, v.epoch, cfg.epochs[v.epoch]);
    match v
    case Fp(prev, e, c, i, h, _) =>
      HexTextFree(prev, ':');
      HexTextFree(h, ':');
      FpParts(prev, BlockId(e, c, i), h, e);
      BlockIdParts(e, c, i);
      SplitColonFree(prev);
      SplitColonFree(h);
    case Arp(e, c, i, h) =>
      InitHashIsHex();
      if i >= 0 { GenuineIsHex(cfg, net, e, c, i, h); }
      HexTextFree(h, ':');
      ArpParts(c, i, h, e);
      SplitColonFree(h);
  }

  /** When voting stats come from nodes running this code, honest nodes sign no text with a ':' in a
      hash, and so no certificate carries one in its PrevBlockHash. */
  lemma NoColonsUnderHonestReplies(cfg: Config, net: Net, afp: Afp, e: int, c: string, i: int)
    requires ConfigOk(cfg) && Inv(cfg, net) && cfg.honestReplies && CertifiedAt(cfg, net, afp, e, c, i)
    ensures ColonFree(afp.prevBlockHash)
  {
    hide Inv, ConfigOk, Certified, Fact, AfpPayload, Payload, BlockId;
    var k, v := Speaker(cfg, net, afp, e);
    NodeOf(cfg, net, k);
    assert Fact(cfg, net, v);
    StatementParts(cfg, net, v);
    PayloadHasParts(afp, e, c, i);
    OnePartIsColonFree(afp.prevBlockHash);
  }

  lemma PayloadHasParts(afp: Afp, e: int, c: string, i: int)
    requires afp.blockId == BlockId(e, c, i)
    ensures |Split(AfpPayload(afp, e))| >= |Split(afp.prevBlockHash)| + 5
  {
    FpParts(afp.prevBlockHash, afp.blockId, afp.blockHash, e);
    BlockIdHasThreeParts(e, c, i);
  }

  /** With such replies every certificate itself tops a complete chain. */
  lemma EveryCertificateTopsAChain(cfg: Config, run: seq<Net>, j: nat, afp: Afp, e: int, c: string, i: int)
    returns (chain: seq<Afp>)
    requires RunOf(cfg, run) && j < |run| && cfg.honestReplies
    requires CertifiedAt(cfg, run[j], afp, e, c, i) && c in cfg.epochs[e].registry
    ensures i >= 0 && |chain| == i + 1 && IsChain(cfg, run[j], chain, e, c) && chain[i] == afp
  {
    hide IsRun, ConfigOk, Inv, Certified, BlockId, IsChain;
    RunKeepsInv(cfg, run, j);
    NoColonsUnderHonestReplies(cfg, run[j], afp, e, c, i);
    chain := CertificateChain(cfg, run, j, afp, e, c, i);
  }

  /** The two payload texts meet only through hashes that hold ':'. */
  lemma PayloadsMeetOverColons(a: string, c: string, i: int, h: string, e: int)
    ensures FpPayload(ARP_TAG + ":" + a, BlockId(e, c, i), h, e) == ArpPayload(a, e, c + ":" + Itoa(i) + ":" + h, e)
  {
    var x, y := Itoa(e), Itoa(i);
    assert (ARP_TAG + ":" + a) + ":" + (x + ":" + c + ":" + y) + ":" + h + ":" + x
        == ARP_TAG + ":" + a + ":" + x + ":" + (c + ":" + y + ":" + h) + ":" + x;
  }

  // ---- No forks ----

  /** Two certificates for one slot of a creator running this code agree, whenever they verify;
      they certify the block its generator wrote, which names the hash of its predecessor. */
  lemma NoFork(cfg: Config, run: seq<Net>, i: nat, j: nat, a: Afp, b: Afp, e: int, c: string, index: int)
    requires RunOf(cfg, run) && i < |run| && j < |run|
    requires CertifiedAt(cfg, run[i], a, e, c, index) && CertifiedAt(cfg, run[j], b, e, c, index)
    requires c in cfg.epochs[e].registry && c in cfg.honest
    ensures a.blockHash == b.blockHash
    ensures Lane(e, c) in run[i].makers && 0 <= index < |run[i].makers[Lane(e, c)].chain|
    ensures var chain := run[i].makers[Lane(e, c)].chain;
            && a.blockHash == GetHash(cfg.w, chain[index])
            && chain[index].prevHash == HashAt(cfg.w, chain, index - 1)
            && (ColonFree(a.prevBlockHash) ==> a.prevBlockHash == chain[index].prevHash)
  {
    hide IsRun, ConfigOk, Inv, Certified, BlockId, GetHash, AfpOk, FullId;
    var t := LaterState(cfg, run, i, j);
    RunKeepsInv(cfg, run, i);
    CertifiedGrows(cfg, run[i], run[t], a, e);
    CertifiedGrows(cfg, run[j], run[t], b, e);
    HonestCertificate(cfg, run[t], a, e, c, index);
    HonestCertificate(cfg, run[t], b, e, c, index);
    HonestCertificate(cfg, run[i], a, e, c, index);
    MakerChainLinked(cfg, run[i], Lane(e, c));
  }

  /** With such replies both also name the predecessor the block names. */
  lemma NoForkNamesPredecessor(cfg: Config, run: seq<Net>, i: nat, a: Afp, e: int, c: string, index: int)
    requires RunOf(cfg, run) && i < |run| && cfg.honestReplies
    requires CertifiedAt(cfg, run[i], a, e, c, index) && c in cfg.epochs[e].registry && c in cfg.honest
    ensures Lane(e, c) in run[i].makers && 0 <= index < |run[i].makers[Lane(e, c)].chain|
    ensures a.prevBlockHash == HashAt(cfg.w, run[i].makers[Lane(e, c)].chain, index - 1)
  {
    hide IsRun, ConfigOk, Inv, Certified, BlockId, GetHash, HashAt;
    RunKeepsInv(cfg, run, i);
    NoColonsUnderHonestReplies(cfg, run[i], a, e, c, index);
    NoFork(cfg, run, i, i, a, a, e, c, index);
  }

  /** With such replies two rotation certificates of a creator running this code that name one index
      name one hash, that of its block there. */
  lemma RotationPointsOfOwnBlock(cfg: Config, run: seq<Net>, i: nat, j: nat, a: Aarp, b: Aarp)
    requires RunOf(cfg, run) && i < |run| && j < |run| && cfg.honestReplies
    requires AarpCertified(cfg, run[i], a) && AarpCertified(cfg, run[j], b)
    requires a.epochIndex == b.epochIndex && a.anchor == b.anchor && a.anchor in cfg.honest
    requires a.votingStat.index == b.votingStat.index >= 0
    ensures a.votingStat.hash == b.votingStat.hash
    ensures Lane(a.epochIndex, a.anchor) in run[i].makers
    ensures var chain := run[i].makers[Lane(a.epochIndex, a.anchor)].chain;
            a.votingStat.index < |chain| && a.votingStat.hash == GetHash(cfg.w, chain[a.votingStat.index])
  {
    hide IsRun, ConfigOk, Inv, CertifiedAt, GetHash, HashAt, AarpSigners, ProofsUnforged;
    var f := RotationPointIsCertified(cfg, run, i, a);
    var g := RotationPointIsCertified(cfg, run, j, b);
    NoFork(cfg, run, i, j, f, g, a.epochIndex, a.anchor, a.votingStat.index);
  }

  lemma MakerChainLinked(cfg: Config, net: Net, lane: Lane)
    requires Inv(cfg, net) && lane in net.makers
    ensures lane.epoch in cfg.epochs && Linked(cfg.w, cfg.epochs[lane.epoch], lane.creator, net.makers[lane].chain)
  {
    hide Inv, Linked, InWindow, GeneratorOk, GrabberOk, HuntOk, CacheOk, PointerOk, OwnStore;
    MakerOf(cfg, net, lane);
  }

  // ---- The voter over a run ----

  lemma ConfigIsSound(cfg: Config)
    requires ConfigOk(cfg)
    ensures Sound(cfg.w)
  {
    hide Sound;
  }

  /** Each action moves every lane of every node forward only. */
  lemma ActionMovesForward(cfg: Config, net: Net, a: Action, k: string, lane: Lane)
    requires ConfigOk(cfg) && Inv(cfg, net) && Enabled(cfg, net, a) && k in cfg.honest
    ensures k in net.nodes && k in After(cfg, net, a).nodes && Forward(net.nodes[k], After(cfg, net, a).nodes[k], lane)
  {
    hide Inv, ConfigOk, InputOk, MayVote, RotationReply, Do, Can, VoteUpTo, Fact, StatFact, Makers;
    NodeOf(cfg, net, k);
    var s := net.nodes[k];
    assert Ordered(s, lane);
    match a
    case Vote(_, open, window, req, stage) =>
      var ep := FindEpoch(window, req.block.epoch);
      if a.k == k && open && ep.Some? && MayVote(cfg.w, s, ep.value, req) {
        ConfigIsSound(cfg);
        VoteKeepsOrder(cfg.w, s, ep.value, req, stage, lane);
      }
    case Rotate(_, window, rot) => RotationKeepsOrder(cfg.w, s, window, rot, lane);
    case TakeUpgrade(_, at, _, reply) => RaiseKeepsOrder(s, at, reply, lane);
    case TakePull(_, at, _, reply) => RaiseKeepsOrder(s, at, reply, lane);
    case SwitchOff(_, at) => DisableKeepsOrder(s, at, lane);
    case Report(_, _) =>
    case Finish(_, _) =>
    case Run(at, ev) =>
      DoStaysInOwnSlots(cfg.w, cfg.epochs[at.epoch], at.creator, net.nodes[at.creator], net.makers[at], ev);
  }

  lemma NextMovesForward(cfg: Config, run: seq<Net>, i: nat, k: string, lane: Lane)
    requires RunOf(cfg, run) && i + 1 < |run| && k in cfg.honest
    ensures k in run[i].nodes && k in run[i + 1].nodes
    ensures Forward(run[i].nodes[k], run[i + 1].nodes[k], lane) && Ordered(run[i].nodes[k], lane) &&
        Ordered(run[i + 1].nodes[k], lane)
  {
    hide Inv, ConfigOk, CanAct, InputOk, After, Forward, Ordered, Init;
    RunKeepsInv(cfg, run, i);
    RunKeepsInv(cfg, run, i + 1);
    assert Next(cfg, run[i], run[i + 1]);
    var a :| Enabled(cfg, run[i], a) && run[i + 1] == After(cfg, run[i], a);
    ActionMovesForward(cfg, run[i], a, k, lane);
    NodeOf(cfg, run[i], k);
    NodeOf(cfg, run[i + 1], k);
  }

  /** Between any two moments of a run a node's stat index never falls, its ban on a creator is
      never lifted, and once it has signed a rotation of a creator it signs no further vote for it. */
  lemma {:induction false} VoterOverRun(cfg: Config, run: seq<Net>, i: nat, j: nat, k: string, lane: Lane)
    requires RunOf(cfg, run) && i <= j < |run| && k in cfg.honest
    ensures k in run[i].nodes && k in run[j].nodes
    ensures StatOf(run[i].nodes[k], lane).index <= StatOf(run[j].nodes[k], lane).index
    ensures run[i].nodes[k].disabled <= run[j].nodes[k].disabled
    ensures (exists a :: a in run[i].nodes[k].signed && a.Arp? && Lane(a.epoch, a.creator) == lane) ==>
              forall v :: v in run[j].nodes[k].signed && v.Fp? && Lane(v.epoch, v.creator) == lane ==>
                  v in run[i].nodes[k].signed
    decreases j
  {
    hide IsRun, ConfigOk;
    if i == j {
      RunKeepsInv(cfg, run, i);
      NodeOf(cfg, run[i], k);
    } else {
      VoterOverRun(cfg, run, i, j - 1, k, lane);
      NextMovesForward(cfg, run, j - 1, k, lane);
      RunGrowsAt(cfg, run, i, j - 1, k);
    }
  }

  lemma RunGrowsAt(cfg: Config, run: seq<Net>, i: nat, j: nat, k: string)
    requires RunOf(cfg, run) && i <= j < |run| && k in cfg.honest
    ensures k in run[i].nodes && k in run[j].nodes && run[i].nodes[k].signed <= run[j].nodes[k].signed
  {
    hide IsRun, ConfigOk, NodeFacts, Makers, StatFact;
    RunKeepsInv(cfg, run, i);
    RunGrows(cfg, run, i, j);
  }

  /** At every moment: votes are at most one above the stat and above any rotation point signed. */
  lemma VoterInvariant(cfg: Config, run: seq<Net>, i: nat, k: string, lane: Lane)
    requires RunOf(cfg, run) && i < |run| && k in cfg.honest
    ensures k in run[i].nodes && Ordered(run[i].nodes[k], lane)
  {
    hide Inv, ConfigOk, IsRun, Ordered;
    RunKeepsInv(cfg, run, i);
    NodeOf(cfg, run[i], k);
  }

  // ---- The creator over a run ----

  /** Generator and grabber stay in step in every interleaving; with restarts one slot more. All
      certificates up to the accepted index are stored and name the stored blocks. */
  lemma CreatorWindow(cfg: Config, run: seq<Net>, i: nat, lane: Lane)
    requires RunOf(cfg, run) && i < |run| && lane in run[i].makers
    ensures var m := run[i].makers[lane];
            && m.grabber.acceptedIndex + 1 <= m.meta.nextIndex <= m.grabber.acceptedIndex + 3
            && m.saved.acceptedIndex + 1 <= m.gt.nextIndex <= m.saved.acceptedIndex + 3
            && (!cfg.crashes ==> m.meta.nextIndex <= m.grabber.acceptedIndex + 2)
    ensures lane.creator in run[i].nodes && lane.epoch in cfg.epochs
    ensures var m, n, ep, me := run[i].makers[lane], run[i].nodes[lane.creator], cfg.epochs[lane.epoch], lane.creator;
            && -1 <= m.grabber.acceptedIndex < |m.chain|
            && m.grabber.acceptedHash == HashAt(cfg.w, m.chain, m.grabber.acceptedIndex)
            && forall t {:trigger Slot(ep.id, me, t)} :: 0 <= t <= m.grabber.acceptedIndex ==>
                 && Slot(ep.id, me, t) in n.blocks && GetHash(cfg.w, n.blocks[Slot(ep.id, me, t)]) ==
                     GetHash(cfg.w, m.chain[t])
                 && Slot(ep.id, me, t) in n.afps && StoredAfpOk(cfg.w, ep, me, m.chain, t, n.afps[Slot(ep.id, me, t)])
  {
    hide Inv, IsRun, ConfigOk, GetHash, StoredAfpOk, Linked, HuntOk, CacheOk, PointerOk, Follows;
    RunKeepsInv(cfg, run, i);
    MakerOf(cfg, run[i], lane);
  }
}
