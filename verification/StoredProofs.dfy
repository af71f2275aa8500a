/** What honest nodes keep in their databases over a run: every stored certificate passes the
    verifier of its epoch for exactly the slot it is stored under. */
module StoredProofs {
  import opened Text
  import opened Structures
  import opened Payloads
  import opened Certificates
  import opened Voter
  import opened Maker
  import opened Network
  import opened Safety
  import opened AnchorNodes
  import Walk

  ghost predicate AfpFits(cfg: Config, net: Net, slot: Slot, afp: Afp) {
    CertifiedAt(cfg, net, afp, slot.epoch, slot.creator, slot.index)
  }

  ghost predicate BlockFits(cfg: Config, slot: Slot, b: Block) {
    slot.epoch in cfg.epochs && b.creator == slot.creator && b.index == slot.index &&
        b.epoch == FullId(cfg.epochs[slot.epoch])
  }

  ghost predicate StoreFits(cfg: Config, net: Net, s: Node) {
    && (forall slot :: slot in s.afps ==> AfpFits(cfg, net, slot, s.afps[slot]))
    && (forall slot :: slot in s.blocks ==> BlockFits(cfg, slot, s.blocks[slot]))
  }

  ghost predicate StoresFit(cfg: Config, net: Net) {
    forall k :: k in net.nodes ==> StoreFits(cfg, net, net.nodes[k])
  }

  lemma StoreFitsGrows(cfg: Config, net: Net, net': Net, s: Node)
    requires Grows(net, net') && StoreFits(cfg, net, s)
    ensures StoreFits(cfg, net', s)
  {
    hide Grows, Certified, BlockId, BlockFits;
    forall slot | slot in s.afps
      ensures AfpFits(cfg, net', slot, s.afps[slot])
    {
      CertifiedGrows(cfg, net, net', s.afps[slot], slot.epoch);
    }
  }

  lemma VoteStoreFits(cfg: Config, net: Net, a: Action)
    requires ConfigOk(cfg) && Inv(cfg, net) && a.Vote? && Enabled(cfg, net, a)
    requires StoreFits(cfg, net, net.nodes[a.k])
    ensures StoreFits(cfg, net, After(cfg, net, a).nodes[a.k])
  {
    hide Inv, ConfigOk, AfpOk, AfpUnforged, BlockId, GetHash, BlockSigned, BlockUnforged, NextStat, FpStatement, FullId;
    var ep := FindEpoch(a.window, a.req.block.epoch);
    if a.open && ep.Some? && MayVote(cfg.w, net.nodes[a.k], ep.value, a.req) {
      assert ep.value in a.window;
    }
  }

  /** The certificate a hunt is about to store passes the verifier. */
  lemma HuntAboutToCertify(w: World, ep: Epoch, me: string, n: Node, m: Maker, crashes: bool)
    requires MakerInv(w, ep, me, n, m, crashes) && Can(w, ep, me, n, m, Certify)
    ensures AfpOk(w, HuntAfp(w, ep, me, m.hunt), ep)
  {
    hide GetHash, VoteText, AfpPayload, GeneratorOk, StoredBlockOk, PointerOk, HuntAfp, GrabberOk, ProofsOk, Linked,
         OwnStore, CacheOk, AfpOk;
    HuntCertifies(w, ep, me, m);
  }

  /** The block the generator is about to write carries its own slot. */
  lemma GeneratorAboutToWrite(w: World, ep: Epoch, me: string, n: Node, m: Maker, crashes: bool)
    requires MakerInv(w, ep, me, n, m, crashes) && Can(w, ep, me, n, m, Write)
    ensures m.gen.block.creator == me && m.gen.block.epoch == FullId(ep)
  {
    hide GetHash, FullId, HashAt, Linked, GrabberOk, HuntOk, CacheOk, PointerOk, OwnStore, InWindow;
  }

  lemma OwnWrites(w: World, ep: Epoch, me: string, n: Node, m: Maker, ev: Event)
    requires Can(w, ep, me, n, m, ev)
    ensures var n' := Do(w, ep, me, n, m, ev).0;
            && (n'.blocks == n.blocks || (ev.Write? && n'.blocks ==
                                          n.blocks[Slot(ep.id, me, m.gen.block.index) := m.gen.block]))
            && (n'.afps == n.afps || (ev.Certify? &&
                  n'.afps == n.afps[Slot(ep.id, me, m.hunt.from.acceptedIndex + 1) := HuntAfp(w, ep, me, m.hunt)]))
  {
    hide HuntAfp, AfterBuild, AfterBump, AfpPayload;
  }

  lemma EpochId(cfg: Config, e: int)
    requires ConfigOk(cfg) && e in cfg.epochs
    ensures cfg.epochs[e].id == e
  {
    hide Sound, FaultyBound, Numeral, HexText;
    assert EpochOk(cfg, e, cfg.epochs[e]);
  }

  lemma PutFits(cfg: Config, net: Net, s: Node, s': Node, slot: Slot)
    requires StoreFits(cfg, net, s)
    requires s'.afps == s.afps || (slot in s'.afps && s'.afps == s.afps[slot := s'.afps[slot]] &&
                                   AfpFits(cfg, net, slot, s'.afps[slot]))
    requires s'.blocks == s.blocks || (slot in s'.blocks && s'.blocks == s.blocks[slot := s'.blocks[slot]] &&
                                       BlockFits(cfg, slot, s'.blocks[slot]))
    ensures StoreFits(cfg, net, s')
  {
    hide AfpFits, BlockFits;
  }

  /** An event of the creator loops, seen from the databases. */
  lemma EventStoreFits(cfg: Config, net: Net, e: int, me: string, n: Node, m: Maker, ev: Event)
    requires ConfigOk(cfg) && e in cfg.epochs && MakerInv(cfg.w, cfg.epochs[e], me, n, m, cfg.crashes)
    requires Can(cfg.w, cfg.epochs[e], me, n, m, ev) && StoreFits(cfg, net, n)
    requires ev.Certify? && m.hunt.Hunting? ==> AfpUnforged(cfg, net, HuntAfp(cfg.w, cfg.epochs[e], me, m.hunt), e)
    ensures StoreFits(cfg, net, Do(cfg.w, cfg.epochs[e], me, n, m, ev).0)
  {
    hide ConfigOk, AfpUnforged, AfpOk, BlockId, GetHash, FullId, MakerInv, Do, StoreFits;
    var ep := cfg.epochs[e];
    var n' := Do(cfg.w, ep, me, n, m, ev).0;
    EpochId(cfg, e);
    OwnWrites(cfg.w, ep, me, n, m, ev);
    match ev {
      case Certify =>
        HuntAboutToCertify(cfg.w, ep, me, n, m, cfg.crashes);
        PutFits(cfg, net, n, n', Slot(e, me, m.hunt.from.acceptedIndex + 1));
      case Write =>
        GeneratorAboutToWrite(cfg.w, ep, me, n, m, cfg.crashes);
        PutFits(cfg, net, n, n', Slot(e, me, m.gen.block.index));
      case _ =>
        PutFits(cfg, net, n, n', Slot(e, me, 0));
    }
  }

  lemma ActionKeepsStores(cfg: Config, net: Net, a: Action)
    requires ConfigOk(cfg) && Inv(cfg, net) && Enabled(cfg, net, a) && StoresFit(cfg, net)
    ensures StoresFit(cfg, After(cfg, net, a))
  {
    hide Inv, ConfigOk, InputOk, StoreFits, Grows, RotationStep, VoteStep, Do, Can;
    var net' := After(cfg, net, a);
    ActionKeepsInv(cfg, net, a);
    forall k | k in net'.nodes
      ensures StoreFits(cfg, net', net'.nodes[k])
    {
      StoreAfter(cfg, net, a, k);
      StoreFitsGrows(cfg, net, net', net'.nodes[k]);
    }
  }

  /** The databases of any node after an action, judged in the state before it. */
  lemma StoreAfter(cfg: Config, net: Net, a: Action, k: string)
    requires ConfigOk(cfg) && Inv(cfg, net) && Enabled(cfg, net, a) && StoresFit(cfg, net)
    requires k in After(cfg, net, a).nodes
    ensures StoreFits(cfg, net, After(cfg, net, a).nodes[k])
  {
    hide Inv, ConfigOk, AfpFits, BlockFits, RotationReply, VoteUpTo, MayVote, Do, Can, MakerInv, AfpUnforged, HuntAfp,
         BlockUnforged, ReplyAllowed;
    match a
    case Vote(j, _, _, _, _) => if j == k { VoteStoreFits(cfg, net, a); }
    case Run(lane, ev) =>
      MakerOf(cfg, net, lane);
      if lane.creator == k { EventStoreFits(cfg, net, lane.epoch, k, net.nodes[k], net.makers[lane], ev); }
    case _ =>
  }

  /** At every moment of a run each stored certificate is one for its slot, and each stored
      block carries the creator, index and epoch it is stored under. */
  lemma {:induction false} RunStoresFit(cfg: Config, run: seq<Net>, i: nat)
    requires RunOf(cfg, run) && i < |run|
    ensures StoresFit(cfg, run[i])
  {
    hide Inv, ConfigOk, After, CanAct, InputOk, Shape;
    if i > 0 {
      RunStoresFit(cfg, run, i - 1);
      RunKeepsInv(cfg, run, i - 1);
      assert Next(cfg, run[i - 1], run[i]);
      var a :| Enabled(cfg, run[i - 1], a) && run[i] == After(cfg, run[i - 1], a);
      ActionKeepsStores(cfg, run[i - 1], a);
    }
  }

  // ---- What a vote leaves behind ----

  /** Whoever has voted holds the block's slot and the certificate below it; the blocks held of a creator
      running this code are its own. */
  ghost predicate VotesHeld(cfg: Config, net: Net, s: Node) {
    && (forall v :: v in s.signed && v.Fp? ==>
          Slot(v.epoch, v.creator, v.index) in s.blocks
          && (v.index > 0 ==> Slot(v.epoch, v.creator, v.index - 1) in s.afps))
    && (forall slot :: slot in s.blocks && slot.creator in cfg.honest ==> OwnBlock(cfg, net, slot, s.blocks[slot]))
  }

  ghost predicate AllHeld(cfg: Config, net: Net) { forall k :: k in net.nodes ==> VotesHeld(cfg, net, net.nodes[k]) }

  predicate OwnBlock(cfg: Config, net: Net, slot: Slot, b: Block) {
    OnChain(cfg, net, slot.creator, slot.epoch, slot.index, GetHash(cfg.w, b))
  }

  lemma HeldGrows(cfg: Config, net: Net, net': Net, s: Node, s': Node)
    requires Grows(net, net') && VotesHeld(cfg, net, s)
    requires s'.blocks == s.blocks && s'.afps == s.afps && forall v :: v in s'.signed && v.Fp? ==> v in s.signed
    ensures VotesHeld(cfg, net', s')
  {
    hide GetHash;
  }

  lemma VoteIsHeld(cfg: Config, net: Net, net': Net, s: Node, ep: Epoch, req: FpRequest, stage: nat)
    requires ConfigOk(cfg) && Inv(cfg, net) && Grows(net, net') && VotesHeld(cfg, net, s)
    requires ep.id in cfg.epochs && cfg.epochs[ep.id] == ep && MayVote(cfg.w, s, ep, req)
    requires req.block.epoch == FullId(ep) && BlockUnforged(cfg, net, req.block)
    ensures VotesHeld(cfg, net', VoteUpTo(cfg.w, s, ep, req, stage))
  {
    hide Inv, ConfigOk, GetHash, FullId, BlockUnforged, BlockSigned, HasPrevAfp, NextStat, Grows, OnChain;
    var b := req.block;
    if b.creator in cfg.honest {
      assert BlockSigned(cfg.w, b);
      HonestBlock(cfg, net, ep.id, b);
      OnChainGrows(cfg, net, net', b.creator, ep.id, b.index, GetHash(cfg.w, b));
    }
    HeldGrows(cfg, net, net', s, s);
    var s' := VoteUpTo(cfg.w, s, ep, req, stage);
    assert forall slot :: slot in s'.blocks && slot != Slot(ep.id, b.creator, b.index) ==>
        slot in s.blocks && s'.blocks[slot] == s.blocks[slot];
  }

  /** The creator loops write own blocks only. */
  lemma EventIsHeld(cfg: Config, net: Net, a: Action)
    requires ConfigOk(cfg) && Inv(cfg, net) && a.Run? && Enabled(cfg, net, a) && a.lane.creator in cfg.honest
    requires VotesHeld(cfg, net, net.nodes[a.lane.creator]) && Grows(net, After(cfg, net, a))
    ensures VotesHeld(cfg, After(cfg, net, a), After(cfg, net, a).nodes[a.lane.creator])
  {
    hide Inv, ConfigOk, GetHash, HuntAfp, AfpPayload, InputOk, MakerInv, Grows, AfpUnforged, FullId;
    var me, ep := a.lane.creator, cfg.epochs[a.lane.epoch];
    var n, m, net' := net.nodes[me], net.makers[a.lane], After(cfg, net, a);
    MakerOf(cfg, net, a.lane);
    EpochId(cfg, a.lane.epoch);
    OwnWrites(cfg.w, ep, me, n, m, a.ev);
    DoStaysInOwnSlots(cfg.w, ep, me, n, m, a.ev);
    var n' := net'.nodes[me];
    forall slot | slot in n'.blocks && slot.creator in cfg.honest
      ensures OwnBlock(cfg, net', slot, n'.blocks[slot])
    {
      if slot in n.blocks && n'.blocks[slot] == n.blocks[slot] {
        assert OwnBlock(cfg, net, slot, n.blocks[slot]);
        OnChainGrows(cfg, net, net', slot.creator, slot.epoch, slot.index, GetHash(cfg.w, n.blocks[slot]));
      } else {
        GeneratorWritesNext(cfg.w, ep, me, n, m, cfg.crashes);
        assert net'.makers[a.lane].chain == m.chain + [m.gen.block];
      }
    }
  }

  lemma OnChainGrows(cfg: Config, net: Net, net': Net, k: string, e: int, i: int, hash: string)
    requires Grows(net, net') && OnChain(cfg, net, k, e, i, hash)
    ensures OnChain(cfg, net', k, e, i, hash)
  {
    hide GetHash;
  }

  lemma GeneratorWritesNext(w: World, ep: Epoch, me: string, n: Node, m: Maker, crashes: bool)
    requires MakerInv(w, ep, me, n, m, crashes) && m.gen.GenBumped?
    ensures m.gen.block.index == |m.chain|
  {
    hide GetHash, FullId, HashAt, Linked, GrabberOk, HuntOk, CacheOk, PointerOk, OwnStore, InWindow;
  }

  lemma ActionKeepsHeld(cfg: Config, net: Net, a: Action, k: string)
    requires ConfigOk(cfg) && Inv(cfg, net) && Enabled(cfg, net, a) && k in cfg.honest
    requires AllHeld(cfg, net)
    ensures k in net.nodes && k in After(cfg, net, a).nodes &&
        VotesHeld(cfg, After(cfg, net, a), After(cfg, net, a).nodes[k])
  {
    hide Inv, ConfigOk, VotesHeld, RotationReply, VoteUpTo, MayVote, Do, Can, AfpUnforged, BlockUnforged, ReplyAllowed,
         Grows, FullId;
    NodeOf(cfg, net, k);
    ActionKeepsInv(cfg, net, a);
    var net' := After(cfg, net, a);
    match a
    case Vote(j, open, window, req, stage) =>
      var ep := FindEpoch(window, req.block.epoch);
      if j == k && open && ep.Some? && MayVote(cfg.w, net.nodes[k], ep.value, req) {
        assert ep.value in window;
        VoteIsHeld(cfg, net, net', net.nodes[k], ep.value, req, stage);
      } else {
        HeldGrows(cfg, net, net', net.nodes[k], net'.nodes[k]);
      }
    case Run(lane, ev) =>
      if lane.creator == k {
        EventIsHeld(cfg, net, a);
      } else {
        HeldGrows(cfg, net, net', net.nodes[k], net'.nodes[k]);
      }
    case Rotate(j, window, rot) =>
      if j == k && RotationReply(cfg.w, net.nodes[k], window, rot).Signed? {
        RotationIsNotBehind(cfg.w, net.nodes[k], window, rot);
      }
      HeldGrows(cfg, net, net', net.nodes[k], net'.nodes[k]);
    case _ => HeldGrows(cfg, net, net', net.nodes[k], net'.nodes[k]);
  }

  lemma NothingHeld(cfg: Config, net: Net)
    ensures VotesHeld(cfg, net, EMPTY_NODE)
  {
  }

  lemma {:induction false} RunKeepsHeld(cfg: Config, run: seq<Net>, i: nat)
    requires RunOf(cfg, run) && i < |run|
    ensures AllHeld(cfg, run[i])
    decreases i
  {
    hide Inv, ConfigOk, After, CanAct, InputOk, VotesHeld;
    if i > 0 {
      RunKeepsHeld(cfg, run, i - 1);
      RunKeepsInv(cfg, run, i - 1);
      RunKeepsInv(cfg, run, i);
      HonestOnly(cfg, run[i]);
      assert Next(cfg, run[i - 1], run[i]);
      var a :| Enabled(cfg, run[i - 1], a) && run[i] == After(cfg, run[i - 1], a);
      forall k | k in run[i].nodes
        ensures VotesHeld(cfg, run[i], run[i].nodes[k])
      {
        ActionKeepsHeld(cfg, run[i - 1], a, k);
      }
    } else {
      NothingHeld(cfg, run[0]);
    }
  }

  lemma HonestOnly(cfg: Config, net: Net)
    requires Inv(cfg, net)
    ensures net.nodes.Keys == cfg.honest
  {
    hide NodeFacts, Makers, StatFact;
  }

  /** At every moment of a run, behind each vote a node has signed stand the block and, above index 0, a
      stored certificate for its predecessor; for a creator running this code they are the block voted
      for and the predecessor named. */
  lemma VoteIsBacked(cfg: Config, run: seq<Net>, i: nat, k: string, v: Statement)
    requires RunOf(cfg, run) && i < |run| && k in cfg.honest && k in run[i].nodes && v in run[i].nodes[k].signed &&
        v.Fp?
    ensures var slot := Slot(v.epoch, v.creator, v.index);
            && slot in run[i].nodes[k].blocks
            && (v.creator in cfg.honest ==> GetHash(cfg.w, run[i].nodes[k].blocks[slot]) == v.hash)
    ensures v.index > 0 ==>
              var below := Slot(v.epoch, v.creator, v.index - 1);
              && below in run[i].nodes[k].afps
              && CertifiedAt(cfg, run[i], run[i].nodes[k].afps[below], v.epoch, v.creator, v.index - 1)
              && (v.creator in cfg.honest ==> run[i].nodes[k].afps[below].blockHash == v.prev)
  {
    hide IsRun, ConfigOk, Inv, CertifiedAt, GetHash, GenuineAt, Fact;
    RunKeepsInv(cfg, run, i);
    RunKeepsHeld(cfg, run, i);
    RunStoresFit(cfg, run, i);
    NodeOf(cfg, run[i], k);
    var n, slot, below := run[i].nodes[k], Slot(v.epoch, v.creator, v.index), Slot(v.epoch, v.creator, v.index - 1);
    assert StoreFits(cfg, run[i], n) && Fact(cfg, run[i], v);
    VoteFacts(cfg, run[i], v);
    if v.creator in cfg.honest {
      assert OwnBlock(cfg, run[i], slot, n.blocks[slot]);
    }
    if v.index > 0 {
      assert AfpFits(cfg, run[i], below, n.afps[below]);
      if v.creator in cfg.honest {
        NamedIsCertified(cfg, run, i, n.afps[below], v);
      }
    }
  }

  lemma VoteFacts(cfg: Config, net: Net, v: Statement)
    requires Fact(cfg, net, v) && v.Fp?
    ensures v.epoch in cfg.epochs && v.creator in cfg.epochs[v.epoch].registry && v.index >= 0
    ensures v.index > 0 ==> GenuineAt(cfg, net, v.epoch, v.creator, v.index - 1, v.prev)
    ensures v.creator in cfg.honest ==> OnChain(cfg, net, v.creator, v.epoch, v.index, v.hash)
  {
    hide GetHash, GenuineAt, FullId;
  }

  lemma NamedIsCertified(cfg: Config, run: seq<Net>, i: nat, afp: Afp, v: Statement)
    requires RunOf(cfg, run) && i < |run| && v.Fp? && v.epoch in cfg.epochs
    requires v.creator in cfg.honest && v.creator in cfg.epochs[v.epoch].registry
    requires CertifiedAt(cfg, run[i], afp, v.epoch, v.creator, v.index - 1)
    requires GenuineAt(cfg, run[i], v.epoch, v.creator, v.index - 1, v.prev)
    ensures afp.blockHash == v.prev
  {
    hide IsRun, ConfigOk, Certified, GetHash;
    var g :| Genuine(cfg, run[i], g, v.epoch, v.creator, v.index - 1, v.prev);
    NoFork(cfg, run, i, i, afp, g, v.epoch, v.creator, v.index - 1);
  }

  /** Below every stored certificate hangs a chain down to the initial hash. */
  lemma StoredAfpChain(cfg: Config, run: seq<Net>, i: nat, k: string, slot: Slot) returns (chain: seq<Afp>)
    requires RunOf(cfg, run) && i < |run| && k in run[i].nodes && slot in run[i].nodes[k].afps
    requires slot.epoch in cfg.epochs && slot.creator in cfg.epochs[slot.epoch].registry
    ensures slot.index >= 0 && |chain| == slot.index + 1 && IsChain(cfg, run[i], chain, slot.epoch, slot.creator)
    ensures chain[slot.index].blockHash == run[i].nodes[k].afps[slot].blockHash
  {
    hide IsRun, ConfigOk, CertifiedAt, IsChain;
    RunStoresFit(cfg, run, i);
    var afp := run[i].nodes[k].afps[slot];
    assert StoreFits(cfg, run[i], run[i].nodes[k]) && AfpFits(cfg, run[i], slot, afp);
    chain := CertificateChain(cfg, run, i, afp, slot.epoch, slot.creator, slot.index);
  }

  ghost predicate Certifies(cfg: Config, net: Net, chain: seq<Afp>, e: int, creator: string, i: int) {
    exists t :: 0 <= t < |chain| && CertifiedAt(cfg, net, chain[t], e, creator, i)
  }

  lemma ChainCertifiesIff(cfg: Config, run: seq<Net>, j: nat, chain: seq<Afp>, e: int, c: string, i: int)
    requires RunOf(cfg, run) && j < |run| && e in cfg.epochs && c in cfg.epochs[e].registry
    requires IsChain(cfg, run[j], chain, e, c) && i < |chain|
    ensures Certifies(cfg, run[j], chain, e, c, i) <==> i >= 0
  {
    hide IsRun, ConfigOk, CertifiedAt;
    if i >= 0 {
      assert LinkAt(cfg, run[j], chain, e, c, i);
    }
    if Certifies(cfg, run[j], chain, e, c, i) {
      var t :| 0 <= t < |chain| && CertifiedAt(cfg, run[j], chain[t], e, c, i);
      var below := CertificateChain(cfg, run, j, chain[t], e, c, i);
    }
  }

  /** The certificate attached to alignment data tops a chain that certifies a listed FoundInBlock
      exactly when that index is not negative. */
  lemma AttachedAfpProvesListedBlocks(cfg: Config, run: seq<Net>, i: nat, k: string, e: int, creator: string,
                                      db: Walk.RotationDb, required: seq<string>, top: int) returns (chain: seq<Afp>)
    requires RunOf(cfg, run) && i < |run| && k in run[i].nodes && db.afps == run[i].nodes[k].afps
    requires e in cfg.epochs && creator in cfg.epochs[e].registry
    requires Walk.IsTop(db, e, creator, required, top) && Slot(e, creator, Walk.Succ64(top)) in db.afps
    ensures chain != [] && IsChain(cfg, run[i], chain, e, creator)
    ensures chain[|chain| - 1].blockHash == db.afps[Slot(e, creator, Walk.Succ64(top))].blockHash
    ensures forall key :: key in required ==>
              Walk.Included(db, e, creator, key) &&
              var listed := Walk.DataOf(db, e, creator, key).foundInBlock;
              listed + 1 < |chain| && (Certifies(cfg, run[i], chain, e, creator, listed) <==> listed >= 0)
  {
    hide IsRun, ConfigOk, IsChain, Certifies, Walk.Included, Walk.DataOf;
    chain := StoredAfpChain(cfg, run, i, k, Slot(e, creator, Walk.Succ64(top)));
    forall key | key in required
      ensures Walk.Included(db, e, creator, key)
      ensures var listed := Walk.DataOf(db, e, creator, key).foundInBlock;
              listed + 1 < |chain| && (Certifies(cfg, run[i], chain, e, creator, listed) <==> listed >= 0)
    {
      ChainCertifiesIff(cfg, run, i, chain, e, creator, Walk.DataOf(db, e, creator, key).foundInBlock);
    }
  }

  /** What a stat read from a node running this code is like. */
  ghost predicate StatReadOk(cfg: Config, net: Net, lane: Lane, stat: VotingStat) {
    && lane.epoch in cfg.epochs && StatFact(cfg, net, lane, stat)
    && stat.index >= -1 && (stat.index == -1 ==> stat == TEMPLATE)
  }

  lemma StatIsReadOk(cfg: Config, net: Net, k: string, lane: Lane)
    requires Inv(cfg, net) && k in cfg.honest && lane.epoch in cfg.epochs
    ensures k in net.nodes && StatReadOk(cfg, net, lane, StatOf(net.nodes[k], lane))
  {
    hide Inv, StatFact, Makers, Fact;
    NodeOf(cfg, net, k);
    StatOfFact(cfg, net, net.nodes[k], lane);
    assert Ordered(net.nodes[k], lane);
  }

  /** With voting stats reported by nodes running this code, the rotation proof a collector assembles
      on a stat it has read passes the verifier exactly when the creator has an approved block:
      without one the stat names no block, and the stored proof is refused by everybody. */
  lemma AssembledOnReadStat(cfg: Config, net: Net, e: int, anchor: string, local: VotingStat,
                            signatures: map<string, string>)
    requires ConfigOk(cfg) && cfg.honestReplies && e in cfg.epochs && anchor in cfg.epochs[e].registry
    requires StatReadOk(cfg, net, Lane(e, anchor), local) && local.index <= MAX_INT64
    requires SignaturesChecked(cfg.w, cfg.epochs[e], anchor, local, signatures)
    requires |signatures| >= Majority(|cfg.epochs[e].quorum|)
    ensures AarpOk(cfg.w, Assembled(cfg.epochs[e], anchor, local, signatures), cfg.epochs[e]) <==> local.index >= 0
  {
    hide ConfigOk, AarpOk, SignaturesChecked, Grounded, GenuineAt;
    EpochId(cfg, e);
    RegistryIsColonFree(cfg, e, anchor);
    AssembledVerifiesIff(cfg.w, cfg.epochs[e], anchor, local, signatures);
    if local.index < 0 {
      BlockIdHasThreeParts(e, anchor, -1);
      assert Split("") == [""];
    }
  }

  /** So at every moment of every run. */
  lemma CollectedProofVerifiesIff(cfg: Config, run: seq<Net>, i: nat, k: string, e: int, anchor: string,
                                  signatures: map<string, string>)
    requires RunOf(cfg, run) && i < |run| && cfg.honestReplies && k in cfg.honest && k in run[i].nodes
    requires e in cfg.epochs && anchor in cfg.epochs[e].registry
    requires var local := StatOf(run[i].nodes[k], Lane(e, anchor));
             && local.index <= MAX_INT64
             && SignaturesChecked(cfg.w, cfg.epochs[e], anchor, local, signatures)
             && |signatures| >= Majority(|cfg.epochs[e].quorum|)
    ensures var local := StatOf(run[i].nodes[k], Lane(e, anchor));
            AarpOk(cfg.w, Assembled(cfg.epochs[e], anchor, local, signatures), cfg.epochs[e]) <==> local.index >= 0
  {
    hide IsRun, Inv, ConfigOk, AarpOk, SignaturesChecked, StatReadOk;
    RunKeepsInv(cfg, run, i);
    StatIsReadOk(cfg, run[i], k, Lane(e, anchor));
    AssembledOnReadStat(cfg, run[i], e, anchor, StatOf(run[i].nodes[k], Lane(e, anchor)), signatures);
  }

  lemma RegistryIsColonFree(cfg: Config, e: int, anchor: string)
    requires ConfigOk(cfg) && e in cfg.epochs && anchor in cfg.epochs[e].registry
    ensures ColonFree(anchor)
  {
    hide Sound, FaultyBound, HexText, Numeral;
    assert EpochOk(cfg, e, cfg.epochs[e]);
  }
}
