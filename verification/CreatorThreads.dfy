/** generateBlock and runFinalizationProofsGrabbing as one pass of each thread over the node's
    databases and memory. A pass may stop after any critical section or durable write. */
module CreatorThreads {
  import opened Text
  import opened Structures
  import opened Payloads
  import opened Certificates
  import opened Voter
  import opened Maker

  /** A finalization reply as parsed from the wire. */
  datatype FpReply = FpReply(voter: string, proof: string, votedForHash: string)

  function DbNode(blocks: map<Slot, Block>, afps: map<Slot, Afp>): Node { Node(map[], {}, blocks, afps, {}, {}) }

  /** The first `cut` sections of a generator pass: read the accepted index, build, bump the
      metadata, write block and metadata in one batch. */
  function GenerateUpTo(w: World, ep: Epoch, me: string, n: Node, m: Maker, time: int, extra: ExtraData, sig: string,
                        cut: nat): (Node, Maker)
    requires m.gen.GenIdle?
  {
    if cut == 0 then (n, m)
    else
      var read := m.(gen := GenRead(m.grabber.acceptedIndex));
      if cut == 1 then (n, read)
      else
        var built := AfterBuild(w, ep, me, read, time, extra, sig);
        if cut == 2 || built.gen.GenIdle? then (n, built)
        else
          var bumped := AfterBump(w, built);
          if cut == 3 then (n, bumped)
          else (PutBlock(n, Slot(ep.id, me, bumped.gen.block.index), bumped.gen.block), AfterWrite(bumped))
  }

  function ProofsOf(replies: seq<FpReply>): map<string, string> {
    if replies == [] then map[]
    else ProofsOf(replies[..|replies| - 1])[replies[|replies| - 1].voter := replies[|replies| - 1].proof]
  }

  /** The validation callback of the grabber. */
  predicate ReplyValid(w: World, ep: Epoch, text: string, blockHash: string, r: FpReply) {
    r.votedForHash == blockHash && ReplyOk(w, ep, text, r.voter, r.proof)
  }

  /** Sections 1 and 2 of a grabber pass: resolve the block to hunt, merge what the quorum wait
      returned; without enough proofs the pass gives up. */
  function HuntUpTo(w: World, ep: Epoch, me: string, n: Node, m: Maker, replies: Option<seq<FpReply>>, cut: nat): Maker
    requires m.hunt.HuntIdle?
  {
    if cut == 0 || !Can(w, ep, me, n, m, Start) then m
    else
      var started := AfterStart(m, if PointerHits(m) then m.pointer.value else n.blocks[HuntedSlot(ep, me, m)]);
      if cut == 1 || |started.hunt.proofs| >= Majority(|ep.quorum|) then started
      else if replies.None? then started.(hunt := HuntIdle)
      else AfterCollect(started, ProofsOf(replies.value))
  }

  /** Sections 3 to 5: store the certificate, advance the grabber, persist its snapshot. */
  function StoreUpTo(w: World, ep: Epoch, me: string, n: Node, m: Maker, cut: nat): (Node, Maker)
    requires m.hunt.Hunting?
  {
    if cut <= 2 then (n, m)
    else if |m.hunt.proofs| < Majority(|ep.quorum|) then (n, m.(hunt := HuntIdle))
    else
      var afp := HuntAfp(w, ep, me, m.hunt);
      var stored := PutAfp(n, Slot(ep.id, me, m.hunt.from.acceptedIndex + 1), afp);
      (stored, AdvanceUpTo(m.(hunt := AfpStored(afp)), cut))
  }

  function AdvanceUpTo(m: Maker, cut: nat): Maker
    requires m.hunt.AfpStored?
  {
    if cut <= 3 then m
    else
      var advanced := AfterAdvance(m);
      if cut == 4 then advanced else advanced.(saved := advanced.grabber, hunt := HuntIdle)
  }

  /** The first `cut` sections of a grabber pass. */
  function GrabUpTo(w: World, ep: Epoch, me: string, n: Node, m: Maker, replies: Option<seq<FpReply>>,
                    cut: nat): (Node, Maker)
    requires m.hunt.HuntIdle?
  {
    var hunted := HuntUpTo(w, ep, me, n, m, replies, cut);
    if hunted.hunt.Hunting? then StoreUpTo(w, ep, me, n, hunted, cut) else (n, hunted)
  }

  class Creator {
    const w: World
    const ep: Epoch
    const me: string
    var blocks: map<Slot, Block>
    var afps: map<Slot, Afp>
    var gt: GenMeta
    var saved: Grabber
    var meta: GenMeta
    var grabber: Grabber
    var pointer: Option<Block>
    var cache: map<string, string>
    ghost var chain: seq<Block>
    ghost var gen: Generator
    var hunt: Hunter

    ghost function Db(): Node
      reads this
    {
      DbNode(blocks, afps)
    }

    ghost function State(): Maker
      reads this
    {
      Maker(chain, gt, saved, meta, grabber, pointer, cache, gen, hunt)
    }

    constructor (w: World, ep: Epoch, me: string)
      ensures this.w == w && this.ep == ep && this.me == me
      ensures Db() == DbNode(map[], map[]) && State() == FRESH
    {
      this.w, this.ep, this.me := w, ep, me;
      blocks, afps := map[], map[];
      gt, saved := GENESIS_META, GENESIS_GRABBER;
      meta, grabber, pointer, cache := GENESIS_META, GENESIS_GRABBER, None, map[];
      chain, gen, hunt := [], GenIdle, HuntIdle;
    }

    /** loadGenerationThreadMetadata and ensureFinalizationRuntime after a restart. */
    method Restart()
      modifies this
      ensures Db() == old(Db()) && State() == AfterCrash(old(State()))
      ensures gt == old(gt) && saved == old(saved) && meta == gt && grabber == saved
      ensures pointer.None? && cache == map[] && gen.GenIdle? && hunt.HuntIdle?
    {
      meta, grabber, pointer, cache := gt, saved, None, map[];
      gen, hunt := GenIdle, HuntIdle;
    }

    /** One pass of the generator, cut off after `cut` sections. Uncut and not too far ahead of the accepted
        index, it stores one block with the extra data, time and signature it was given, under the next index
        and on the last hash; otherwise it stores nothing. */
    method GenerateBlock(time: int, extra: ExtraData, sig: string, cut: nat)
      requires gen.GenIdle?
      modifies this
      ensures var next := old(meta).nextIndex;
              if cut >= 4 && next <= old(grabber).acceptedIndex + 1
              then && Slot(ep.id, me, next) in blocks
                   && blocks == old(blocks)[Slot(ep.id, me, next) := blocks[Slot(ep.id, me, next)]]
                   && var b := blocks[Slot(ep.id, me, next)];
                      && b.extra == extra && b.time == time && b.sig == sig
                      && b.creator == me && b.epoch == FullId(ep) && b.index == next && b.prevHash == old(meta).prevHash
                      && gt == meta && meta.prevHash == GetHash(w, b) && meta.nextIndex == next + 1
              else blocks == old(blocks) && gt == old(gt)
      ensures afps == old(afps) && saved == old(saved) && grabber == old(grabber) && cache == old(cache)
      ensures (Db(), State()) == GenerateUpTo(w, ep, me, old(Db()), old(State()), time, extra, sig, cut)
    {
      hide GetHash, FullId;
      if cut == 0 {
        return;
      }
      var alreadyApproved := grabber.acceptedIndex;
      gen := GenRead(alreadyApproved);
      if cut == 1 {
        return;
      }
      var shouldGenerate := meta.nextIndex <= alreadyApproved + 1;
      if !shouldGenerate {
        gen := GenIdle;
        return;
      }
      var block := Block(me, time, FullId(ep), extra, meta.nextIndex, meta.prevHash, sig);
      var blockHash := GetHash(w, block);
      gen := GenBuilt(block);
      if cut == 2 {
        return;
      }
      meta := GenMeta(blockHash, meta.nextIndex + 1);
      gen := GenBumped(block);
      if cut == 3 {
        return;
      }
      blocks, gt := blocks[Slot(ep.id, me, block.index) := block], meta;
      chain, gen := chain + [block], GenIdle;
    }

    /** The loop over the validated responses. */
    method GatherProofs(received: seq<FpReply>) returns (got: map<string, string>)
      ensures got == ProofsOf(received)
    {
      got := map[];
      for i := 0 to |received|
        invariant got == ProofsOf(received[..i])
      {
        assert received[..i + 1][..i] == received[..i];
        got := got[received[i].voter := received[i].proof];
      }
      assert received[..|received|] == received;
    }

    /** Finds the block to hunt and adds the proofs the quorum wait returned to the cache. */
    method HuntForProofs(replies: Option<seq<FpReply>>, cut: nat)
      requires hunt.HuntIdle?
      modifies this`pointer, this`cache, this`hunt
      ensures State() == HuntUpTo(w, ep, me, old(Db()), old(State()), replies, cut)
      ensures hunt.Hunting? ==> hunt.from == grabber
    {
      hide GetHash, BlockId, Majority;
      if cut == 0 {
        return;
      }
      var acceptedIndex := grabber.acceptedIndex;
      var localProofs := cache;
      var slot := Slot(ep.id, me, acceptedIndex + 1);
      var blockToShare;
      if pointer.Some? && pointer.value.index == acceptedIndex + 1 {
        blockToShare := pointer.value;
      } else {
        if slot !in blocks {
          return;
        }
        blockToShare := blocks[slot];
        pointer := Some(blockToShare);
      }
      hunt := Hunting(grabber, blockToShare, localProofs);
      if cut == 1 || |localProofs| >= Majority(|ep.quorum|) {
        return;
      }
      if replies.None? {
        hunt := HuntIdle;
        return;
      }
      var got := GatherProofs(replies.value);
      localProofs := localProofs + got;
      cache := localProofs;
      hunt := Hunting(grabber, blockToShare, localProofs);
    }

    /** With a majority of proofs: stores the certificate, then advances, then persists. */
    method StoreCertificate(cut: nat) returns (progressed: bool)
      requires hunt.Hunting? && hunt.from == grabber
      modifies this`afps, this`grabber, this`cache, this`saved, this`hunt
      ensures (Db(), State()) == StoreUpTo(w, ep, me, old(Db()), old(State()), cut)
      ensures progressed ==> saved == grabber && grabber.acceptedIndex == old(grabber).acceptedIndex + 1
    {
      hide GetHash, BlockId, Majority, AdvanceUpTo;
      progressed := false;
      if cut <= 2 {
        return;
      }
      ghost var h := hunt;
      var localProofs, blockToShare, from := hunt.proofs, hunt.block, grabber;
      if |localProofs| < Majority(|ep.quorum|) {
        hunt := HuntIdle;
        return;
      }
      var blockHash := GetHash(w, blockToShare);
      var afp := Afp(from.acceptedHash, BlockId(ep.id, me, from.acceptedIndex + 1), blockHash, localProofs);
      afps := afps[Slot(ep.id, me, from.acceptedIndex + 1) := afp];
      hunt := AfpStored(afp);
      progressed := AdvanceGrabber(afp, cut);
    }

    method AdvanceGrabber(afp: Afp, cut: nat) returns (progressed: bool)
      requires hunt == AfpStored(afp)
      modifies this`grabber, this`cache, this`saved, this`hunt
      ensures State() == AdvanceUpTo(old(State()), cut)
      ensures progressed ==> saved == grabber && grabber.acceptedIndex == old(grabber).acceptedIndex + 1
    {
      progressed := false;
      if cut <= 3 {
        return;
      }
      grabber := Grabber(grabber.acceptedIndex + 1, afp.blockHash, afp);
      cache := map[];
      hunt := Advanced;
      if cut == 4 {
        return;
      }
      saved := grabber;
      hunt := HuntIdle;
      progressed := true;
    }

    method RunFinalizationProofsGrabbing(replies: Option<seq<FpReply>>, cut: nat) returns (progressed: bool)
      requires hunt.HuntIdle?
      modifies this
      ensures (Db(), State()) == GrabUpTo(w, ep, me, old(Db()), old(State()), replies, cut)
      ensures progressed ==> saved == grabber && grabber.acceptedIndex == old(grabber).acceptedIndex + 1
    {
      progressed := false;
      HuntForProofs(replies, cut);
      if hunt.Hunting? {
        progressed := StoreCertificate(cut);
      }
    }
  }

  // ---- A pass is a run of events ----

  lemma {:induction false} ValidRepliesAreChecked(w: World, ep: Epoch, text: string, hash: string,
                                                  replies: seq<FpReply>)
    requires forall i :: 0 <= i < |replies| ==> ReplyValid(w, ep, text, hash, replies[i])
    ensures forall v :: v in ProofsOf(replies) ==> ReplyOk(w, ep, text, v, ProofsOf(replies)[v])
  {
    if replies != [] {
      ValidRepliesAreChecked(w, ep, text, hash, replies[..|replies| - 1]);
    }
  }

  /** Every voter is kept, with one of its own proofs. */
  lemma {:induction false} ProofsOfVoters(replies: seq<FpReply>, v: string)
    ensures v in ProofsOf(replies) <==> exists r :: r in replies && r.voter == v
    ensures v in ProofsOf(replies) ==> exists r :: r in replies && r.voter == v && r.proof == ProofsOf(replies)[v]
  {
    if replies != [] {
      var n := |replies| - 1;
      ProofsOfVoters(replies[..n], v);
      assert replies == replies[..n] + [replies[n]];
      assert replies[n] in replies;
    }
  }

  /** A rotation certificate drained into a pass that stores its block is carried by that block. */
  lemma DrainedProofIsCarried(w: World, ep: Epoch, me: string, n: Node, m: Maker, time: int, extra: ExtraData,
                              sig: string, p: Aarp)
    requires m.gen.GenIdle? && m.meta.nextIndex <= m.grabber.acceptedIndex + 1
    requires p in extra.Aarps() && p.anchor != "" && AarpOk(w, p, ep)
    ensures var r := GenerateUpTo(w, ep, me, n, m, time, extra, sig, 4);
            var slot := Slot(ep.id, me, m.meta.nextIndex);
            && slot in r.0.blocks && r.0.blocks[slot].creator == me && r.0.blocks[slot].index == m.meta.nextIndex
            && r.0.blocks[slot].sig == sig && HasValidAarp(w, r.0.blocks[slot].extra.Aarps(), p.anchor, ep)
  {
    hide GetHash, FullId, AarpOk;
  }

  /** A reply counts for one block only. */
  lemma OneBlockOnly(w: World, ep: Epoch, text: string, text': string, hash: string, hash': string, r: FpReply)
    requires ReplyValid(w, ep, text, hash, r) && ReplyValid(w, ep, text', hash', r)
    ensures hash == hash' && r.voter in ep.quorum && w.verify(text, r.voter, r.proof)
  {
  }

  /** The block kept in memory is hunted without a look at the databases. */
  lemma PointerIsHunted(w: World, ep: Epoch, me: string, n: Node, m: Maker, b: Block)
    requires m.hunt.HuntIdle? && m.pointer == Some(b) && b.index == m.grabber.acceptedIndex + 1
    ensures HuntUpTo(w, ep, me, n, m, None, 1) == m.(hunt := Hunting(m.grabber, b, m.cache))
    ensures forall n' :: HuntUpTo(w, ep, me, n', m, None, 1) == HuntUpTo(w, ep, me, n, m, None, 1)
  {
  }

  /** A generator pass, cut anywhere, keeps the creator's invariant. */
  lemma GeneratePassKeepsInv(w: World, ep: Epoch, me: string, n: Node, m: Maker, time: int, extra: ExtraData,
                             sig: string, cut: nat, crashes: bool)
    requires MakerInv(w, ep, me, n, m, crashes) && m.gen.GenIdle?
    ensures var r := GenerateUpTo(w, ep, me, n, m, time, extra, sig, cut); MakerInv(w, ep, me, r.0, r.1, crashes)
  {
    hide MakerInv, GetHash, FullId;
    if cut >= 1 {
      var read := m.(gen := GenRead(m.grabber.acceptedIndex));
      RestKeepsInv(w, ep, me, n, m, ReadAccepted, crashes);
      if cut >= 2 {
        var built := AfterBuild(w, ep, me, read, time, extra, sig);
        BuildKeepsInv(w, ep, me, n, read, time, extra, sig, crashes);
        if cut >= 3 && built.gen.GenBuilt? {
          BumpKeepsInv(w, ep, me, n, built, crashes);
          WriteKeepsInv(w, ep, me, n, AfterBump(w, built), crashes);
        }
      }
    }
  }

  /** The block a pass would hunt for, if it is there. */
  function Hunted(ep: Epoch, me: string, n: Node, m: Maker): Option<Block> {
    if PointerHits(m) then m.pointer
    else if HuntedSlot(ep, me, m) in n.blocks then Some(n.blocks[HuntedSlot(ep, me, m)])
    else None
  }

  /** The proofs a pass ends up with. */
  function ProofsAfter(ep: Epoch, m: Maker, replies: Option<seq<FpReply>>): map<string, string> {
    if |m.cache| >= Majority(|ep.quorum|) || replies.None? then m.cache else m.cache + ProofsOf(replies.value)
  }

  lemma WholeHunt(w: World, ep: Epoch, me: string, n: Node, m: Maker, replies: Option<seq<FpReply>>)
    requires m.hunt.HuntIdle?
    ensures var r, b, proofs := HuntUpTo(w, ep, me, n, m, replies, 5), Hunted(ep, me, n, m),
        ProofsAfter(ep, m, replies);
            r == if b.None? then m
                 else if |m.cache| < Majority(|ep.quorum|) && replies.None? then m.(pointer := b)
                 else m.(pointer := b, cache := proofs, hunt := Hunting(m.grabber, b.value, proofs))
  {
    hide Majority, ProofsOf;
  }

  lemma WholeStore(w: World, ep: Epoch, me: string, n: Node, m: Maker)
    requires m.hunt.Hunting? && m.hunt.from == m.grabber && |m.hunt.proofs| >= Majority(|ep.quorum|)
    ensures var r, next := StoreUpTo(w, ep, me, n, m, 5), m.grabber.acceptedIndex + 1;
            var afp := Afp(m.grabber.acceptedHash, BlockId(ep.id, me, next), GetHash(w, m.hunt.block), m.hunt.proofs);
            && r.0 == n.(afps := n.afps[Slot(ep.id, me, next) := afp])
            && r.1.grabber == Grabber(next, afp.blockHash, afp)
            && r.1 == m.(grabber := r.1.grabber, saved := r.1.grabber, cache := map[], hunt := HuntIdle)
  {
    hide GetHash, BlockId, Majority;
  }

  /** A whole pass of the grabber. It certifies the next block, if there is one, exactly when the proofs kept
      so far and those of this round are enough; otherwise it keeps them all for the next round. */
  lemma WholeGrabPass(w: World, ep: Epoch, me: string, n: Node, m: Maker, replies: Option<seq<FpReply>>)
    requires m.hunt.HuntIdle?
    ensures var r, b := GrabUpTo(w, ep, me, n, m, replies, 5), Hunted(ep, me, n, m);
            var majority, next := Majority(|ep.quorum|), m.grabber.acceptedIndex + 1;
            if b.None? then r == (n, m)
            else
              var proofs := ProofsAfter(ep, m, replies);
              var afp := Afp(m.grabber.acceptedHash, BlockId(ep.id, me, next), GetHash(w, b.value), proofs);
              if |proofs| < majority then r == (n, m.(pointer := b, cache := proofs))
              else
                && r.0 == n.(afps := n.afps[Slot(ep.id, me, next) := afp])
                && r.1.grabber == Grabber(next, afp.blockHash, afp) && r.1.saved == r.1.grabber
                && r.1 == m.(pointer := b, grabber := r.1.grabber, saved := r.1.saved, cache := map[])
  {
    hide GetHash, BlockId, Majority, ProofsOf, HuntUpTo, StoreUpTo, Hunted;
    WholeHunt(w, ep, me, n, m, replies);
    var hunted := HuntUpTo(w, ep, me, n, m, replies, 5);
    if hunted.hunt.Hunting? {
      if |hunted.hunt.proofs| >= Majority(|ep.quorum|) {
        WholeStore(w, ep, me, n, hunted);
      } else {
        NothingStored(w, ep, me, n, hunted);
      }
    }
  }

  lemma NothingStored(w: World, ep: Epoch, me: string, n: Node, m: Maker)
    requires m.hunt.Hunting? && |m.hunt.proofs| < Majority(|ep.quorum|)
    ensures StoreUpTo(w, ep, me, n, m, 5) == (n, m.(hunt := HuntIdle))
  {
    hide GetHash, BlockId, Majority;
  }

  /** A grabber pass over replies that passed validation, cut anywhere, keeps the creator's
      invariant; in particular every certificate it stores verifies. */
  lemma GrabPassKeepsInv(w: World, ep: Epoch, me: string, n: Node, m: Maker, replies: Option<seq<FpReply>>, cut: nat,
                         crashes: bool)
    requires MakerInv(w, ep, me, n, m, crashes) && m.hunt.HuntIdle?
    requires var b := Hunted(ep, me, n, m);
             replies.Some? && b.Some? ==>
               forall i :: 0 <= i < |replies.value| ==>
                 ReplyValid(w, ep, AfpPayload(HuntAfp(w, ep, me, Hunting(m.grabber, b.value, m.cache)), ep.id),
                            GetHash(w, b.value), replies.value[i])
    ensures var r := GrabUpTo(w, ep, me, n, m, replies, cut); MakerInv(w, ep, me, r.0, r.1, crashes)
  {
    hide MakerInv, GetHash, ReplyValid, AfpPayload, BlockId;
    if cut >= 1 && Can(w, ep, me, n, m, Start) {
      var b := Hunted(ep, me, n, m).value;
      var started := AfterStart(m, b);
      StartKeepsInv(w, ep, me, n, m, crashes);
      var hunted := HuntUpTo(w, ep, me, n, m, replies, cut);
      if hunted.hunt.HuntIdle? {
        RestKeepsInv(w, ep, me, n, started, GiveUp, crashes);
      } else {
        if hunted != started {
          ValidRepliesAreChecked(w, ep, AfpPayload(HuntAfp(w, ep, me, started.hunt), ep.id), GetHash(w, b),
                                 replies.value);
          CollectKeepsInv(w, ep, me, n, started, ProofsOf(replies.value), crashes);
        }
        StorePassKeepsInv(w, ep, me, n, hunted, cut, crashes);
      }
    }
  }

  lemma StorePassKeepsInv(w: World, ep: Epoch, me: string, n: Node, m: Maker, cut: nat, crashes: bool)
    requires MakerInv(w, ep, me, n, m, crashes) && m.hunt.Hunting?
    ensures var r := StoreUpTo(w, ep, me, n, m, cut); MakerInv(w, ep, me, r.0, r.1, crashes)
  {
    hide MakerInv, HuntAfp;
    RestKeepsInv(w, ep, me, n, m, GiveUp, crashes);
    if |m.hunt.proofs| >= Majority(|ep.quorum|) {
      CertifyKeepsInv(w, ep, me, n, m, crashes);
      var afp := HuntAfp(w, ep, me, m.hunt);
      var stored := PutAfp(n, Slot(ep.id, me, m.hunt.from.acceptedIndex + 1), afp);
      var certified := m.(hunt := AfpStored(afp));
      AdvanceKeepsInv(w, ep, me, stored, certified, crashes);
      RestKeepsInv(w, ep, me, stored, AfterAdvance(certified), Persist, crashes);
    }
  }
}
