/** The handlers and threads of one node that read and write a creator's voting stat, over the
    node's databases as they are updated in place. */
module AnchorNodes {
  import opened Text
  import opened Structures
  import opened Payloads
  import opened Certificates
  import opened Voter

  /** A member's answer to a rotation request, as it arrives over HTTP. */
  datatype RotationAnswer =
    | UpgradeAnswer(stat: VotingStat)
    | OkAnswer(member: string, statusOk: bool, signature: string)
    | OtherAnswer

  /** A screened answer, as it reaches the collector's results channel. */
  datatype RotationResult = UpgradeResult(stat: VotingStat) | SignatureResult(pubKey: string, signature: string)

  /** How collecting ends: a newer stat was stored, the mutex was requested while already held
      (the thread waits on itself), or these signatures were gathered. */
  datatype Collected = Upgraded | Blocked | Signatures(signatures: map<string, string>)

  /** A member's answer to get_voting_stat. */
  datatype StatReply = StatReply(statusOk: bool, epochIndex: int, creator: string, stat: VotingStat)

  function RotationText(ep: Epoch, anchor: string, stat: VotingStat): string {
    ArpPayload(anchor, stat.index, stat.hash, ep.id)
  }

  /** What the collector's workers let through. */
  function Screen(w: World, ep: Epoch, anchor: string, local: VotingStat,
                  answer: RotationAnswer): (r: Option<RotationResult>)
    ensures r.Some? && r.value.UpgradeResult? ==> UpgradeAcceptable(w, ep, local, r.value.stat)
    ensures r.Some? && r.value.SignatureResult? ==>
              && answer == OkAnswer(r.value.pubKey, true, r.value.signature)
              && r.value.signature != "" && w.verify(RotationText(ep, anchor, local), r.value.pubKey, r.value.signature)
  {
    match answer
    case UpgradeAnswer(stat) =>
      if UpgradeAcceptable(w, ep, local, stat) then Some(UpgradeResult(stat)) else None
    case OkAnswer(member, statusOk, signature) =>
      if signature != "" && statusOk && w.verify(RotationText(ep, anchor, local), member, signature)
      then Some(SignatureResult(member, signature)) else None
    case OtherAnswer => None
  }

  /** Every signature is a quorum member's, over the rotation of the local stat. */
  predicate SignaturesChecked(w: World, ep: Epoch, anchor: string, local: VotingStat, signatures: map<string, string>) {
    forall k :: k in signatures ==>
      k in ep.quorum && signatures[k] != "" && w.verify(RotationText(ep, anchor, local), k, signatures[k])
  }

  /** An answer the pull would take over `current`, ignoring what else came. */
  predicate PullCandidate(w: World, ep: Epoch, creator: string, current: VotingStat, r: StatReply) {
    r.statusOk && r.epochIndex == ep.id && r.creator == creator && PullAcceptable(w, ep, current, r.stat)
  }

  /** best is the largest acceptable stat among the replies, or current if none is acceptable. */
  ghost predicate IsBest(w: World, ep: Epoch, creator: string, current: VotingStat, replies: seq<StatReply>,
                         best: VotingStat) {
    && (best == current || exists i ::
        0 <= i < |replies| && PullCandidate(w, ep, creator, current, replies[i]) && replies[i].stat == best)
    && (forall i :: 0 <= i < |replies| && PullCandidate(w, ep, creator, current, replies[i]) ==>
        replies[i].stat.index <= best.index)
  }

  /** The results that reach the collector, in the order of the answers. */
  function Screened(w: World, ep: Epoch, anchor: string, local: VotingStat, answers: seq<RotationAnswer>)
    : seq<RotationResult>
  {
    if answers == [] then []
    else
      var n := |answers| - 1;
      var last := Screen(w, ep, anchor, local, answers[n]);
      var before := Screened(w, ep, anchor, local, answers[..n]);
      if last.Some? then before + [last.value] else before
  }

  /** The upgrades among the results, in order. */
  function Upgrades(results: seq<RotationResult>): seq<VotingStat> {
    if results == [] then []
    else
      var n := |results| - 1;
      if results[n].UpgradeResult? then Upgrades(results[..n]) + [results[n].stat] else Upgrades(results[..n])
  }

  /** The distinct members among the signature results. */
  function Signers(results: seq<RotationResult>): set<string> {
    set r | r in results && r.SignatureResult? :: r.pubKey
  }

  /** How many results it takes until `majority` distinct members have signed, or all of them. */
  function TargetAt(results: seq<RotationResult>, majority: nat): (t: nat)
    ensures t <= |results|
  {
    if results != [] && |Signers(results[..|results| - 1])| >= majority
        then TargetAt(results[..|results| - 1], majority)
    else |results|
  }

  /** The first upgrade is ahead of the stored stat. */
  predicate UpgradeWins(upgrades: seq<VotingStat>, stored: VotingStat) {
    upgrades != [] && upgrades[0].index > stored.index
  }

  /** A second upgrade follows one that brought nothing new. */
  predicate WaitsOnItself(upgrades: seq<VotingStat>, stored: VotingStat) {
    |upgrades| >= 2 && upgrades[0].index <= stored.index
  }

  /** signatures are those of the first members to sign, as many as make a majority or all there are. */
  ghost predicate FirstSignatures(results: seq<RotationResult>, majority: nat, signatures: map<string, string>) {
    var t := TargetAt(results, majority);
    && signatures.Keys == Signers(results[..t])
    && forall k :: k in signatures ==> SignatureResult(k, signatures[k]) in results[..t]
  }

  function Assembled(ep: Epoch, anchor: string, local: VotingStat, signatures: map<string, string>): Aarp {
    Aarp(ep.id, anchor, local, signatures)
  }

  /** What a vote for b leaves behind: the block, its predecessor's certificate, a stat naming that
      predecessor unless it names the block itself, and the vote; nothing else changes. */
  ghost predicate Recorded(s: Node, s': Node, ep: Epoch, b: Block, prevAfp: Afp, vote: Statement) {
    var lane, genesis := Lane(ep.id, b.creator), b.index == 0;
    && s'.blocks == s.blocks[Slot(ep.id, b.creator, b.index) := b]
    && s'.afps == (if genesis then s.afps else s.afps[Slot(ep.id, b.creator, b.index - 1) := prevAfp])
    && lane in s'.stats && s'.stats == s.stats[lane := s'.stats[lane]]
    && s'.stats[lane] == (if StatOf(s, lane).index == b.index then StatOf(s, lane)
                          else if genesis then VotingStat(-1, INIT_HASH, EMPTY_AFP)
                          else VotingStat(b.index - 1, prevAfp.blockHash, prevAfp))
    && vote.Fp? && Lane(vote.epoch, vote.creator) == lane && vote.index == b.index && vote.block == b
    && vote.prev == (if genesis then INIT_HASH else prevAfp.blockHash)
    && s'.signed == s.signed + {vote} && s'.disabled == s.disabled && s'.finished == s.finished
  }

  class AnchorNode {
    const w: World
    var stats: map<Lane, VotingStat>
    var disabled: set<Lane>
    var blocks: map<Slot, Block>
    var afps: map<Slot, Afp>
    var finished: set<int>
    var snapshots: map<Lane, (int, string)>
    ghost var signed: set<Statement>

    ghost function State(): Node
      reads this
    {
      Node(stats, disabled, blocks, afps, finished, signed)
    }

    constructor (w: World)
      ensures this.w == w && State() == Node(map[], {}, map[], map[], {}, {}) && snapshots == map[]
    {
      this.w := w;
      stats, disabled, blocks, afps, finished, snapshots, signed := map[], {}, map[], map[], {}, map[], {};
    }

    method ReadVotingStat(lane: Lane) returns (stat: VotingStat)
      ensures stat == StatOf(State(), lane)
    {
      stat := TEMPLATE;
      if lane in stats {
        stat := stats[lane];
      }
    }

    /** Looks the requested epoch up among the tracked ones. */
    method LookUpEpoch(window: seq<Epoch>, fullId: string) returns (ep: Option<Epoch>)
      ensures ep == FindEpoch(window, fullId)
    {
      ep := None;
      var idx := 0;
      while idx < |window| && ep.None?
        invariant 0 <= idx <= |window|
        invariant FindEpoch(window, fullId) == if ep.Some? then ep else FindEpoch(window[idx..], fullId)
        decreases |window| - idx, if ep.None? then 1 else 0
      {
        if FullId(window[idx]) == fullId {
          ep := Some(window[idx]);
        } else {
          idx := idx + 1;
        }
      }
    }

    /** Votes for a block. The process may stop after any durable action: `stage` says how many
        of block, predecessor certificate, stat and signature get done. Uncut, the vote is given exactly
        for a signed block of a registered creator that is not banned, in an epoch not finished, whose
        predecessor is certified, and which is above the stat or the very block the stat names. */
    method GetFinalizationProof(open: bool, window: seq<Epoch>, req: FpRequest, stage: nat)
        returns (vote: Option<Statement>)
      modifies this
      ensures State() == VoteStep(w, old(State()), open, window, req, stage)
      ensures vote.None? ==> signed == old(signed)
      ensures snapshots == old(snapshots)
      ensures var found, b := FindEpoch(window, req.block.epoch), req.block;
              && (!open || found.None? ==> vote.None? && State() == old(State()))
              && (open && found.Some? ==>
                    var ep := found.value;
                    var stat := StatOf(old(State()), Lane(ep.id, b.creator));
                    var due := && b.creator in ep.registry && BlockSigned(w, b)
                               && Lane(ep.id, b.creator) !in old(disabled) && ep.id !in old(finished)
                               && (stat.index < b.index || (stat.index == b.index && stat.hash == GetHash(w, b)))
                               && (b.index == 0 || (req.prevAfp.blockId == BlockId(ep.id, b.creator, b.index - 1)
                                                    && AfpOk(w, req.prevAfp, ep)));
                    && (vote.Some? <==> due && stage >= 4)
                    && (!due ==> State() == old(State()))
                    && (vote.Some? ==> Recorded(old(State()), State(), ep, b, req.prevAfp, vote.value)
                                       && vote.value.hash == GetHash(w, b)))
    {
      hide GetHash, BlockSigned, AfpOk, BlockId, FullId, VoteUpTo;
      vote := None;
      if !open {
        return;
      }
      var found := LookUpEpoch(window, req.block.epoch);
      if found.None? {
        return;
      }
      var ep := found.value;
      var block, prevAfp := req.block, req.prevAfp;
      if block.creator !in ep.registry {
        return;
      }
      var lane := Lane(ep.id, block.creator);
      if lane in disabled {
        return;
      }
      var localStat := ReadVotingStat(lane);
      var proposedBlockHash := GetHash(w, block);
      var itsSameChainSegment := localStat.index < block.index ||
          (localStat.index == block.index && proposedBlockHash == localStat.hash);
      if !itsSameChainSegment || !BlockSigned(w, block) || ep.id in finished {
        return;
      }
      var isGenesis := block.index == 0;
      var hasValidPrevAfp := false;
      if BlockId(ep.id, block.creator, block.index - 1) == prevAfp.blockId {
        hasValidPrevAfp := VerifyAggregatedFinalizationProof(w, prevAfp, ep);
      }
      if !isGenesis && !hasValidPrevAfp {
        return;
      }
      vote := CastVote(ep, req, localStat, stage);
    }

    /** The three writes of a vote and then its signature, cut off after `stage` of them. */
    method CastVote(ep: Epoch, req: FpRequest, localStat: VotingStat, stage: nat) returns (vote: Option<Statement>)
      requires localStat == StatOf(State(), Lane(ep.id, req.block.creator))
      modifies this
      ensures State() == VoteUpTo(w, old(State()), ep, req, stage)
      ensures (vote.Some? <==> stage >= 4) && (vote.None? ==> signed == old(signed))
      ensures vote.Some? ==> Recorded(old(State()), State(), ep, req.block, req.prevAfp, vote.value)
                             && vote.value.hash == GetHash(w, req.block)
      ensures snapshots == old(snapshots)
    {
      hide GetHash;
      vote := None;
      var block, prevAfp := req.block, req.prevAfp;
      var isGenesis := block.index == 0;
      var future := if localStat.index == block.index then localStat
                    else if isGenesis then TEMPLATE
                    else VotingStat(block.index - 1, prevAfp.blockHash, prevAfp);
      if stage >= 1 {
        blocks := blocks[Slot(ep.id, block.creator, block.index) := block];
      }
      if stage >= 2 && !isGenesis {
        afps := afps[Slot(ep.id, block.creator, block.index - 1) := prevAfp];
      }
      if stage >= 3 {
        stats := stats[Lane(ep.id, block.creator) := future];
      }
      if stage >= 4 {
        var prevBlockHash := if isGenesis then INIT_HASH else prevAfp.blockHash;
        vote := Some(Fp(prevBlockHash, ep.id, block.creator, block.index, GetHash(w, block), block));
        signed := signed + {vote.value};
      }
    }

    /** Answers a rotation request. For a banned registered creator of a tracked epoch a proposal below the
        stat gets the stat back; one at the stat, or ahead of it with a certificate that continues it, is
        signed as it is; only the signature history changes. */
    method RequestAnchorRotationProof(window: seq<Epoch>, req: RotRequest) returns (r: RotResponse)
      modifies this`signed
      ensures r == RotationReply(w, old(State()), window, req)
      ensures State() == RotationStep(w, old(State()), window, req)
      ensures var found, p := FindEpochById(window, req.epochIndex), req.proposal;
              var lane := Lane(req.epochIndex, req.forAnchor);
              var current := StatOf(old(State()), lane);
              var known := req.epochIndex >= 0 && req.forAnchor != "" && found.Some? &&
                  req.forAnchor in found.value.registry;
              var banned := known && lane in old(disabled);
              && (r.BadRequest? <==> req.epochIndex < 0 || req.forAnchor == "")
              && (r.EpochNotFound? <==> !r.BadRequest? && found.None?)
              && (r.CreatorNotFound? <==> !r.BadRequest? && found.Some? && !known)
              && (r.StillHealthy? <==> known && !banned)
              && (banned ==>
                    && (r.Upgrade? <==> p.index < current.index)
                    && (r.Upgrade? ==> r.stat == current)
                    && (r.StatHashMismatch? <==> p.index == current.index && p.hash != current.hash)
                    && (p.index == current.index && p.hash == current.hash ==> r.Signed?)
                    && (p.index > current.index ==>
                          (r.Signed? <==> ValidateProposal(w, current, p, found.value, req.epochIndex,
                                                           req.forAnchor).None?)))
              && (r.Signed? ==> banned && r.statement == Arp(req.epochIndex, req.forAnchor, p.index, p.hash))
              && signed == old(signed) + (if r.Signed? then {r.statement} else {})
    {
      if req.epochIndex < 0 || req.forAnchor == "" {
        return BadRequest;
      }
      var found := FindEpochById(window, req.epochIndex);
      if found.None? {
        return EpochNotFound;
      }
      var ep := found.value;
      if req.forAnchor !in ep.registry {
        return CreatorNotFound;
      }
      if Lane(req.epochIndex, req.forAnchor) !in disabled {
        return StillHealthy;
      }
      var current := ReadVotingStat(Lane(req.epochIndex, req.forAnchor));
      var proposal := req.proposal;
      if proposal.index < current.index {
        return Upgrade(current);
      }
      var toSign := current;
      if proposal.index == current.index {
        if current.hash != proposal.hash {
          return StatHashMismatch;
        }
      } else {
        var error := ValidateProposal(w, current, proposal, ep, req.epochIndex, req.forAnchor);
        if error.Some? {
          return InvalidProposal(error.value);
        }
        toSign := proposal;
      }
      var statement := Arp(ep.id, req.forAnchor, toSign.index, toSign.hash);
      signed := signed + {statement};
      return Signed(statement);
    }

    /** Works through the answers in the order they arrive, at most one per quorum entry. The mutex
        taken for the first upgrade is held until the method returns, so a second upgrade waits for it
        forever, newer or not. */
    method CollectRotationSignatures(ep: Epoch, anchor: string, local: VotingStat, answers: seq<RotationAnswer>)
      returns (outcome: Collected)
      requires |answers| <= |ep.quorum|
      modifies this`stats
      ensures var results := Screened(w, ep, anchor, local, answers);
              var stored := StatOf(old(State()), Lane(ep.id, anchor));
              && (outcome.Upgraded? <==> UpgradeWins(Upgrades(results), stored))
              && (outcome.Blocked? <==> WaitsOnItself(Upgrades(results), stored))
              && (outcome.Signatures? ==> FirstSignatures(results, Majority(|ep.quorum|), outcome.signatures))
              && State() == (if outcome.Upgraded? then Raise(old(State()), Lane(ep.id, anchor), Upgrades(results)[0])
                             else old(State()))
    {
      hide Screen, Screened, UpgradeAcceptable, RotationText, FirstSignatures, Signers, Upgrades, Majority;
      var majority := Majority(|ep.quorum|);
      var signatures: map<string, string> := map[];
      var locked := false;
      var hasReachedTarget := false;
      NothingCollected(majority);
      MajorityOfSome(ep.quorum);
      assert answers[..0] == [];
      for i := 0 to |answers|
        invariant State() == old(State())
        invariant var results := Screened(w, ep, anchor, local, answers[..i]);
                  && (locked <==> Upgrades(results) != [])
                  && |Upgrades(results)| <= 1
                  && (locked ==> Upgrades(results)[0].index <= StatOf(State(), Lane(ep.id, anchor)).index)
                  && FirstSignatures(results, majority, signatures)
                  && (majority > 0 ==> (hasReachedTarget <==> |Signers(results)| >= majority))
      {
        ghost var before := Screened(w, ep, anchor, local, answers[..i]);
        ScreenedGrows(w, ep, anchor, local, answers, i);
        var screened := Screen(w, ep, anchor, local, answers[i]);
        if screened.Some? {
          ResultAdds(before, screened.value, majority, signatures);
          UpgradesAdd(before, screened.value);
          SignersAdd(before, screened.value);
          match screened.value
          case UpgradeResult(stat) =>
            if locked {
              return Blocked;
            }
            locked := true;
            var last := ReadVotingStat(Lane(ep.id, anchor));
            if stat.index > last.index {
              stats := stats[Lane(ep.id, anchor) := stat];
              return Upgraded;
            }
          case SignatureResult(pubKey, signature) =>
            if !hasReachedTarget {
              signatures := signatures[pubKey := signature];
              if |signatures| >= majority {
                hasReachedTarget := true;
              }
            }
        }
      }
      assert answers[..|answers|] == answers;
      return Signatures(signatures);
    }

    /** processAnchorRotation: for a disabled creator without a stored rotation proof, collect
        signatures on the local stat and assemble the proof that is then stored and broadcast. The
        stat is read without the mutex; `meanwhile` is what the other writers have made of the
        stats by the time the collector looks at them again. */
    method ProcessAnchorRotation(ep: Epoch, anchor: string, hasProof: bool,
                                 meanwhile: map<Lane, VotingStat>, answers: seq<RotationAnswer>)
      returns (candidate: bool, proof: Option<Aarp>)
      requires |answers| <= |ep.quorum|
      modifies this`stats
      ensures candidate <==> Lane(ep.id, anchor) in disabled && !hasProof
      ensures var lane := Lane(ep.id, anchor);
              var local, moved := StatOf(old(State()), lane), old(State()).(stats := meanwhile);
              var results := Screened(w, ep, anchor, local, answers);
              var upgrades, stored := Upgrades(results), StatOf(moved, lane);
              && State() == (if !candidate then old(State())
                             else if UpgradeWins(upgrades, stored) then Raise(moved, lane, upgrades[0])
                             else moved)
              && (proof.Some? <==> candidate && !UpgradeWins(upgrades, stored) && !WaitsOnItself(upgrades, stored)
                                   && |Signers(results)| >= Majority(|ep.quorum|))
              && (proof.Some? ==>
                    && proof.value == Assembled(ep, anchor, local, proof.value.signatures)
                    && FirstSignatures(results, Majority(|ep.quorum|), proof.value.signatures))
    {
      hide FirstSignatures, Screened, Upgrades, Signers;
      if Lane(ep.id, anchor) !in disabled || hasProof {
        return false, None;
      }
      var localVotingStat := ReadVotingStat(Lane(ep.id, anchor));
      stats := meanwhile;
      var outcome := CollectRotationSignatures(ep, anchor, localVotingStat, answers);
      if outcome.Signatures? {
        EnoughIff(Screened(w, ep, anchor, localVotingStat, answers), Majority(|ep.quorum|), outcome.signatures);
        if |outcome.signatures| >= Majority(|ep.quorum|) {
          return true, Some(Assembled(ep, anchor, localVotingStat, outcome.signatures));
        }
      }
      return true, None;
    }

    /** The fold over the replies: the largest acceptable stat, in whatever order they came. */
    method BestReply(ep: Epoch, creator: string, current: VotingStat, replies: seq<StatReply>)
        returns (best: VotingStat, found: bool)
      ensures IsBest(w, ep, creator, current, replies, best)
      ensures found <==> exists j :: 0 <= j < |replies| && PullCandidate(w, ep, creator, current, replies[j])
      ensures if found then PullAcceptable(w, ep, current, best) else best == current
    {
      best, found := current, false;
      for i := 0 to |replies|
        invariant IsBest(w, ep, creator, current, replies[..i], best)
        invariant found <==> exists j :: 0 <= j < i && PullCandidate(w, ep, creator, current, replies[j])
        invariant if found then PullAcceptable(w, ep, current, best) else best == current
      {
        var r := replies[i];
        assert replies[..i + 1] == replies[..i] + [r];
        ghost var before := best;
        if r.statusOk && r.epochIndex == ep.id && r.creator == creator && r.stat.index > best.index {
          if r.stat.afp.blockId != "" && r.stat.hash == r.stat.afp.blockHash {
            var ok := VerifyAggregatedFinalizationProof(w, r.stat.afp, ep);
            if ok {
              best, found := r.stat, true;
            }
          }
        }
        BestExtends(w, ep, creator, current, replies[..i], r, before, best);
      }
      assert replies[..|replies|] == replies;
    }

    /** Folds the replies, then raises the stored stat under the mutex if it is still behind. */
    method TryPullVotingStatFromQuorum(ep: Epoch, creator: string, current: VotingStat, answered: bool,
                                       replies: seq<StatReply>)
      returns (updated: bool, stat: VotingStat)
      modifies this`stats
      ensures updated ==> stat == StatOf(State(), Lane(ep.id, creator)) && stat.index > current.index
      ensures !updated ==> State() == old(State())
      ensures if answered && exists i :: 0 <= i < |replies| && PullCandidate(w, ep, creator, current, replies[i])
              then PulledBest(ep, creator, current, replies, old(State()), State()) else State() == old(State())
      ensures updated <==>
          (answered && (exists i :: 0 <= i < |replies| && PullCandidate(w, ep, creator, current, replies[i]))
                            && StatOf(State(), Lane(ep.id, creator)).index > current.index)
    {
      hide IsBest, PullAcceptable;
      var lane := Lane(ep.id, creator);
      if !answered || |replies| == 0 {
        return false, current;
      }
      var best, found := BestReply(ep, creator, current, replies);
      AcceptableIsAhead(w, ep, current, best);
      if !found || best.index <= current.index {
        return false, current;
      }
      var latest := ReadVotingStat(lane);
      assert PulledBest(ep, creator, current, replies, State(), Raise(State(), lane, best));
      if best.index <= latest.index {
        if latest.index > current.index {
          return true, latest;
        }
        return false, latest;
      }
      stats := stats[lane := best];
      return true, best;
    }

    /** The stat was raised to the best acceptable reply. */
    ghost predicate PulledBest(ep: Epoch, creator: string, current: VotingStat, replies: seq<StatReply>, before: Node,
                               after: Node) {
      exists best :: IsBest(w, ep, creator, current, replies, best) && PullAcceptable(w, ep, current, best)
                  && after == Raise(before, Lane(ep.id, creator), best)
    }

    /** Compares with the last snapshot; a creator that stood still is pulled or switched off. */
    method EvaluateAnchorProgressWithPull(ep: Epoch, creator: string, current: VotingStat, answered: bool,
                                          replies: seq<StatReply>)
      returns (stalled: bool)
      modifies this
      ensures blocks == old(blocks) && afps == old(afps) && finished == old(finished) && signed == old(signed)
      ensures disabled == old(disabled) + (if stalled then {Lane(ep.id, creator)} else {})
      ensures forall lane :: StatOf(old(State()), lane).index <= StatOf(State(), lane).index
      ensures var lane := Lane(ep.id, creator);
              var stoodStill := lane in old(snapshots) && old(snapshots)[lane] == (current.index, current.hash);
              var pulled := answered && exists i ::
                  0 <= i < |replies| && PullCandidate(w, ep, creator, current, replies[i]);
              && (stalled <==> stoodStill && !(pulled && StatOf(State(), lane).index > current.index))
              && (if stoodStill && pulled
                  then PulledBest(ep, creator, current, replies, old(State()).(disabled := disabled), State())
                  else stats == old(stats))
              && snapshots == (if stalled then old(snapshots) - {lane}
                               else if stoodStill
                               then old(snapshots)[lane := (StatOf(State(), lane).index, StatOf(State(), lane).hash)]
                               else old(snapshots)[lane := (current.index, current.hash)])
    {
      var lane := Lane(ep.id, creator);
      if lane !in snapshots {
        snapshots := snapshots[lane := (current.index, current.hash)];
        return false;
      }
      var previous := snapshots[lane];
      if previous.0 == current.index && previous.1 == current.hash {
        var updated, newStat := TryPullVotingStatFromQuorum(ep, creator, current, answered, replies);
        if updated {
          snapshots := snapshots[lane := (newStat.index, newStat.hash)];
          return false;
        }
        disabled := disabled + {lane};
        snapshots := snapshots - {lane};
        return true;
      }
      snapshots := snapshots[lane := (current.index, current.hash)];
      return false;
    }
  }

  lemma AcceptableIsAhead(w: World, ep: Epoch, current: VotingStat, best: VotingStat)
    ensures PullAcceptable(w, ep, current, best) ==> best.index > current.index
  {
  }

  /** A collector that is behind catches up: a member that has banned the anchor answers with its stat, and
      if that names the certified block it stands for, the collector stores it, whatever comes after. */
  lemma BehindCatchesUp(w: World, s: Node, window: seq<Epoch>, ep: Epoch, anchor: string, local: VotingStat,
                        stored: VotingStat, rest: seq<RotationAnswer>)
    requires FindEpochById(window, ep.id) == Some(ep) && ep.id >= 0
    requires anchor in ep.registry && anchor != "" && ColonFree(anchor) && Lane(ep.id, anchor) in s.disabled
    requires var stat := StatOf(s, Lane(ep.id, anchor));
             && local.index < stat.index && stored.index < stat.index && MIN_INT64 <= stat.index <= MAX_INT64
             && stat.afp.blockId == BlockId(ep.id, anchor, stat.index) && stat.hash == stat.afp.blockHash
             && AfpOk(w, stat.afp, ep)
    ensures var reply := RotationReply(w, s, window, RotRequest(ep.id, anchor, local));
            && reply.Upgrade? && UpgradeAcceptable(w, ep, local, reply.stat)
            && var upgrades := Upgrades(Screened(w, ep, anchor, local, [UpgradeAnswer(reply.stat)] + rest));
               UpgradeWins(upgrades, stored) && upgrades[0] == StatOf(s, Lane(ep.id, anchor))
  {
    hide AfpOk, Screened, Upgrades, RotationText;
    var stat := StatOf(s, Lane(ep.id, anchor));
    BlockIdParts(ep.id, anchor, stat.index);
    AtoiOfItoa(stat.index);
    var answers := [UpgradeAnswer(stat)] + rest;
    assert answers[..1] == [UpgradeAnswer(stat)] && answers[..|answers|] == answers;
    OneUpgrade(w, ep, anchor, local, stat);
    NothingCollected(0);
    UpgradesAdd([], UpgradeResult(stat));
    assert [] + [UpgradeResult(stat)] == [UpgradeResult(stat)];
    UpgradesGrow(w, ep, anchor, local, answers, 1, |answers|);
  }

  /** A reply with a stat that is ahead and names the certified block it stands for is a candidate, so the
      pull ends at or above it. */
  lemma AheadIsPulled(w: World, ep: Epoch, creator: string, current: VotingStat, replies: seq<StatReply>, i: nat,
                      best: VotingStat)
    requires i < |replies| && IsBest(w, ep, creator, current, replies, best)
    requires replies[i].statusOk && replies[i].epochIndex == ep.id && replies[i].creator == creator
    requires var stat := replies[i].stat;
             && stat.index > current.index && stat.afp.blockId == BlockId(ep.id, creator, stat.index)
             && stat.hash == stat.afp.blockHash && AfpOk(w, stat.afp, ep)
    ensures PullCandidate(w, ep, creator, current, replies[i]) && best.index >= replies[i].stat.index
  {
    hide AfpOk;
    BlockIdHasThreeParts(ep.id, creator, replies[i].stat.index);
    assert Split("") == [""];
  }

  lemma NothingCollected(majority: nat)
    ensures FirstSignatures([], majority, map[]) && Signers([]) == {} && Upgrades([]) == []
    ensures forall w, ep, anchor, local :: Screened(w, ep, anchor, local, []) == []
  {
  }

  lemma ScreenedGrows(w: World, ep: Epoch, anchor: string, local: VotingStat, answers: seq<RotationAnswer>, i: nat)
    requires i < |answers|
    ensures var last := Screen(w, ep, anchor, local, answers[i]);
            var before := Screened(w, ep, anchor, local, answers[..i]);
            Screened(w, ep, anchor, local, answers[..i + 1]) == if last.Some? then before + [last.value] else before
    ensures Upgrades(Screened(w, ep, anchor, local, answers[..i + 1])) <=
              Upgrades(Screened(w, ep, anchor, local, answers))
  {
    hide Screen;
    assert answers[..i + 1][..i] == answers[..i];
    UpgradesGrow(w, ep, anchor, local, answers, i + 1, |answers|);
    assert answers[..|answers|] == answers;
  }

  lemma {:induction false} UpgradesGrow(w: World, ep: Epoch, anchor: string, local: VotingStat,
                                        answers: seq<RotationAnswer>, i: nat, j: nat)
    requires i <= j <= |answers|
    ensures Upgrades(Screened(w, ep, anchor, local, answers[..i])) <=
              Upgrades(Screened(w, ep, anchor, local, answers[..j]))
    decreases j
  {
    hide Screen;
    if i < j {
      UpgradesGrow(w, ep, anchor, local, answers, i, j - 1);
      assert answers[..j][..j - 1] == answers[..j - 1];
      var before, after := Screened(w, ep, anchor, local, answers[..j - 1]),
          Screened(w, ep, anchor, local, answers[..j]);
      if after != before {
        assert after[..|after| - 1] == before;
      }
    }
  }

  lemma MajorityOfSome(quorum: seq<string>)
    ensures Majority(|quorum|) > 0 <==> quorum != []
  {
  }

  lemma SignersAdd(results: seq<RotationResult>, r: RotationResult)
    ensures Signers(results + [r]) == Signers(results) + if r.SignatureResult? then {r.pubKey} else {}
    ensures |Signers(results)| <= |Signers(results + [r])|
  {
    var all := results + [r];
    forall q
      ensures q in all <==> q in results || q == r
    {
      if q == r { assert all[|results|] == r; }
      if q in results {
        var i :| 0 <= i < |results| && results[i] == q;
        assert all[i] == q;
      }
    }
    SubsetSize(Signers(results), Signers(all));
  }

  /** The target is the first moment at which enough distinct members have signed. */
  lemma {:induction false} TargetReached(results: seq<RotationResult>, majority: nat)
    ensures var t := TargetAt(results, majority);
            && (t < |results| ==> |Signers(results[..t])| >= majority)
            && (|Signers(results[..t])| >= majority <==> |Signers(results)| >= majority)
            && forall u :: 0 <= u < t ==> |Signers(results[..u])| < majority
  {
    hide Signers;
    assert results[..|results|] == results;
    if results != [] {
      var n := |results| - 1;
      var before := results[..n];
      assert results == before + [results[n]];
      SignersAdd(before, results[n]);
      TargetReached(before, majority);
      forall u | 0 <= u <= n
        ensures before[..u] == results[..u]
      {
      }
      assert before[..n] == before;
    }
  }

  lemma TargetAdds(results: seq<RotationResult>, r: RotationResult, majority: nat)
    ensures TargetAt(results + [r], majority) ==
              if |Signers(results)| >= majority then TargetAt(results, majority) else |results| + 1
    ensures |Signers(results)| < majority ==> TargetAt(results, majority) == |results|
  {
    hide Signers;
    assert (results + [r])[..|results|] == results && results[..|results|] == results;
    TargetReached(results, majority);
  }

  lemma UpgradesAdd(results: seq<RotationResult>, r: RotationResult)
    ensures Upgrades(results + [r]) == if r.UpgradeResult? then Upgrades(results) + [r.stat] else Upgrades(results)
  {
    assert (results + [r])[..|results|] == results;
  }

  /** Below the target a further signature is kept. */
  lemma SignatureKept(results: seq<RotationResult>, r: RotationResult, majority: nat, signatures: map<string, string>)
    requires FirstSignatures(results, majority, signatures) && |Signers(results)| < majority && r.SignatureResult?
    ensures FirstSignatures(results + [r], majority, signatures[r.pubKey := r.signature])
    ensures |signatures[r.pubKey := r.signature]| == |Signers(results + [r])|
  {
    hide Signers, TargetAt;
    TargetAdds(results, r, majority);
    SignersAdd(results, r);
    assert results[..|results|] == results && (results + [r])[..|results| + 1] == results + [r];
    assert (results + [r])[|results|] == r;
    MembersStay(results, r);
    var more := signatures[r.pubKey := r.signature];
    assert |more| == |more.Keys|;
  }

  /** At the target, or for an upgrade, the signatures stay as they are. */
  lemma SignaturesStay(results: seq<RotationResult>, r: RotationResult, majority: nat, signatures: map<string, string>)
    requires FirstSignatures(results, majority, signatures)
    requires |Signers(results)| >= majority || r.UpgradeResult?
    ensures FirstSignatures(results + [r], majority, signatures)
  {
    hide Signers, TargetAt;
    TargetAdds(results, r, majority);
    SignersAdd(results, r);
    var t := TargetAt(results, majority);
    if |Signers(results)| >= majority {
      assert (results + [r])[..t] == results[..t];
    } else {
      assert results[..t] == results && (results + [r])[..t + 1] == results + [r];
      MembersStay(results, r);
    }
  }

  /** What one more result adds to the signatures kept. */
  lemma ResultAdds(results: seq<RotationResult>, r: RotationResult, majority: nat, signatures: map<string, string>)
    requires FirstSignatures(results, majority, signatures)
    ensures |Signers(results)| < majority && r.SignatureResult? ==>
              && FirstSignatures(results + [r], majority, signatures[r.pubKey := r.signature])
              && |signatures[r.pubKey := r.signature]| == |Signers(results + [r])|
    ensures |Signers(results)| >= majority || r.UpgradeResult? ==> FirstSignatures(results + [r], majority, signatures)
  {
    hide Signers, TargetAt, FirstSignatures;
    if |Signers(results)| < majority && r.SignatureResult? {
      SignatureKept(results, r, majority, signatures);
    } else {
      SignaturesStay(results, r, majority, signatures);
    }
  }

  lemma MembersStay(results: seq<RotationResult>, r: RotationResult)
    ensures forall q :: q in results ==> q in results + [r]
  {
    forall i | 0 <= i < |results|
      ensures results[i] in results + [r]
    {
      assert (results + [r])[i] == results[i];
    }
  }

  /** A majority is kept exactly when a majority signed. */
  lemma EnoughIff(results: seq<RotationResult>, majority: nat, signatures: map<string, string>)
    requires FirstSignatures(results, majority, signatures)
    ensures |signatures| >= majority <==> |Signers(results)| >= majority
  {
    TargetReached(results, majority);
    assert |signatures| == |signatures.Keys|;
  }

  lemma BestExtends(w: World, ep: Epoch, creator: string, current: VotingStat, replies: seq<StatReply>, r: StatReply,
                    best: VotingStat, best': VotingStat)
    requires IsBest(w, ep, creator, current, replies, best) && best.index >= current.index
    requires best' == if PullCandidate(w, ep, creator, best, r) then r.stat else best
    ensures IsBest(w, ep, creator, current, replies + [r], best')
  {
    hide AfpOk;
    var all := replies + [r];
    assert all[|replies|] == r;
    assert forall i :: 0 <= i < |replies| ==> all[i] == replies[i];
  }

  // ---- What the collector assembles ----

  lemma {:induction false} ResultsAreScreened(w: World, ep: Epoch, anchor: string, local: VotingStat,
                                              answers: seq<RotationAnswer>)
    ensures forall r :: r in Screened(w, ep, anchor, local, answers) ==>
              exists i :: 0 <= i < |answers| && Screen(w, ep, anchor, local, answers[i]) == Some(r)
  {
    hide Screen;
    if answers != [] {
      var n := |answers| - 1;
      ResultsAreScreened(w, ep, anchor, local, answers[..n]);
      forall r | r in Screened(w, ep, anchor, local, answers)
        ensures exists i :: 0 <= i < |answers| && Screen(w, ep, anchor, local, answers[i]) == Some(r)
      {
        if r in Screened(w, ep, anchor, local, answers[..n]) {
          var i :| 0 <= i < n && Screen(w, ep, anchor, local, answers[..n][i]) == Some(r);
          assert answers[i] == answers[..n][i];
        } else {
          assert Screen(w, ep, anchor, local, answers[n]) == Some(r);
        }
      }
    }
  }

  /** The signatures kept are quorum members' over the rotation of the local stat. */
  lemma KeptSignaturesAreChecked(w: World, ep: Epoch, anchor: string, local: VotingStat, answers: seq<RotationAnswer>,
                                 majority: nat, signatures: map<string, string>)
    requires forall i :: 0 <= i < |answers| && answers[i].OkAnswer? ==> answers[i].member in ep.quorum
    requires FirstSignatures(Screened(w, ep, anchor, local, answers), majority, signatures)
    ensures SignaturesChecked(w, ep, anchor, local, signatures)
  {
    hide RotationText, UpgradeAcceptable, Signers, Screened;
    var results := Screened(w, ep, anchor, local, answers);
    ResultsAreScreened(w, ep, anchor, local, answers);
    forall k | k in signatures
      ensures k in ep.quorum && signatures[k] != "" && w.verify(RotationText(ep, anchor, local), k, signatures[k])
    {
      var t := TargetAt(results, majority);
      var j :| 0 <= j < t && results[..t][j] == SignatureResult(k, signatures[k]);
      assert results[j] in results;
      var i :| 0 <= i < |answers| && Screen(w, ep, anchor, local, answers[i]) == Some(results[j]);
    }
  }

  lemma {:induction false} UpgradesAreAhead(w: World, ep: Epoch, anchor: string, local: VotingStat,
                                            answers: seq<RotationAnswer>)
    ensures forall u :: u in Upgrades(Screened(w, ep, anchor, local, answers)) ==> UpgradeAcceptable(w, ep, local, u)
  {
    hide UpgradeAcceptable, RotationText;
    if answers != [] {
      var n := |answers| - 1;
      UpgradesAreAhead(w, ep, anchor, local, answers[..n]);
      var last := Screen(w, ep, anchor, local, answers[n]);
      if last.Some? {
        UpgradesAdd(Screened(w, ep, anchor, local, answers[..n]), last.value);
      }
    }
  }

  /** The collector can wait on itself only if another writer has raised the stored stat above the
      one it started from, since it read it. */
  lemma BlockingNeedsMovedStat(w: World, ep: Epoch, anchor: string, local: VotingStat, stored: VotingStat,
                               answers: seq<RotationAnswer>)
    requires WaitsOnItself(Upgrades(Screened(w, ep, anchor, local, answers)), stored)
    ensures stored.index > local.index
  {
    hide AfpOk, Screened;
    UpgradesAreAhead(w, ep, anchor, local, answers);
    var upgrades := Upgrades(Screened(w, ep, anchor, local, answers));
    assert upgrades[0] in upgrades;
  }

  const FOUR: seq<string> := ["a", "b", "c", "d"]

  /** A stat for block i of "a", certified by three of the four. */
  function TrustedStat(i: int): VotingStat {
    VotingStat(i, "h", Afp("p", BlockId(0, "a", i), "h", map["a" := "s", "b" := "s", "c" := "s"]))
  }

  lemma TrustedStatCounts(w: World, ep: Epoch, local: VotingStat, i: int)
    requires ep.quorum == FOUR && forall m, k, s :: w.verify(m, k, s)
    requires local.index < i && MIN_INT64 <= i <= MAX_INT64
    ensures UpgradeAcceptable(w, ep, local, TrustedStat(i))
  {
    hide AfpPayload, BlockId, ValidSigners;
    BlockIdRoundTrip(0, "a", i);
    ThreeOfFour(w, AfpPayload(TrustedStat(i).afp, ep.id));
  }

  lemma ThreeOfFour(w: World, payload: string)
    requires forall m, k, s :: w.verify(m, k, s)
    ensures |ValidSigners(w, payload, map["a" := "s", "b" := "s", "c" := "s"], FOUR)| == 3 == Majority(|FOUR|)
  {
    assert FOUR[0] == "a" && FOUR[1] == "b" && FOUR[2] == "c";
    assert ValidSigners(w, payload, map["a" := "s", "b" := "s", "c" := "s"], FOUR) == {"a", "b", "c"};
    assert "a"[0] != "b"[0] && "b"[0] != "c"[0] && "a"[0] != "c"[0];
  }

  lemma OneUpgrade(w: World, ep: Epoch, anchor: string, local: VotingStat, a: VotingStat)
    requires UpgradeAcceptable(w, ep, local, a)
    ensures Screened(w, ep, anchor, local, [UpgradeAnswer(a)]) == [UpgradeResult(a)]
  {
    hide UpgradeAcceptable, RotationText;
    var answers := [UpgradeAnswer(a)];
    assert answers[..0] == [];
    assert Screened(w, ep, anchor, local, answers[..0]) == [];
  }

  lemma TwoUpgrades(w: World, ep: Epoch, anchor: string, local: VotingStat, a: VotingStat, b: VotingStat)
    requires UpgradeAcceptable(w, ep, local, a) && UpgradeAcceptable(w, ep, local, b)
    ensures Upgrades(Screened(w, ep, anchor, local, [UpgradeAnswer(a), UpgradeAnswer(b)])) == [a, b]
  {
    hide UpgradeAcceptable, RotationText, Upgrades;
    OneUpgrade(w, ep, anchor, local, a);
    var answers := [UpgradeAnswer(a), UpgradeAnswer(b)];
    assert answers[..1] == [UpgradeAnswer(a)];
    assert Screened(w, ep, anchor, local, answers) == [UpgradeResult(a)] + [UpgradeResult(b)];
    NothingCollected(0);
    UpgradesAdd([], UpgradeResult(a));
    assert [] + [UpgradeResult(a)] == [UpgradeResult(a)];
    UpgradesAdd([UpgradeResult(a)], UpgradeResult(b));
  }

  /** An input on which the collector waits on itself, in a quorum of four that is the registry: it
      asked with a stat at -1, another writer has raised the stored one to 5 since, and two members
      answer with their stats, 1 and then 9, each certified by a majority. The second upgrade blocks
      although it is newer than everything stored. */
  lemma BlockingInput(w: World, ep: Epoch)
    requires ep.quorum == FOUR && ep.registry == FOUR && forall m, k, s :: w.verify(m, k, s)
    ensures var answers := [UpgradeAnswer(TrustedStat(1)), UpgradeAnswer(TrustedStat(9))];
            && |answers| <= |ep.quorum|
            && WaitsOnItself(Upgrades(Screened(w, ep, "a", TEMPLATE, answers)), TrustedStat(5))
            && TrustedStat(9).index > TrustedStat(5).index
  {
    hide UpgradeAcceptable, Screened, Upgrades;
    TrustedStatCounts(w, ep, TEMPLATE, 1);
    TrustedStatCounts(w, ep, TEMPLATE, 9);
    TwoUpgrades(w, ep, "a", TEMPLATE, TrustedStat(1), TrustedStat(9));
  }

  /** A proof assembled from a majority of checked signatures passes the verifier exactly when the
      local stat's certificate names this anchor, this index and the stat's hash. */
  lemma AssembledVerifiesIff(w: World, ep: Epoch, anchor: string, local: VotingStat, signatures: map<string, string>)
    requires anchor in ep.registry && ColonFree(anchor) && MIN_INT64 <= local.index <= MAX_INT64
    requires SignaturesChecked(w, ep, anchor, local, signatures)
    requires |signatures| >= Majority(|ep.quorum|)
    ensures AarpOk(w, Assembled(ep, anchor, local, signatures), ep)
       <==> local.afp.blockId == BlockId(ep.id, anchor, local.index) && local.hash == local.afp.blockHash
  {
    hide ArpPayload;
    var p := Assembled(ep, anchor, local, signatures);
    assert AarpSigners(w, p, ep) == signatures.Keys;
    BlockIdParts(ep.id, anchor, local.index);
    AtoiOfItoa(local.index);
    SplitColonFree("");
  }
}
