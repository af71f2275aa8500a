/** The durable state of one node and the four code paths that write a creator's voting stat:
    voting on a block, signing a rotation, the collector's upgrade and the health checker's pull. */
module Voter {
  import opened Text
  import opened Structures
  import opened Payloads
  import opened Certificates

  /** One creator in one epoch: the unit the per-creator mutex protects. */
  datatype Lane = Lane(epoch: int, creator: string)

  /** The key of a block and of its certificate. */
  datatype Slot = Slot(epoch: int, creator: string, index: int)

  /** The databases of a node, plus `signed`, the history of what it has signed. */
  datatype Node = Node(
    stats: map<Lane, VotingStat>,
    disabled: set<Lane>,
    blocks: map<Slot, Block>,
    afps: map<Slot, Afp>,
    finished: set<int>,
    signed: set<Statement>)

  function StatOf(s: Node, lane: Lane): VotingStat {
    if lane in s.stats then s.stats[lane] else TEMPLATE
  }

  // ---- GetFinalizationProof ----

  datatype FpRequest = FpRequest(block: Block, prevAfp: Afp)

  /** The first tracked epoch with this full id. */
  function FindEpoch(window: seq<Epoch>, fullId: string): (ep: Option<Epoch>)
    ensures ep.Some? ==> ep.value in window && FullId(ep.value) == fullId
  {
    if window == [] then None
    else if FullId(window[0]) == fullId then Some(window[0])
    else FindEpoch(window[1..], fullId)
  }

  function FindEpochById(window: seq<Epoch>, id: int): (ep: Option<Epoch>)
    ensures ep.Some? ==> ep.value in window && ep.value.id == id
  {
    if window == [] then None
    else if window[0].id == id then Some(window[0])
    else FindEpochById(window[1..], id)
  }

  predicate HasPrevAfp(w: World, ep: Epoch, req: FpRequest) {
    && req.prevAfp.blockId == BlockId(ep.id, req.block.creator, req.block.index - 1)
    && AfpOk(w, req.prevAfp, ep)
  }

  /** When a vote is given. */
  predicate MayVote(w: World, s: Node, ep: Epoch, req: FpRequest) {
    var lane := Lane(ep.id, req.block.creator);
    var stat := StatOf(s, lane);
    && req.block.creator in ep.registry
    && lane !in s.disabled
    && (stat.index < req.block.index || (stat.index == req.block.index && GetHash(w, req.block) == stat.hash))
    && BlockSigned(w, req.block)
    && ep.id !in s.finished
    && (req.block.index == 0 || HasPrevAfp(w, ep, req))
  }

  /** The stat a vote leaves behind: the certified predecessor, never the block voted for. */
  function NextStat(s: Node, ep: Epoch, req: FpRequest): VotingStat {
    var stat := StatOf(s, Lane(ep.id, req.block.creator));
    if stat.index == req.block.index then stat
    else if req.block.index == 0 then TEMPLATE
    else VotingStat(req.block.index - 1, req.prevAfp.blockHash, req.prevAfp)
  }

  function FpStatement(w: World, ep: Epoch, req: FpRequest): Statement {
    var b := req.block;
    Fp(if b.index == 0 then INIT_HASH else req.prevAfp.blockHash, ep.id, b.creator, b.index, GetHash(w, b), b)
  }

  /** The node after the first `stage` durable actions of a vote: 1 the block, 2 the
      predecessor's certificate, 3 the stat, 4 the signature. A crash stops at any stage. */
  function VoteUpTo(w: World, s: Node, ep: Epoch, req: FpRequest, stage: nat): Node {
    var b := req.block;
    s.(blocks := if stage >= 1 then s.blocks[Slot(ep.id, b.creator, b.index) := b] else s.blocks,
       afps := if stage >= 2 && b.index != 0 then s.afps[Slot(ep.id, b.creator, b.index - 1) := req.prevAfp]
           else s.afps,
       stats := if stage >= 3 then s.stats[Lane(ep.id, b.creator) := NextStat(s, ep, req)] else s.stats,
       signed := if stage >= 4 then s.signed + {FpStatement(w, ep, req)} else s.signed)
  }

  /** A whole run of the handler on one request. */
  function VoteStep(w: World, s: Node, open: bool, window: seq<Epoch>, req: FpRequest, stage: nat): Node {
    var ep := FindEpoch(window, req.block.epoch);
    if open && ep.Some? && MayVote(w, s, ep.value, req) then VoteUpTo(w, s, ep.value, req, stage) else s
  }

  // ---- RequestAnchorRotationProof ----

  datatype RotRequest = RotRequest(epochIndex: int, forAnchor: string, proposal: VotingStat)

  datatype RotResponse =
    | BadRequest | EpochNotFound | CreatorNotFound | StillHealthy
    | Upgrade(stat: VotingStat) | StatHashMismatch | InvalidProposal(error: ProposalError)
    | Signed(statement: Statement)

  datatype ProposalError =
    | NotAhead | WrongHash | BadBlockId | EpochMismatch | CreatorMismatch | WrongIndex | PrevHashMismatch
    | BadCertificate

  /** validateProposalWithBiggerIndex; None is acceptance. */
  function ValidateProposal(w: World, current: VotingStat, proposal: VotingStat, ep: Epoch, epochIndex: int,
                            creator: string)
    : (error: Option<ProposalError>)
    ensures error.None? <==>
              && proposal.index > current.index
              && proposal.hash != "" && proposal.hash == proposal.afp.blockHash
              && AfpOk(w, proposal.afp, ep)
              && |Split(proposal.afp.blockId)| == 3
              && Atoi(Split(proposal.afp.blockId)[0]) == Some(epochIndex)
              && Split(proposal.afp.blockId)[1] == creator
              && Atoi(Split(proposal.afp.blockId)[2]) == Some(proposal.index)
              && proposal.afp.prevBlockHash != "" && proposal.afp.prevBlockHash == current.hash
  {
    var afp := proposal.afp;
    var parts := Split(afp.blockId);
    if proposal.index <= current.index then Some(NotAhead)
    else if proposal.hash == "" || proposal.hash != afp.blockHash then Some(WrongHash)
    else if |parts| != 3 then Some(BadBlockId)
    else if Atoi(parts[0]) != Some(epochIndex) then Some(EpochMismatch)
    else if parts[1] != creator then Some(CreatorMismatch)
    else if Atoi(parts[2]) != Some(proposal.index) then Some(WrongIndex)
    else if afp.prevBlockHash == "" || afp.prevBlockHash != current.hash then Some(PrevHashMismatch)
    else if !AfpOk(w, afp, ep) then Some(BadCertificate)
    else None
  }

  /** The reply to a rotation request: it signs the local stat, or a proposal one certificate ahead. */
  function RotationReply(w: World, s: Node, window: seq<Epoch>, req: RotRequest): RotResponse {
    var ep := FindEpochById(window, req.epochIndex);
    if req.epochIndex < 0 || req.forAnchor == "" then BadRequest
    else if ep.None? then EpochNotFound
    else if req.forAnchor !in ep.value.registry then CreatorNotFound
    else if Lane(req.epochIndex, req.forAnchor) !in s.disabled then StillHealthy
    else
      var current := StatOf(s, Lane(req.epochIndex, req.forAnchor));
      if req.proposal.index < current.index then Upgrade(current)
      else if req.proposal.index == current.index then
        if current.hash != req.proposal.hash then StatHashMismatch
            else Signed(ArpStatement(ep.value, req.forAnchor, current))
      else
        var error := ValidateProposal(w, current, req.proposal, ep.value, req.epochIndex, req.forAnchor);
        if error.Some? then InvalidProposal(error.value) else Signed(ArpStatement(ep.value, req.forAnchor,
            req.proposal))
  }

  function ArpStatement(ep: Epoch, anchor: string, stat: VotingStat): Statement {
    Arp(ep.id, anchor, stat.index, stat.hash)
  }

  function RotationStep(w: World, s: Node, window: seq<Epoch>, req: RotRequest): Node {
    var r := RotationReply(w, s, window, req);
    if r.Signed? then s.(signed := s.signed + {r.statement}) else s
  }

  // ---- The collector's upgrade and the health checker's pull ----

  /** collectRotationSignatures' test of an UPGRADE reply against the stat it started from. */
  predicate UpgradeAcceptable(w: World, ep: Epoch, local: VotingStat, reply: VotingStat) {
    var parts := Split(reply.afp.blockId);
    && |parts| == 3
    && Atoi(parts[2]).Some?
    && Atoi(parts[2]).value > local.index
    && Atoi(parts[2]).value == reply.index
    && reply.hash == reply.afp.blockHash
    && AfpOk(w, reply.afp, ep)
  }

  /** An upgrade is taken exactly if it is ahead, consistent and certified, under an id of three fields the
      last of which spells its index. */
  lemma UpgradeIff(w: World, ep: Epoch, local: VotingStat, reply: VotingStat)
    ensures UpgradeAcceptable(w, ep, local, reply) <==>
              && reply.index > local.index && reply.hash == reply.afp.blockHash && AfpOk(w, reply.afp, ep)
              && exists a, b, c :: IsTriple(reply.afp.blockId, a, b, c) && Atoi(c) == Some(reply.index)
  {
    hide Atoi, Split, AfpOk;
    TripleIff(reply.afp.blockId);
  }

  /** tryPullVotingStatFromQuorum's test of a candidate; its index is only compared. */
  predicate PullAcceptable(w: World, ep: Epoch, best: VotingStat, candidate: VotingStat) {
    && candidate.index > best.index
    && candidate.afp.blockId != ""
    && candidate.hash == candidate.afp.blockHash
    && AfpOk(w, candidate.afp, ep)
  }

  /** Both writers re-read the stat under the mutex and store only a larger index. */
  function Raise(s: Node, lane: Lane, stat: VotingStat): Node {
    if stat.index > StatOf(s, lane).index then s.(stats := s.stats[lane := stat]) else s
  }

  function Disable(s: Node, lane: Lane): Node {
    s.(disabled := s.disabled + {lane})
  }

  // ---- What every writer keeps, for one lane of one node ----

  /** Votes stay within one of the stat; a rotation is signed only once the creator is
      disabled; and no vote lies more than one above any rotation point signed. */
  ghost predicate Ordered(s: Node, lane: Lane) {
    && StatOf(s, lane).index >= -1
    && (StatOf(s, lane).index == -1 ==> StatOf(s, lane) == TEMPLATE)
    && (forall v :: v in s.signed && v.Fp? && Lane(v.epoch, v.creator) == lane ==>
        0 <= v.index <= StatOf(s, lane).index + 1)
    && (forall v :: v in s.signed && v.Arp? && Lane(v.epoch, v.creator) == lane ==> lane in s.disabled && v.index >= -1)
    && (forall v, a ::
        v in s.signed && v.Fp? && Lane(v.epoch, v.creator) == lane && a in s.signed && a.Arp? &&
            Lane(a.epoch, a.creator) == lane ==>
          v.index <= a.index + 1)
  }

  /** One step of a node as seen from one lane. */
  ghost predicate Forward(s: Node, s': Node, lane: Lane) {
    && StatOf(s, lane).index <= StatOf(s', lane).index
    && s.disabled <= s'.disabled
    && s.signed <= s'.signed
    && (lane in s.disabled ==> forall v :: v in s'.signed - s.signed && Lane(v.epoch, v.creator) == lane ==> v.Arp?)
    && (forall a :: a in s'.signed - s.signed && a.Arp? && Lane(a.epoch, a.creator) == lane ==>
        a.index >= StatOf(s, lane).index)
  }

  lemma VotedIndexIsNatural(w: World, s: Node, ep: Epoch, req: FpRequest)
    requires Sound(w) && Ordered(s, Lane(ep.id, req.block.creator)) && MayVote(w, s, ep, req)
    ensures req.block.index >= 0
  {
  }

  /** Voting, cut off by a crash at any stage, keeps the order and moves forward. */
  lemma VoteKeepsOrder(w: World, s: Node, ep: Epoch, req: FpRequest, stage: nat, lane: Lane)
    requires Sound(w) && Ordered(s, lane) && MayVote(w, s, ep, req)
    ensures Ordered(VoteUpTo(w, s, ep, req, stage), lane)
    ensures Forward(s, VoteUpTo(w, s, ep, req, stage), lane)
  {
    if lane == Lane(ep.id, req.block.creator) {
      VotedIndexIsNatural(w, s, ep, req);
      var s' := VoteUpTo(w, s, ep, req, stage);
      assert StatOf(s, lane).index <= StatOf(s', lane).index;
    }
  }

  /** A vote cut off by a crash after any durable action is given again when the request is repeated,
      and leaves what an uninterrupted one would have left. */
  lemma CutVoteIsRepeated(w: World, s: Node, ep: Epoch, req: FpRequest, stage: nat)
    requires MayVote(w, s, ep, req)
    ensures var cut := VoteUpTo(w, s, ep, req, stage);
            MayVote(w, cut, ep, req) && VoteUpTo(w, cut, ep, req, 4) == VoteUpTo(w, s, ep, req, 4)
  {
    hide GetHash, BlockSigned, HasPrevAfp, BlockId;
    var lane := Lane(ep.id, req.block.creator);
    var cut := VoteUpTo(w, s, ep, req, stage);
    assert stage >= 3 ==> StatOf(cut, lane) == NextStat(s, ep, req);
    assert NextStat(cut, ep, req) == NextStat(s, ep, req);
    var once, twice := VoteUpTo(w, s, ep, req, 4), VoteUpTo(w, cut, ep, req, 4);
    assert twice.blocks == once.blocks && twice.afps == once.afps && twice.stats == once.stats;
    assert twice.signed == once.signed;
  }

  /** Nothing becomes durable before what it rests on: no certificate before the block, no stat before the
      certificate it names, no signature before all three. */
  lemma WritesInOrder(w: World, s: Node, ep: Epoch, req: FpRequest, stage: nat)
    ensures var cut, whole := VoteUpTo(w, s, ep, req, stage), VoteUpTo(w, s, ep, req, 4);
            && (cut.afps != s.afps ==> cut.blocks == whole.blocks)
            && (cut.stats != s.stats ==> cut.afps == whole.afps && cut.blocks == whole.blocks)
            && (cut.signed != s.signed ==> cut == whole)
  {
    hide GetHash;
  }

  /** Once a node has moved on to a successor, it still votes for the block the certificate names when it
      is sent again, and for no other block at or below that index. */
  lemma ApprovedBlockVotedAgain(w: World, s: Node, ep: Epoch, next: FpRequest, req: FpRequest)
    requires MayVote(w, s, ep, next) && next.block.index > 0
    requires StatOf(s, Lane(ep.id, next.block.creator)).index < next.block.index
    requires req.block.creator == next.block.creator && req.block.index < next.block.index
    requires BlockSigned(w, req.block) && (req.block.index == 0 || HasPrevAfp(w, ep, req))
    ensures MayVote(w, VoteUpTo(w, s, ep, next, 4), ep, req)
       <==> req.block.index == next.block.index - 1 && GetHash(w, req.block) == next.prevAfp.blockHash
  {
    hide GetHash, BlockSigned, HasPrevAfp;
  }

  /** A proposal that spells its own block id and names the local hash as predecessor is signed. */
  lemma NextProposalIsSigned(w: World, current: VotingStat, proposal: VotingStat, ep: Epoch, e: int, creator: string)
    requires ColonFree(creator) && MIN_INT64 <= e <= MAX_INT64 && current.index < proposal.index <= MAX_INT64
    requires proposal.index >= MIN_INT64 && proposal.afp.blockId == BlockId(e, creator, proposal.index)
    requires proposal.hash == proposal.afp.blockHash != "" && AfpOk(w, proposal.afp, ep)
    requires proposal.afp.prevBlockHash == current.hash != ""
    ensures ValidateProposal(w, current, proposal, ep, e, creator).None?
  {
    hide AfpOk;
    BlockIdParts(e, creator, proposal.index);
    AtoiOfItoa(e);
    AtoiOfItoa(proposal.index);
  }

  /** A signed rotation names a point at or above the local stat, for a disabled creator. */
  lemma RotationIsNotBehind(w: World, s: Node, window: seq<Epoch>, req: RotRequest)
    requires RotationReply(w, s, window, req).Signed?
    ensures var a := RotationReply(w, s, window, req).statement;
            a.Arp? && Lane(a.epoch, a.creator) in s.disabled && a.index >= StatOf(s, Lane(a.epoch, a.creator)).index
  {
  }

  lemma RotationKeepsOrder(w: World, s: Node, window: seq<Epoch>, req: RotRequest, lane: Lane)
    requires Ordered(s, lane)
    ensures Ordered(RotationStep(w, s, window, req), lane)
    ensures Forward(s, RotationStep(w, s, window, req), lane)
  {
    var r := RotationReply(w, s, window, req);
    if r.Signed? {
      RotationIsNotBehind(w, s, window, req);
      SigningKeepsOrder(s, r.statement, lane);
    }
  }

  lemma SigningKeepsOrder(s: Node, a: Statement, lane: Lane)
    requires Ordered(s, lane)
    requires a.Arp? && Lane(a.epoch, a.creator) in s.disabled && a.index >= StatOf(s, Lane(a.epoch, a.creator)).index
    ensures Ordered(s.(signed := s.signed + {a}), lane)
    ensures Forward(s, s.(signed := s.signed + {a}), lane)
  {
  }

  lemma RaiseKeepsOrder(s: Node, at: Lane, stat: VotingStat, lane: Lane)
    requires Ordered(s, lane)
    ensures Ordered(Raise(s, at, stat), lane)
    ensures Forward(s, Raise(s, at, stat), lane)
  {
  }

  lemma DisableKeepsOrder(s: Node, at: Lane, lane: Lane)
    requires Ordered(s, lane)
    ensures Ordered(Disable(s, at), lane)
    ensures Forward(s, Disable(s, at), lane)
  {
  }
}
