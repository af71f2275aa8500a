/** Rounds in which every quorum member that runs this code answers: they alone are enough. */
module Rounds {
  import opened Text
  import opened Structures
  import opened Payloads
  import opened Certificates
  import opened Voter
  import opened Maker
  import opened AnchorNodes
  import opened CreatorThreads

  /** A quorum without repeated keys in which at most a third is faulty. */
  ghost predicate QuorumOk(ep: Epoch, honest: set<string>) {
    FaultyBound(ep.quorum, honest) && |Members(ep.quorum)| == |ep.quorum|
  }

  // ---- Collecting a rotation ----

  /** A member that has banned the anchor and stands at the same stat. */
  ghost predicate SamePoint(s: Node, ep: Epoch, anchor: string, local: VotingStat) {
    var lane := Lane(ep.id, anchor);
    lane in s.disabled && StatOf(s, lane).index == local.index && StatOf(s, lane).hash == local.hash
  }

  /** It signs exactly the text the collector checks. */
  lemma SamePointSigns(w: World, s: Node, window: seq<Epoch>, ep: Epoch, anchor: string, local: VotingStat)
    requires FindEpochById(window, ep.id) == Some(ep) && ep.id >= 0 && anchor in ep.registry && anchor != ""
    requires SamePoint(s, ep, anchor, local)
    ensures var reply := RotationReply(w, s, window, RotRequest(ep.id, anchor, local));
            reply.Signed? && Payload(reply.statement) == RotationText(ep, anchor, local)
  {
  }

  /** k's valid signature is among the answers. */
  ghost predicate SignedAmong(w: World, ep: Epoch, anchor: string, local: VotingStat, answers: seq<RotationAnswer>,
                              k: string)
  {
    exists sig :: OkAnswer(k, true, sig) in answers && sig != "" && w.verify(RotationText(ep, anchor, local), k, sig)
  }

  lemma {:induction false} SignedIsKept(w: World, ep: Epoch, anchor: string, local: VotingStat,
                                        answers: seq<RotationAnswer>, k: string)
    requires SignedAmong(w, ep, anchor, local, answers, k)
    ensures k in Signers(Screened(w, ep, anchor, local, answers))
  {
    hide RotationText, UpgradeAcceptable, Signers;
    var n := |answers| - 1;
    var before, last := Screened(w, ep, anchor, local, answers[..n]), Screen(w, ep, anchor, local, answers[n]);
    if last.Some? { SignersAdd(before, last.value); }
    if SignedAmong(w, ep, anchor, local, answers[..n], k) {
      SignedIsKept(w, ep, anchor, local, answers[..n], k);
    } else {
      var sig :| OkAnswer(k, true, sig) in answers && sig != "" && w.verify(RotationText(ep, anchor, local), k, sig);
      assert OkAnswer(k, true, sig) !in answers[..n];
      assert answers == answers[..n] + [answers[n]];
      assert answers[n] == OkAnswer(k, true, sig);
    }
  }

  /** Once every honest member's signature is among the answers, the signatures the collector keeps are a
      majority, and the proof assembled from them verifies exactly if the local stat names its certified
      block. */
  lemma RotationRoundSucceeds(w: World, ep: Epoch, anchor: string, local: VotingStat, honest: set<string>,
                              answers: seq<RotationAnswer>, signatures: map<string, string>)
    requires QuorumOk(ep, honest) && anchor in ep.registry && ColonFree(anchor)
    requires MIN_INT64 <= local.index <= MAX_INT64
    requires forall i :: 0 <= i < |answers| && answers[i].OkAnswer? ==> answers[i].member in ep.quorum
    requires forall k :: k in Members(ep.quorum) && k in honest ==> SignedAmong(w, ep, anchor, local, answers, k)
    requires FirstSignatures(Screened(w, ep, anchor, local, answers), Majority(|ep.quorum|), signatures)
    ensures |Signers(Screened(w, ep, anchor, local, answers))| >= Majority(|ep.quorum|)
    ensures |signatures| >= Majority(|ep.quorum|)
    ensures AarpOk(w, Assembled(ep, anchor, local, signatures), ep)
       <==> local.afp.blockId == BlockId(ep.id, anchor, local.index) && local.hash == local.afp.blockHash
  {
    hide Screened, Signers, FirstSignatures, SignedAmong, FaultyBound, Majority, AarpOk, RotationText, BlockId;
    var signers := Signers(Screened(w, ep, anchor, local, answers));
    forall k | k in Members(ep.quorum) * honest
      ensures k in signers
    {
      SignedIsKept(w, ep, anchor, local, answers, k);
    }
    HonestReachMajority(ep.quorum, honest);
    SubsetSize(Members(ep.quorum) * honest, signers);
    EnoughIff(Screened(w, ep, anchor, local, answers), Majority(|ep.quorum|), signatures);
    KeptSignaturesAreChecked(w, ep, anchor, local, answers, Majority(|ep.quorum|), signatures);
    AssembledVerifiesIff(w, ep, anchor, local, signatures);
  }

  // ---- Collecting votes for the next block ----

  /** A voter that has not banned the creator, has not finished the epoch and has not moved past b. */
  ghost predicate Ready(w: World, s: Node, ep: Epoch, b: Block) {
    var lane := Lane(ep.id, b.creator);
    && lane !in s.disabled && ep.id !in s.finished
    && (StatOf(s, lane).index < b.index || (StatOf(s, lane).index == b.index && StatOf(s, lane).hash == GetHash(w, b)))
  }

  /** What the grabber sends for its next block gets the vote of every such voter, and the vote is over
      exactly the text the grabber checks. */
  lemma ReadyVotes(w: World, s: Node, ep: Epoch, me: string, n: Node, m: Maker, b: Block, proofs: map<string, string>,
                   crashes: bool)
    requires MakerInv(w, ep, me, n, m, crashes) && me in ep.registry
    requires b.creator == me && BlockSigned(w, b) && StoredBlockOk(w, m.chain, m.grabber.acceptedIndex + 1, b)
    requires Ready(w, s, ep, b)
    ensures var req := FpRequest(b, m.grabber.afpForPrevious);
            && MayVote(w, s, ep, req)
            && Payload(FpStatement(w, ep, req)) ==
                 AfpPayload(HuntAfp(w, ep, me, Hunting(m.grabber, b, proofs)), ep.id)
  {
    hide GetHash, BlockSigned, AfpOk, BlockId, FullId, Linked, GeneratorOk, HuntOk, CacheOk, PointerOk, OwnStore,
         FpPayload;
  }

  /** Once every honest member's vote is among the validated replies, the pass certifies the block hunted,
      moves on and saves its progress. */
  lemma VotingRoundCertifies(w: World, ep: Epoch, me: string, n: Node, m: Maker, replies: seq<FpReply>,
                             honest: set<string>, crashes: bool)
    requires MakerInv(w, ep, me, n, m, crashes) && m.hunt.HuntIdle? && QuorumOk(ep, honest)
    requires Hunted(ep, me, n, m).Some?
    requires var b := Hunted(ep, me, n, m).value;
             forall i :: 0 <= i < |replies| ==>
               ReplyValid(w, ep, AfpPayload(HuntAfp(w, ep, me, Hunting(m.grabber, b, m.cache)), ep.id),
                          GetHash(w, b), replies[i])
    requires forall k :: k in Members(ep.quorum) && k in honest ==> exists r :: r in replies && r.voter == k
    ensures var r := GrabUpTo(w, ep, me, n, m, Some(replies), 5);
            var next := m.grabber.acceptedIndex + 1;
            && r.1.grabber.acceptedIndex == next && r.1.saved == r.1.grabber && r.1.hunt.HuntIdle?
            && Slot(ep.id, me, next) in r.0.afps && AfpOk(w, r.0.afps[Slot(ep.id, me, next)], ep)
            && r.0.afps[Slot(ep.id, me, next)].blockId == BlockId(ep.id, me, next)
            && r.0.afps[Slot(ep.id, me, next)].blockHash == GetHash(w, Hunted(ep, me, n, m).value)
  {
    hide MakerInv, GetHash, AfpPayload, BlockId, ReplyValid, QuorumOk, Majority, GrabUpTo, ProofsAfter, Hunted, AfpOk;
    HonestVotesSuffice(ep, m, replies, honest);
    WholeGrabPass(w, ep, me, n, m, Some(replies));
    GrabPassKeepsInv(w, ep, me, n, m, Some(replies), 5, crashes);
    var r := GrabUpTo(w, ep, me, n, m, Some(replies), 5);
    AcceptedIsNatural(w, ep, me, n, m, crashes);
    SavedIsStored(w, ep, me, r.0, r.1, crashes);
  }

  lemma HonestVotesSuffice(ep: Epoch, m: Maker, replies: seq<FpReply>, honest: set<string>)
    requires QuorumOk(ep, honest)
    requires forall k :: k in Members(ep.quorum) && k in honest ==> exists r :: r in replies && r.voter == k
    ensures |ProofsAfter(ep, m, Some(replies))| >= Majority(|ep.quorum|)
  {
    hide FaultyBound, Majority, ProofsOf;
    var got := m.cache + ProofsOf(replies);
    forall k | k in Members(ep.quorum) * honest
      ensures k in got
    {
      ProofsOfVoters(replies, k);
    }
    HonestReachMajority(ep.quorum, honest);
    SubsetSize(Members(ep.quorum) * honest, got.Keys);
  }

  lemma AcceptedIsNatural(w: World, ep: Epoch, me: string, n: Node, m: Maker, crashes: bool)
    requires MakerInv(w, ep, me, n, m, crashes)
    ensures m.grabber.acceptedIndex >= -1
  {
    hide GetHash, AfpOk, BlockId, Linked, OwnStore, GeneratorOk, HuntOk, CacheOk, PointerOk;
  }

  lemma SavedIsStored(w: World, ep: Epoch, me: string, n: Node, m: Maker, crashes: bool)
    requires MakerInv(w, ep, me, n, m, crashes) && m.grabber.acceptedIndex >= 0
    ensures Slot(ep.id, me, m.grabber.acceptedIndex) in n.afps &&
        AfpOk(w, n.afps[Slot(ep.id, me, m.grabber.acceptedIndex)], ep)
  {
    hide GetHash, AfpOk, BlockId, Linked, InWindow, GeneratorOk, HuntOk, CacheOk, PointerOk;
  }
}
