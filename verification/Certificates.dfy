/** Counting quorum signatures: GetQuorumMajority, VerifyAggregatedFinalizationProof,
    VerifyAggregatedAnchorRotationProof and the intersection of two majorities. */
module Certificates {
  import opened Text
  import opened Structures
  import opened Payloads

  function Majority(n: nat): nat {
    var majority := (2 * n) / 3 + 1;
    if majority > n then n else majority
  }

  function Members(quorum: seq<string>): set<string> { set k | k in quorum }

  predicate IsSigner(w: World, payload: string, proofs: map<string, string>, quorum: seq<string>, k: string)
    requires k in proofs
  {
    k in quorum && w.verify(payload, k, proofs[k])
  }

  /** The distinct quorum keys under which `proofs` carries a valid signature of `payload`. */
  function ValidSigners(w: World, payload: string, proofs: map<string, string>, quorum: seq<string>): set<string> {
    set k | k in proofs && IsSigner(w, payload, proofs, quorum, k)
  }

  /** Same for the rotation verifier, which also skips empty signature texts. */
  function RotationSigners(w: World, payload: string, proofs: map<string, string>, quorum: seq<string>): set<string> {
    set k | k in proofs && proofs[k] != "" && IsSigner(w, payload, proofs, quorum, k)
  }

  /** To the rotation verifier an empty signature is no signature, valid or not. */
  lemma EmptySignaturesNeverCount(w: World, payload: string, proofs: map<string, string>, quorum: seq<string>)
    ensures RotationSigners(w, payload, proofs, quorum) ==
        ValidSigners(w, payload, map k | k in proofs && proofs[k] != "" :: proofs[k], quorum)
  {
  }

  predicate AfpOk(w: World, afp: Afp, ep: Epoch) {
    |ValidSigners(w, AfpPayload(afp, ep.id), afp.proofs, ep.quorum)| >= Majority(|ep.quorum|)
  }

  function AarpSigners(w: World, p: Aarp, ep: Epoch): set<string> {
    RotationSigners(w, ArpPayload(p.anchor, p.votingStat.index, p.votingStat.hash, p.epochIndex),
                    p.signatures, ep.quorum)
  }

  datatype AarpVerdict =
    | Valid | MissingBlockId | UnknownAnchor | BlockIdMismatch | HashMismatch | IndexMismatch | TooFewSignatures

  predicate AarpShape(p: Aarp, ep: Epoch) {
    var afp := p.votingStat.afp;
    && afp.blockId != ""
    && p.anchor in ep.registry
    && afp.blockId == BlockId(p.epochIndex, p.anchor, p.votingStat.index)
    && p.votingStat.hash == afp.blockHash
    && |Split(afp.blockId)| >= 3 && Atoi(Split(afp.blockId)[2]) == Some(p.votingStat.index)
  }

  predicate AarpOk(w: World, p: Aarp, ep: Epoch) {
    AarpShape(p, ep) && |AarpSigners(w, p, ep)| >= Majority(|ep.quorum|)
  }

  /** The lookup table both verifiers build from the quorum list. */
  method QuorumMap(quorum: seq<string>) returns (quorumMap: set<string>)
    ensures forall k :: k in quorumMap <==> k in quorum
  {
    quorumMap := {};
    for i := 0 to |quorum|
      invariant forall k :: k in quorumMap <==> k in quorum[..i]
    {
      assert quorum[..i + 1] == quorum[..i] + [quorum[i]];
      quorumMap := quorumMap + {quorum[i]};
    }
    assert quorum[..|quorum|] == quorum;
  }

  /** The counting loop of VerifyAggregatedFinalizationProof; it walks the proof map in whatever
      order it comes. */
  method CountFinalizationSignatures(w: World, data: string, proofs: map<string, string>,
                                     quorumMap: set<string>, ghost quorum: seq<string>)
    returns (okSignatures: nat)
    requires forall k :: k in quorumMap <==> k in quorum
    ensures okSignatures == |ValidSigners(w, data, proofs, quorum)|
  {
    okSignatures := 0;
    var seen: set<string> := {};
    ghost var signers := ValidSigners(w, data, proofs, quorum);
    var rest := proofs.Keys;
    while rest != {}
      invariant rest <= proofs.Keys
      invariant forall k :: k in seen <==> k in signers && k !in rest
      invariant okSignatures == |seen|
    {
      var pubKey :| pubKey in rest;
      if w.verify(data, pubKey, proofs[pubKey]) && pubKey in quorumMap && pubKey !in seen {
        seen := seen + {pubKey};
        okSignatures := okSignatures + 1;
      }
      rest := rest - {pubKey};
    }
    assert seen == signers;
  }

  /** The counting loop of VerifyAggregatedAnchorRotationProof. */
  method CountRotationSignatures(w: World, data: string, signatures: map<string, string>,
                                 quorumMap: set<string>, ghost quorum: seq<string>)
    returns (verified: nat)
    requires forall k :: k in quorumMap <==> k in quorum
    ensures verified == |RotationSigners(w, data, signatures, quorum)|
  {
    verified := 0;
    var seen: set<string> := {};
    ghost var signers := RotationSigners(w, data, signatures, quorum);
    var rest := signatures.Keys;
    while rest != {}
      invariant rest <= signatures.Keys
      invariant forall k :: k in seen <==> k in signers && k !in rest
      invariant verified == |seen|
    {
      var voter :| voter in rest;
      var signature := signatures[voter];
      rest := rest - {voter};
      if signature == "" || voter in seen || voter !in quorumMap || !w.verify(data, voter, signature) {
        continue;
      }
      seen := seen + {voter};
      verified := verified + 1;
    }
    assert seen == signers;
  }

  method VerifyAggregatedFinalizationProof(w: World, proof: Afp, ep: Epoch) returns (ok: bool)
    ensures ok <==> AfpOk(w, proof, ep)
  {
    var data := AfpPayload(proof, ep.id);
    var quorumMap := QuorumMap(ep.quorum);
    var okSignatures := CountFinalizationSignatures(w, data, proof.proofs, quorumMap, ep.quorum);
    ok := okSignatures >= Majority(|ep.quorum|);
  }

  lemma BlockIdHasThreeParts(epoch: int, creator: string, index: int)
    ensures |Split(BlockId(epoch, creator, index))| >= 3
  {
    SplitConcat(Itoa(epoch) + ":" + creator, Itoa(index));
    SplitConcat(Itoa(epoch), creator);
  }

  method VerifyAggregatedAnchorRotationProof(w: World, proof: Aarp, ep: Epoch) returns (verdict: AarpVerdict)
    ensures verdict.Valid? <==> AarpOk(w, proof, ep)
    ensures verdict.TooFewSignatures? <==> AarpShape(proof, ep) && !AarpOk(w, proof, ep)
    ensures var afp, stat := proof.votingStat.afp, proof.votingStat;
            var named := afp.blockId != "";
            var known := named && proof.anchor in ep.registry;
            var fits := known && afp.blockId == BlockId(proof.epochIndex, proof.anchor, stat.index);
            && (verdict.MissingBlockId? <==> !named)
            && (verdict.UnknownAnchor? <==> named && !known)
            && (verdict.BlockIdMismatch? <==> known && !fits)
            && (verdict.HashMismatch? <==> fits && stat.hash != afp.blockHash)
            && (verdict.IndexMismatch? <==> fits && stat.hash == afp.blockHash && !AarpShape(proof, ep))
  {
    var stat := proof.votingStat;
    if stat.afp.blockId == "" {
      return MissingBlockId;
    }
    if proof.anchor !in ep.registry {
      return UnknownAnchor;
    }
    var expectedBlockId := BlockId(proof.epochIndex, proof.anchor, stat.index);
    if stat.afp.blockId != expectedBlockId {
      return BlockIdMismatch;
    }
    if stat.hash != stat.afp.blockHash {
      return HashMismatch;
    }
    BlockIdHasThreeParts(proof.epochIndex, proof.anchor, stat.index);
    var blockParts := Split(stat.afp.blockId);
    if Atoi(blockParts[2]) != Some(stat.index) {
      return IndexMismatch;
    }
    var data := ArpPayload(proof.anchor, stat.index, stat.hash, proof.epochIndex);
    var quorumMap := QuorumMap(ep.quorum);
    var verified := CountRotationSignatures(w, data, proof.signatures, quorumMap, ep.quorum);
    verdict := if verified < Majority(|ep.quorum|) then TooFewSignatures else Valid;
  }

  /** The last check refuses nothing but an index that does not fit 64 bits. */
  lemma IndexCheckIff(p: Aarp, ep: Epoch)
    requires p.votingStat.afp.blockId == BlockId(p.epochIndex, p.anchor, p.votingStat.index) && ColonFree(p.anchor)
    requires p.anchor in ep.registry && p.votingStat.hash == p.votingStat.afp.blockHash
    ensures AarpShape(p, ep) <==> MIN_INT64 <= p.votingStat.index <= MAX_INT64
  {
    BlockIdHasThreeParts(p.epochIndex, p.anchor, p.votingStat.index);
    BlockIdParts(p.epochIndex, p.anchor, p.votingStat.index);
    AtoiOfItoa(p.votingStat.index);
    assert Split("") == [""];
  }

  /** HasValidAggregatedAnchorRotationProof. */
  predicate HasValidAarp(w: World, proofs: seq<Aarp>, rotated: string, ep: Epoch) {
    rotated != "" && exists i :: 0 <= i < |proofs| && proofs[i].anchor == rotated && AarpOk(w, proofs[i], ep)
  }

  method HasValidAggregatedAnchorRotationProof(w: World, proofs: seq<Aarp>, rotated: string, ep: Epoch)
      returns (found: bool)
    ensures found <==> HasValidAarp(w, proofs, rotated, ep)
  {
    if rotated == "" {
      return false;
    }
    for i := 0 to |proofs|
      invariant forall j :: 0 <= j < i ==> !(proofs[j].anchor == rotated && AarpOk(w, proofs[j], ep))
    {
      if proofs[i].anchor == rotated {
        var verdict := VerifyAggregatedAnchorRotationProof(w, proofs[i], ep);
        if verdict.Valid? {
          return true;
        }
      }
    }
    return false;
  }

  /** Faulty members, counted with multiplicity as the quorum lists them. */
  function FaultyCount(quorum: seq<string>, honest: set<string>): nat {
    if quorum == [] then 0
    else (if quorum[0] in honest then 0 else 1) + FaultyCount(quorum[1..], honest)
  }

  predicate FaultyBound(quorum: seq<string>, honest: set<string>) {
    quorum != [] && FaultyCount(quorum, honest) <= (|quorum| - 1) / 3
  }

  lemma {:induction false} DistinctAtMost(quorum: seq<string>, honest: set<string>)
    ensures |Members(quorum)| <= |quorum|
    ensures |Members(quorum) - honest| <= FaultyCount(quorum, honest)
  {
    if quorum != [] {
      DistinctAtMost(quorum[1..], honest);
      assert quorum == [quorum[0]] + quorum[1..];
      assert Members(quorum) == {quorum[0]} + Members(quorum[1..]);
      if quorum[0] in honest {
        assert Members(quorum) - honest == Members(quorum[1..]) - honest;
      } else {
        assert Members(quorum) - honest == {quorum[0]} + (Members(quorum[1..]) - honest);
      }
    }
  }

  lemma SubsetSize<T>(a: set<T>, b: set<T>)
    requires a <= b
    ensures |a| <= |b|
  {
    assert b == a + (b - a);
  }

  /** Two majorities of distinct members share more than a third of the quorum, hence a node
      that runs this code, even when the quorum lists some key several times. */
  lemma MajoritiesIntersect(quorum: seq<string>, honest: set<string>, a: set<string>, b: set<string>)
    requires a <= Members(quorum) && b <= Members(quorum)
    requires |a| >= Majority(|quorum|) && |b| >= Majority(|quorum|)
    requires FaultyBound(quorum, honest)
    ensures 3 * |a * b| > |quorum|
    ensures exists k :: k in a && k in b && k in honest
  {
    DistinctAtMost(quorum, honest);
    SubsetSize(a + b, Members(quorum));
    assert |a + b| + |a * b| == |a| + |b|;
    if (a * b) * honest == {} {
      forall k | k in a * b
        ensures k in Members(quorum) - honest
      {
        assert k !in (a * b) * honest;
      }
      SubsetSize(a * b, Members(quorum) - honest);
      assert false;
    }
    var k :| k in (a * b) * honest;
  }

  /** The majority is the least size at which any two sets of members share more than a third. */
  lemma MajorityIsLeast(n: nat, m: int)
    requires m <= n
    ensures m >= Majority(n) <==> n == m == 0 || 3 * (2 * m - n) > n
  {
    assert 3 * ((2 * n) / 3) <= 2 * n < 3 * ((2 * n) / 3) + 3;
  }

  /** Nor is it too large: in a quorum without repeated keys the honest members reach it alone. */
  lemma HonestReachMajority(quorum: seq<string>, honest: set<string>)
    requires FaultyBound(quorum, honest) && |Members(quorum)| == |quorum|
    ensures |Members(quorum) * honest| >= Majority(|quorum|)
  {
    DistinctAtMost(quorum, honest);
    assert Members(quorum) == Members(quorum) * honest + (Members(quorum) - honest);
    assert |Members(quorum)| == |Members(quorum) * honest| + |Members(quorum) - honest|;
  }

  lemma MajorityHasHonest(quorum: seq<string>, honest: set<string>, a: set<string>)
    requires a <= Members(quorum) && |a| >= Majority(|quorum|) && FaultyBound(quorum, honest)
    ensures exists k :: k in a && k in honest
  {
    MajoritiesIntersect(quorum, honest, a, a);
  }

  /** Proofs that were each checked on arrival add up to a certificate exactly when there are
      enough distinct voters among them. */
  lemma CheckedProofsCertify(w: World, afp: Afp, ep: Epoch)
    requires forall v :: v in afp.proofs ==> v in ep.quorum && w.verify(AfpPayload(afp, ep.id), v, afp.proofs[v])
    ensures AfpOk(w, afp, ep) <==> |afp.proofs| >= Majority(|ep.quorum|)
  {
    assert ValidSigners(w, AfpPayload(afp, ep.id), afp.proofs, ep.quorum) == afp.proofs.Keys;
  }
}
