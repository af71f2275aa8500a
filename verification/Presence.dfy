/** The writers of presence records: a voter that sees rotation certificates in somebody's block, a
    creator whose own block got approved, and a sender that accepted a receipt. */
module Presence {
  import opened Text
  import opened Structures
  import opened Payloads
  import opened Certificates
  import opened Voter
  import opened Walk

  /** The records for every valid rotation certificate among `proofs`; with `under` the records go
      under one epoch, otherwise under the epoch each certificate names. */
  function MarksOf(w: World, ep: Epoch, proofs: seq<Aarp>, creator: string, under: Option<int>): set<Mark> {
    set p | p in proofs && AarpOk(w, p, ep) ::
        Mark(if under.Some? then under.value else p.epochIndex, creator, p.anchor)
  }

  function LanesOf(w: World, ep: Epoch, proofs: seq<Aarp>): set<Lane> {
    set p | p in proofs && AarpOk(w, p, ep) :: Lane(p.epochIndex, p.anchor)
  }

  function Noted(marks: map<Mark, string>, new_: set<Mark>, blockId: string): map<Mark, string> {
    marks + map m | m in new_ :: blockId
  }

  class PresenceBook {
    const w: World
    var marks: map<Mark, string>
    var underRotation: set<Lane>

    constructor (w: World)
      ensures this.w == w && marks == map[] && underRotation == {}
    {
      this.w := w;
      marks := map[];
      underRotation := {};
    }

    /** processAnchorRotationProofsAsync, run for a block a vote was given on. */
    method ProcessAnchorRotationProofs(ep: Epoch, block: Block, blockId: string)
      modifies this
      ensures marks == Noted(old(marks), MarksOf(w, ep, block.extra.Aarps(), block.creator, None), blockId)
      ensures underRotation == old(underRotation) + LanesOf(w, ep, block.extra.Aarps())
    {
      hide AarpOk, Noted, MarksOf, LanesOf;
      var proofs := block.extra.Aarps();
      NothingNoted(w, ep, marks, block.creator, None, blockId);
      for i := 0 to |proofs|
        invariant marks == Noted(old(marks), MarksOf(w, ep, proofs[..i], block.creator, None), blockId)
        invariant underRotation == old(underRotation) + LanesOf(w, ep, proofs[..i])
      {
        assert proofs[..i + 1] == proofs[..i] + [proofs[i]];
        NotesGrow(w, ep, old(marks), proofs[..i], proofs[i], block.creator, None, blockId);
        var verdict := VerifyAggregatedAnchorRotationProof(w, proofs[i], ep);
        if verdict.Valid? {
          underRotation := underRotation + {Lane(proofs[i].epochIndex, proofs[i].anchor)};
          marks := marks[Mark(proofs[i].epochIndex, block.creator, proofs[i].anchor) := blockId];
        }
      }
      assert proofs[..|proofs|] == proofs;
    }

    /** markAarpPresenceFromApprovedBlock, run by a creator for its own approved block. */
    method MarkAarpPresenceFromApprovedBlock(window: seq<Epoch>, blocks: map<string, Block>, e: int, creator: string,
                                             blockId: string)
      modifies this`marks
      ensures var ep := FindEpochById(window, e);
              if e < 0 || creator == "" || blockId == "" || ep.None? || blockId !in blocks
                 || blocks[blockId].creator != creator || !BlockSigned(w, blocks[blockId])
              then marks == old(marks)
              else marks == Noted(old(marks), MarksOf(w, ep.value, blocks[blockId].extra.Aarps(), creator, Some(e)),
                                  blockId)
    {
      hide BlockSigned, Noted, MarksOf;
      if e < 0 || creator == "" || blockId == "" {
        return;
      }
      var found := FindEpochById(window, e);
      if found.None? || blockId !in blocks {
        return;
      }
      var block := blocks[blockId];
      if block.creator != creator || !BlockSigned(w, block) {
        return;
      }
      MarkAll(found.value, block.extra.Aarps(), e, creator, blockId);
    }

    method MarkAll(ep: Epoch, proofs: seq<Aarp>, e: int, creator: string, blockId: string)
      modifies this`marks
      ensures marks == Noted(old(marks), MarksOf(w, ep, proofs, creator, Some(e)), blockId)
    {
      hide AarpOk, Noted, MarksOf, LanesOf;
      NothingNoted(w, ep, marks, creator, Some(e), blockId);
      for i := 0 to |proofs|
        invariant marks == Noted(old(marks), MarksOf(w, ep, proofs[..i], creator, Some(e)), blockId)
      {
        assert proofs[..i + 1] == proofs[..i] + [proofs[i]];
        NotesGrow(w, ep, old(marks), proofs[..i], proofs[i], creator, Some(e), blockId);
        var verdict := VerifyAggregatedAnchorRotationProof(w, proofs[i], ep);
        if verdict.Valid? {
          marks := marks[Mark(e, creator, proofs[i].anchor) := blockId];
        }
      }
      assert proofs[..|proofs|] == proofs;
    }
  }

  lemma NothingNoted(w: World, ep: Epoch, marks: map<Mark, string>, creator: string, under: Option<int>,
                     blockId: string)
    ensures Noted(marks, MarksOf(w, ep, [], creator, under), blockId) == marks && LanesOf(w, ep, []) == {}
  {
    assert MarksOf(w, ep, [], creator, under) == {};
  }

  /** One more certificate adds its record exactly when it verifies. */
  lemma NotesGrow(w: World, ep: Epoch, marks: map<Mark, string>, proofs: seq<Aarp>, p: Aarp, creator: string,
                  under: Option<int>, blockId: string)
    ensures var before, after := Noted(marks, MarksOf(w, ep, proofs, creator, under), blockId),
        Noted(marks, MarksOf(w, ep, proofs + [p], creator, under), blockId);
            var e := if under.Some? then under.value else p.epochIndex;
            after == if AarpOk(w, p, ep) then before[Mark(e, creator, p.anchor) := blockId] else before
    ensures LanesOf(w, ep, proofs + [p]) == LanesOf(w, ep, proofs) +
        (if AarpOk(w, p, ep) then {Lane(p.epochIndex, p.anchor)} else {})
  {
    hide AarpOk, MarksOf, LanesOf;
    MarksGrow(w, ep, proofs, p, creator, under);
  }

  lemma MarksGrow(w: World, ep: Epoch, proofs: seq<Aarp>, p: Aarp, creator: string, under: Option<int>)
    ensures MarksOf(w, ep, proofs + [p], creator, under) ==
              MarksOf(w, ep, proofs, creator, under) +
              (if AarpOk(w, p, ep) then {Mark(if under.Some? then under.value else p.epochIndex, creator, p.anchor)}
               else {})
    ensures LanesOf(w, ep, proofs + [p]) == LanesOf(w, ep, proofs) +
        (if AarpOk(w, p, ep) then {Lane(p.epochIndex, p.anchor)} else {})
  {
    hide AarpOk;
    var all := proofs + [p];
    forall q
      ensures q in all <==> q in proofs || q == p
    {
      if q == p { assert all[|proofs|] == p; }
      if q in proofs {
        var i :| 0 <= i < |proofs| && proofs[i] == q;
        assert all[i] == q;
      }
    }
  }

  /** Both writers record real block ids, so no inclusion ever gets lost through them. */
  lemma NotingKeepsIncluded(db: RotationDb, new_: set<Mark>, e: int, creator: string, index: int)
    requires ColonFree(creator) && MIN_INT64 <= e <= MAX_INT64 && MIN_INT64 <= index <= MAX_INT64
    ensures KeepsIncluded(db, db.(marks := Noted(db.marks, new_, BlockId(e, creator, index))))
    ensures forall m :: m in new_ && LoadAarp(db.aarps, Lane(m.epoch, m.rotated)).anchor != "" ==>
              Included(db.(marks := Noted(db.marks, new_, BlockId(e, creator, index))), m.epoch, m.creator, m.rotated)
  {
    hide BlockId, LoadAarp;
    BlockIdRoundTrip(e, creator, index);
  }

  /** The rotation verifier never looks at the epoch handler's own id or hash: under the unchanged
      registry and quorum a certificate of one epoch verifies in every other one as well. */
  lemma RotationProofIgnoresHandlerEpoch(w: World, p: Aarp, ep: Epoch, ep': Epoch)
    requires ep.registry == ep'.registry && ep.quorum == ep'.quorum
    ensures AarpOk(w, p, ep) <==> AarpOk(w, p, ep')
  {
  }
}
