/** One node's presence records under all their writers: the voter's and the creator's bookkeeping,
    the stored certificates, and the sender, whose check and write lie an HTTP round trip apart. */
module Records {
  import opened Text
  import opened Structures
  import opened Payloads
  import opened Certificates
  import opened Voter
  import opened AarpStore
  import opened Receipts
  import opened Walk

  /** `asked` is the record the delivery thread found missing before the request now under way; the
      thread handles one receiver at a time. Finalization certificates play no part in the walk. */
  datatype Book = Book(db: RotationDb, asked: Option<Mark>)

  /** NoteVoted: one certificate in a block a vote was given on (processAnchorRotationProofsAsync).
      NoteOwn: one in the own approved block i (markAarpPresenceFromApprovedBlock). AcceptProof
      and CollectProof: a certificate stored by the accepting handler and by the collector. Ask,
      TakeReceipt and NoReceipt: the delivery thread. */
  datatype BookEvent =
    | NoteVoted(ep: Epoch, block: Block, p: Aarp)
    | NoteOwn(ep: Epoch, i: int, block: Block, p: Aarp)
    | AcceptProof(ep: Epoch, p: Aarp)
    | CollectProof(ep: Epoch, p: Aarp)
    | Ask(ep: Epoch, receiver: string, rotated: string)
    | TakeReceipt(ep: Epoch, r: Receipt)
    | NoReceipt

  predicate Int64(n: int) { MIN_INT64 <= n <= MAX_INT64 }

  /** Epochs under their ids, keys without ':'. */
  predicate EpochsFit(epochs: map<int, Epoch>, me: string) {
    && ColonFree(me)
    && forall e :: e in epochs ==> epochs[e].id == e && forall c :: c in epochs[e].registry ==> ColonFree(c)
  }

  predicate Tracked(epochs: map<int, Epoch>, ep: Epoch) { ep.id in epochs && epochs[ep.id] == ep }

  predicate Carries(w: World, ep: Epoch, block: Block, p: Aarp) {
    p in block.extra.Aarps() && AarpOk(w, p, ep) && BlockSigned(w, block) && Int64(block.index)
  }

  predicate BookCan(w: World, epochs: map<int, Epoch>, me: string, b: Book, ev: BookEvent) {
    match ev
    case NoteVoted(ep, block, p) =>
      Tracked(epochs, ep) && block.creator in ep.registry && block.epoch == FullId(ep) && Carries(w, ep, block, p)
    case NoteOwn(ep, i, block, p) => Tracked(epochs, ep) && block.creator == me && Int64(i) && Carries(w, ep, block, p)
    case AcceptProof(ep, p) =>
      && Tracked(epochs, ep) && p.epochIndex == ep.id && |p.signatures| >= Majority(|ep.quorum|)
      && AarpOk(w, p, ep) && Replaces(b.db.aarps, p)
    case CollectProof(ep, p) =>
      && Tracked(epochs, ep) && p.epochIndex == ep.id && |p.signatures| >= Majority(|ep.quorum|)
      && p.anchor in ep.registry && Lane(p.epochIndex, p.anchor) !in b.db.aarps && Int64(p.votingStat.index)
    case Ask(ep, receiver, rotated) =>
      && Tracked(epochs, ep) && b.asked.None? && receiver in ep.quorum && receiver != "" && receiver != me
      && LoadMark(b.db, Mark(ep.id, receiver, rotated)) == ""
    case TakeReceipt(ep, r) =>
      && Tracked(epochs, ep) && b.asked == Some(Mark(ep.id, r.receiver, r.rotated))
      && Accepts(w, ep, r.receiver, r.rotated, r)
    case NoReceipt => b.asked.Some?
  }

  /** The record an event writes. */
  function Noting(me: string, ev: BookEvent): Option<(Mark, string)> {
    match ev
    case NoteVoted(ep, block, p) => Some((Mark(p.epochIndex, block.creator, p.anchor),
                                          BlockId(ep.id, block.creator, block.index)))
    case NoteOwn(ep, i, block, p) => Some((Mark(ep.id, me, p.anchor), BlockId(ep.id, me, i)))
    case TakeReceipt(ep, r) => Some((Mark(ep.id, r.receiver, r.rotated), r.blockId))
    case _ => None
  }

  function BookAfter(me: string, b: Book, ev: BookEvent): Book {
    var db := if Noting(me, ev).Some? then AfterWrite(b.db, PutMark(Noting(me, ev).value.0, Noting(me, ev).value.1))
              else if ev.AcceptProof? || ev.CollectProof? then AfterWrite(b.db, PutAarp(ev.p))
              else b.db;
    match ev
    case Ask(ep, receiver, rotated) => Book(db, Some(Mark(ep.id, receiver, rotated)))
    case TakeReceipt(_, _) => Book(db, None)
    case NoReceipt => Book(db, None)
    case _ => Book(db, b.asked)
  }

  /** The sender's late write: a text that names no block, over a record that reads well and has its
      certificate stored. */
  predicate Spoils(b: Book, ev: BookEvent) {
    && ev.TakeReceipt? && ParseBlockIndex(ev.r.blockId).None?
    && Included(b.db, ev.ep.id, ev.r.receiver, ev.r.rotated)
  }

  /** A step loses an inclusion exactly when it is such a write. */
  lemma StepLosesIff(w: World, epochs: map<int, Epoch>, me: string, b: Book, ev: BookEvent)
    requires EpochsFit(epochs, me) && OwnKeys(b.db) && BookCan(w, epochs, me, b, ev)
    ensures OwnKeys(BookAfter(me, b, ev).db)
    ensures KeepsIncluded(b.db, BookAfter(me, b, ev).db) <==> !Spoils(b, ev)
  {
    hide ParseBlockIndex, BlockId, Included, OwnKeys, AarpOk, Accepts, BlockSigned, FullId, Replaces, KeepsIncluded;
    match ev
    case NoteVoted(ep, block, p) =>
      NoteIsReadable(ep.id, block.creator, block.index);
      KeepsIncludedIff(b.db, PutMark(Noting(me, ev).value.0, Noting(me, ev).value.1));
    case NoteOwn(ep, i, block, p) =>
      NoteIsReadable(ep.id, me, i);
      KeepsIncludedIff(b.db, PutMark(Noting(me, ev).value.0, Noting(me, ev).value.1));
    case TakeReceipt(ep, r) => KeepsIncludedIff(b.db, PutMark(Mark(ep.id, r.receiver, r.rotated), r.blockId));
    case AcceptProof(ep, p) => KeepsIncludedIff(b.db, PutAarp(p));
    case CollectProof(ep, p) => KeepsIncludedIff(b.db, PutAarp(p));
    case _ => Unchanged(b.db);
  }

  lemma NoteIsReadable(e: int, creator: string, index: int)
    requires ColonFree(creator) && Int64(index)
    ensures ParseBlockIndex(BlockId(e, creator, index)) == Some(index)
  {
    BlockIdParts(e, creator, index);
    AtoiOfItoa(index);
  }

  lemma Unchanged(db: RotationDb)
    ensures KeepsIncluded(db, db)
  {
  }

  // ---- Over a run of one node ----

  /** events[t] leads from run[t] to run[t + 1], starting with no request under way. */
  ghost predicate IsBookRun(w: World, epochs: map<int, Epoch>, me: string, run: seq<Book>, events: seq<BookEvent>) {
    && |run| == |events| + 1 && OwnKeys(run[0].db) && run[0].asked.None?
    && forall t {:trigger events[t]} :: 0 <= t < |events| ==>
         BookCan(w, epochs, me, run[t], events[t]) && run[t + 1] == BookAfter(me, run[t], events[t])
  }

  lemma {:induction false} RunKeepsKeys(w: World, epochs: map<int, Epoch>, me: string, run: seq<Book>,
                                        events: seq<BookEvent>, t: nat)
    requires EpochsFit(epochs, me) && IsBookRun(w, epochs, me, run, events) && t < |run|
    ensures OwnKeys(run[t].db)
  {
    hide BookCan, BookAfter, OwnKeys, EpochsFit, Spoils, KeepsIncluded;
    if t > 0 {
      RunKeepsKeys(w, epochs, me, run, events, t - 1);
      var ev := events[t - 1];
      StepLosesIff(w, epochs, me, run[t - 1], ev);
    }
  }

  ghost predicate LosesAt(run: seq<Book>, t: int)
    requires 0 <= t < |run| - 1
  {
    !KeepsIncluded(run[t].db, run[t + 1].db)
  }

  /** Throughout a run an inclusion is lost exactly where a late write of the sender spoils one. */
  lemma RunLosesIff(w: World, epochs: map<int, Epoch>, me: string, run: seq<Book>, events: seq<BookEvent>)
    requires EpochsFit(epochs, me) && IsBookRun(w, epochs, me, run, events)
    ensures forall t :: 0 <= t < |events| ==> (LosesAt(run, t) <==> Spoils(run[t], events[t]))
  {
    hide BookCan, BookAfter, OwnKeys, EpochsFit, Spoils, KeepsIncluded;
    forall t | 0 <= t < |events|
      ensures LosesAt(run, t) <==> Spoils(run[t], events[t])
    {
      RunKeepsKeys(w, epochs, me, run, events, t);
      var ev := events[t];
      StepLosesIff(w, epochs, me, run[t], ev);
    }
  }

  ghost predicate NeverSpoils(run: seq<Book>, events: seq<BookEvent>, from: nat, to: nat)
    requires |run| == |events| + 1 && to <= |events|
  {
    forall t {:trigger events[t]} :: from <= t < to ==> !Spoils(run[t], events[t])
  }

  lemma {:induction false} InclusionsStay(w: World, epochs: map<int, Epoch>, me: string, run: seq<Book>,
                                          events: seq<BookEvent>, i: nat, j: nat)
    requires EpochsFit(epochs, me) && IsBookRun(w, epochs, me, run, events) && i <= j < |run|
    requires NeverSpoils(run, events, i, j)
    ensures KeepsIncluded(run[i].db, run[j].db)
    decreases j
  {
    hide BookCan, BookAfter, OwnKeys, EpochsFit, Spoils, Included;
    if i < j {
      InclusionsStay(w, epochs, me, run, events, i, j - 1);
      RunKeepsKeys(w, epochs, me, run, events, j - 1);
      var ev := events[j - 1];
      StepLosesIff(w, epochs, me, run[j - 1], ev);
    }
  }

  /** Without such a write the current anchor of an epoch never moves back. */
  lemma CurrentAnchorNeverMovesBack(w: World, epochs: map<int, Epoch>, me: string, run: seq<Book>,
                                    events: seq<BookEvent>,
                                    i: nat, j: nat, e: int, anchors: seq<string>, q: int, q': int)
    requires EpochsFit(epochs, me) && IsBookRun(w, epochs, me, run, events) && i <= j < |run|
    requires NeverSpoils(run, events, i, j)
    requires Farthest(run[i].db, e, anchors, q) && Farthest(run[j].db, e, anchors, q')
    ensures q <= q'
  {
    hide IsBookRun, NeverSpoils, EpochsFit, Reaches, KeepsIncluded;
    InclusionsStay(w, epochs, me, run, events, i, j);
    ReachesMore(run[i].db, run[j].db, e, anchors, q);
  }

  // ---- Such a write comes late ----

  /** The request under way at t was sent at s, when the record was missing. */
  ghost predicate AskedAt(me: string, run: seq<Book>, events: seq<BookEvent>, mark: Mark, s: int, t: int)
    requires |run| == |events| + 1 && 0 <= t < |run|
  {
    && 0 <= s < t && events[s].Ask? && mark == Mark(events[s].ep.id, events[s].receiver, events[s].rotated)
    && mark.creator != me && LoadMark(run[s].db, mark) == ""
  }

  /** At u, between s and t, a vote on a block of the receiver filled the record. */
  ghost predicate FilledAt(me: string, events: seq<BookEvent>, mark: Mark, s: int, u: int, t: int) {
    s < u < t && 0 <= u < |events| && events[u].NoteVoted? && Noting(me, events[u]).value.0 == mark
  }

  ghost predicate Filled(me: string, events: seq<BookEvent>, mark: Mark, s: int, t: int) {
    exists u :: FilledAt(me, events, mark, s, u, t)
  }

  /** While a request is under way, the record it asked about is missing unless a vote has filled it. */
  ghost predicate Watched(me: string, run: seq<Book>, events: seq<BookEvent>, mark: Mark, s: int, t: int)
    requires |run| == |events| + 1 && 0 <= t < |run|
  {
    AskedAt(me, run, events, mark, s, t) && (LoadMark(run[t].db, mark) == "" || Filled(me, events, mark, s, t))
  }

  lemma {:induction false} RequestIsWatched(w: World, epochs: map<int, Epoch>, me: string, run: seq<Book>,
                                            events: seq<BookEvent>, t: nat)
    returns (s: int)
    requires IsBookRun(w, epochs, me, run, events) && t < |run| && run[t].asked.Some?
    ensures Watched(me, run, events, run[t].asked.value, s, t)
    decreases t
  {
    hide AarpOk, Accepts, BlockSigned, FullId, Replaces, BlockId, OwnKeys;
    var ev, mark := events[t - 1], run[t].asked.value;
    assert BookCan(w, epochs, me, run[t - 1], ev) && run[t] == BookAfter(me, run[t - 1], ev);
    if ev.Ask? {
      s := t - 1;
    } else {
      s := RequestIsWatched(w, epochs, me, run, events, t - 1);
      if ev.NoteVoted? && Noting(me, ev).value.0 == mark {
        assert FilledAt(me, events, mark, s, t - 1, t);
      } else if Filled(me, events, mark, s, t - 1) {
        var u :| FilledAt(me, events, mark, s, u, t - 1);
        assert FilledAt(me, events, mark, s, u, t);
      }
    }
  }

  /** A spoiling write is always a delayed one: its request found the record missing, and a vote on a
      block of the receiver filled the record while the request was under way. */
  lemma SpoilingWriteIsLate(w: World, epochs: map<int, Epoch>, me: string, run: seq<Book>, events: seq<BookEvent>,
                            t: nat)
    returns (s: int)
    requires IsBookRun(w, epochs, me, run, events) && t < |events| && Spoils(run[t], events[t])
    ensures var mark := Mark(events[t].ep.id, events[t].r.receiver, events[t].r.rotated);
            AskedAt(me, run, events, mark, s, t) && Filled(me, events, mark, s, t)
  {
    hide AarpOk, Accepts, BlockSigned, FullId, Replaces, BlockId, OwnKeys, Filled, AskedAt;
    var ev := events[t];
    assert BookCan(w, epochs, me, run[t], ev);
    s := RequestIsWatched(w, epochs, me, run, events, t);
    assert Split("") == [""];
  }
}
