/** Rotation certificates on disk and in the lazily loaded cache: what the accepting handler
    stores, and what the cache returns while scans, stores, drops and restarts interleave. */
module AarpStore {
  import opened Text
  import opened Structures
  import opened Payloads
  import opened Certificates
  import opened Voter
  import opened Walk

  // ---- Accepting certificates ----

  datatype AcceptError = EpochNotTracked | UnknownCreator | InsufficientSignatures | Rejected(verdict: AarpVerdict)

  /** When storeAggregatedRotationProofFromRequest reports no error. */
  predicate Acceptable(w: World, window: seq<Epoch>, p: Aarp) {
    var ep := FindEpochById(window, p.epochIndex);
    && ep.Some? && p.anchor in ep.value.registry
    && |p.signatures| >= Majority(|ep.value.quorum|)
    && AarpOk(w, p, ep.value)
  }

  /** The checks made before the verifier cost nothing: accepted are exactly the certificates that verify in
      the epoch they name, if it is tracked. */
  lemma AcceptableIff(w: World, window: seq<Epoch>, p: Aarp)
    ensures Acceptable(w, window, p) <==>
        var ep := FindEpochById(window, p.epochIndex); ep.Some? && AarpOk(w, p, ep.value)
  {
    var ep := FindEpochById(window, p.epochIndex);
    if ep.Some? {
      hide ArpPayload;
      SubsetSize(AarpSigners(w, p, ep.value), p.signatures.Keys);
    }
  }

  /** Whether an acceptable certificate replaces what is stored; an absent one counts as index 0. */
  predicate Replaces(aarps: map<Lane, Aarp>, p: Aarp) {
    LoadAarp(aarps, Lane(p.epochIndex, p.anchor)).votingStat.index < p.votingStat.index
  }

  function AcceptStep(w: World, aarps: map<Lane, Aarp>, window: seq<Epoch>, p: Aarp): map<Lane, Aarp> {
    if Acceptable(w, window, p) && Replaces(aarps, p) then aarps[Lane(p.epochIndex, p.anchor) := p] else aarps
  }

  /** The store after a sequence of requests, each judged in the epochs tracked at that time. */
  function AcceptAll(w: World, aarps: map<Lane, Aarp>, requests: seq<(seq<Epoch>, Aarp)>): map<Lane, Aarp> {
    if requests == [] then aarps
    else
      var n := |requests| - 1;
      AcceptStep(w, AcceptAll(w, aarps, requests[..n]), requests[n].0, requests[n].1)
  }

  /** Request t was accepted and is about this lane. */
  predicate AcceptedAt(w: World, requests: seq<(seq<Epoch>, Aarp)>, lane: Lane, t: int)
    requires 0 <= t < |requests|
  {
    Acceptable(w, requests[t].0, requests[t].1) && Lane(requests[t].1.epochIndex, requests[t].1.anchor) == lane
  }

  /** Request t carries the highest index accepted for the lane, and is the first to do so. */
  ghost predicate FirstMaximum(w: World, requests: seq<(seq<Epoch>, Aarp)>, lane: Lane, t: int) {
    && 0 <= t < |requests| && AcceptedAt(w, requests, lane, t)
    && forall u {:trigger AcceptedAt(w, requests, lane, u)} ::
        0 <= u < |requests| && AcceptedAt(w, requests, lane, u) ==>
         if u < t then requests[u].1.votingStat.index < requests[t].1.votingStat.index
         else requests[u].1.votingStat.index <= requests[t].1.votingStat.index
  }

  ghost predicate SomeAccepted(w: World, requests: seq<(seq<Epoch>, Aarp)>, lane: Lane) {
    exists t :: 0 <= t < |requests| && AcceptedAt(w, requests, lane, t) && requests[t].1.votingStat.index >= 1
  }

  /** The store holds for the lane the first certificate of the highest index accepted, provided
      that index is at least 1; otherwise it holds none. */
  ghost predicate HoldsMaximum(w: World, requests: seq<(seq<Epoch>, Aarp)>, lane: Lane, aarps: map<Lane, Aarp>) {
    && (lane in aarps <==> SomeAccepted(w, requests, lane))
    && (lane in aarps ==> exists t :: FirstMaximum(w, requests, lane, t) && aarps[lane] == requests[t].1)
  }

  lemma SamePrefix(w: World, requests: seq<(seq<Epoch>, Aarp)>, lane: Lane)
    requires requests != []
    ensures var n := |requests| - 1;
            && (forall t {:trigger AcceptedAt(w, requests, lane, t)} :: 0 <= t < n ==>
                  AcceptedAt(w, requests[..n], lane, t) == AcceptedAt(w, requests, lane, t))
            && (SomeAccepted(w, requests, lane) <==>
                  SomeAccepted(w, requests[..n], lane) || (AcceptedAt(w, requests, lane, n) &&
                                                           requests[n].1.votingStat.index >= 1))
  {
    hide Acceptable;
    var n := |requests| - 1;
    var before := requests[..n];
    if SomeAccepted(w, before, lane) {
      var t :| 0 <= t < n && AcceptedAt(w, before, lane, t) && before[t].1.votingStat.index >= 1;
      assert AcceptedAt(w, requests, lane, t);
    }
    if SomeAccepted(w, requests, lane) {
      var t :| 0 <= t <= n && AcceptedAt(w, requests, lane, t) && requests[t].1.votingStat.index >= 1;
      if t < n { assert AcceptedAt(w, before, lane, t); }
    }
  }

  lemma NewMaximum(w: World, requests: seq<(seq<Epoch>, Aarp)>, lane: Lane, aarps: map<Lane, Aarp>)
    requires requests != [] && HoldsMaximum(w, requests[..|requests| - 1], lane, aarps)
    requires AcceptedAt(w, requests, lane, |requests| - 1) && Replaces(aarps, requests[|requests| - 1].1)
    ensures requests[|requests| - 1].1.votingStat.index >= 1 && FirstMaximum(w, requests, lane, |requests| - 1)
  {
    hide Acceptable, HoldsMaximum, AcceptedAt;
    LaneOf(w, requests, lane, |requests| - 1);
    SamePrefix(w, requests, lane);
    HigherThanAll(w, requests[..|requests| - 1], lane, aarps, requests[|requests| - 1].1.votingStat.index);
  }

  lemma LaneOf(w: World, requests: seq<(seq<Epoch>, Aarp)>, lane: Lane, t: int)
    requires 0 <= t < |requests| && AcceptedAt(w, requests, lane, t)
    ensures Lane(requests[t].1.epochIndex, requests[t].1.anchor) == lane && Acceptable(w, requests[t].0, requests[t].1)
  {
    hide Acceptable;
  }

  /** Through the accepting path alone, from an empty store, this is what each anchor gets. */
  lemma {:induction false} AcceptKeepsMaximum(w: World, requests: seq<(seq<Epoch>, Aarp)>, lane: Lane)
    ensures HoldsMaximum(w, requests, lane, AcceptAll(w, map[], requests))
  {
    hide Acceptable, FirstMaximum, SomeAccepted;
    if requests == [] {
      NothingAccepted(w, lane);
    } else {
      var n := |requests| - 1;
      var before := AcceptAll(w, map[], requests[..n]);
      AcceptKeepsMaximum(w, requests[..n], lane);
      SamePrefix(w, requests, lane);
      if AcceptedAt(w, requests, lane, n) && Replaces(before, requests[n].1) {
        NewMaximum(w, requests, lane, before);
      } else if lane in before {
        OldMaximum(w, requests, lane, before);
      }
    }
  }

  lemma OldMaximum(w: World, requests: seq<(seq<Epoch>, Aarp)>, lane: Lane, aarps: map<Lane, Aarp>)
    requires requests != [] && HoldsMaximum(w, requests[..|requests| - 1], lane, aarps) && lane in aarps
    requires !(AcceptedAt(w, requests, lane, |requests| - 1) && Replaces(aarps, requests[|requests| - 1].1))
    ensures exists t :: FirstMaximum(w, requests, lane, t) && aarps[lane] == requests[t].1
  {
    hide Acceptable;
    var before := requests[..|requests| - 1];
    var t :| FirstMaximum(w, before, lane, t) && aarps[lane] == before[t].1;
    MaximumStays(w, requests, lane, t);
  }

  lemma NothingAccepted(w: World, lane: Lane)
    ensures !SomeAccepted(w, [], lane)
  {
  }

  lemma MaximumStays(w: World, requests: seq<(seq<Epoch>, Aarp)>, lane: Lane, t: int)
    requires requests != [] && FirstMaximum(w, requests[..|requests| - 1], lane, t)
    requires var n := |requests| - 1;
             AcceptedAt(w, requests, lane, n) ==> requests[n].1.votingStat.index <= requests[t].1.votingStat.index
    ensures FirstMaximum(w, requests, lane, t)
  {
    hide Acceptable;
    var before := requests[..|requests| - 1];
    forall u | 0 <= u < |before|
      ensures AcceptedAt(w, before, lane, u) == AcceptedAt(w, requests, lane, u)
    {
    }
    assert AcceptedAt(w, before, lane, t);
  }

  /** An index that replaces the stored one is above every index accepted so far. */
  lemma HigherThanAll(w: World, requests: seq<(seq<Epoch>, Aarp)>, lane: Lane, aarps: map<Lane, Aarp>, index: int)
    requires HoldsMaximum(w, requests, lane, aarps) && LoadAarp(aarps, lane).votingStat.index < index
    ensures index >= 1
    ensures forall u {:trigger AcceptedAt(w, requests, lane, u)} ::
        0 <= u < |requests| && AcceptedAt(w, requests, lane, u) ==>
              requests[u].1.votingStat.index < index
  {
    hide Acceptable;
    if lane in aarps {
      var t :| FirstMaximum(w, requests, lane, t) && aarps[lane] == requests[t].1;
      assert AcceptedAt(w, requests, lane, t);
    }
  }

  // ---- The cache ----

  /** aarpCacheKey: epoch:anchor:index. */
  function CacheKey(p: Aarp): string { BlockId(p.epochIndex, p.anchor, p.votingStat.index) }

  /** `pending` are certificates written to disk and not yet cached; `scans` are loads in progress
      with the disk snapshot they read; `torn` is history, the epochs dropped since the last restart
      while a scan of theirs was open. */
  datatype Cache = Cache(aarps: map<Lane, Aarp>, loaded: set<int>, proofs: map<int, map<string, Aarp>>,
                         pending: set<Aarp>, scans: set<(int, map<Lane, Aarp>)>, torn: set<int>)

  /** Put is the disk write of StoreAggregatedAnchorRotationProof and CachePut its second half; a
      scan opens its iterator, later merges what it found and marks the epoch loaded; Clear drops
      an epoch that left the window. */
  datatype CacheEvent =
    | Put(p: Aarp) | CachePut(p: Aarp)
    | ScanStart(e: int) | ScanEnd(e: int, snapshot: map<Lane, Aarp>, found: map<string, Aarp>)
    | Clear(e: int) | Restart

  function CachedOf(proofs: map<int, map<string, Aarp>>, e: int): map<string, Aarp> {
    if e in proofs then proofs[e] else map[]
  }

  predicate StoredAndValid(w: World, ep: Epoch, aarps: map<Lane, Aarp>, lane: Lane) {
    lane in aarps && lane.epoch == ep.id && AarpOk(w, aarps[lane], ep)
  }

  /** found is what a scan of this snapshot collects: the certificates of the epoch that verify,
      under their cache keys. */
  ghost predicate ScanFinds(w: World, ep: Epoch, snapshot: map<Lane, Aarp>, found: map<string, Aarp>) {
    && (forall lane :: StoredAndValid(w, ep, snapshot, lane) ==> CacheKey(snapshot[lane]) in found)
    && (forall key :: key in found ==>
          CacheKey(found[key]) == key && exists lane ::
              StoredAndValid(w, ep, snapshot, lane) && snapshot[lane] == found[key])
  }

  function AddToCache(proofs: map<int, map<string, Aarp>>, p: Aarp): map<int, map<string, Aarp>> {
    proofs[p.epochIndex := CachedOf(proofs, p.epochIndex)[CacheKey(p) := p]]
  }

  ghost predicate CanCache(w: World, epochs: map<int, Epoch>, c: Cache, ev: CacheEvent) {
    match ev
    case CachePut(p) => p in c.pending
    case ScanStart(e) => e in epochs && epochs[e].id == e && e !in c.loaded
    case ScanEnd(e, snapshot, found) => e in epochs && (e, snapshot) in c.scans &&
        ScanFinds(w, epochs[e], snapshot, found)
    case _ => true
  }

  predicate ScanOpen(c: Cache, e: int) { exists scan :: scan in c.scans && scan.0 == e }

  function AfterCache(c: Cache, ev: CacheEvent): Cache {
    match ev
    case Put(p) => c.(aarps := c.aarps[Lane(p.epochIndex, p.anchor) := p], pending := c.pending + {p})
    case CachePut(p) => c.(proofs := AddToCache(c.proofs, p), pending := c.pending - {p})
    case ScanStart(e) => c.(scans := c.scans + {(e, c.aarps)})
    case ScanEnd(e, snapshot, found) =>
      c.(proofs := c.proofs[e := CachedOf(c.proofs, e) + found], loaded := c.loaded + {e},
         scans := c.scans - {(e, snapshot)})
    case Clear(e) =>
      c.(loaded := c.loaded - {e}, proofs := c.proofs - {e}, torn := if ScanOpen(c, e) then c.torn + {e} else c.torn)
    case Restart => c.(loaded := {}, proofs := map[], pending := {}, scans := {}, torn := {})
  }

  /** The cache holds a certificate with the same epoch, anchor and index. */
  predicate Matched(c: Cache, p: Aarp) {
    CacheKey(p) in CachedOf(c.proofs, p.epochIndex)
  }

  predicate OnItsWay(c: Cache, p: Aarp) { p in c.pending || Matched(c, p) }

  predicate OwnKeyed(aarps: map<Lane, Aarp>) {
    forall lane :: lane in aarps ==> Lane(aarps[lane].epochIndex, aarps[lane].anchor) == lane
  }

  /** A scan in progress has read every certificate that is not cached and not about to be. */
  predicate ScanCovers(c: Cache, e: int, snapshot: map<Lane, Aarp>) {
    forall lane: Lane :: lane.epoch == e && lane in c.aarps ==>
      OnItsWay(c, c.aarps[lane]) || (lane in snapshot && snapshot[lane] == c.aarps[lane])
  }

  /** Every stored certificate of the epoch that verifies is cached or about to be. */
  ghost predicate CacheComplete(w: World, ep: Epoch, c: Cache) {
    forall lane :: StoredAndValid(w, ep, c.aarps, lane) ==> OnItsWay(c, c.aarps[lane])
  }

  ghost predicate CacheInv(w: World, epochs: map<int, Epoch>, c: Cache) {
    && OwnKeyed(c.aarps)
    && (forall e, key :: key in CachedOf(c.proofs, e) ==> CacheKey(CachedOf(c.proofs, e)[key]) == key)
    && (forall scan :: scan in c.scans ==> OwnKeyed(scan.1) && scan.0 in epochs && epochs[scan.0].id == scan.0)
    && (forall scan :: scan in c.scans && scan.0 !in c.torn ==> ScanCovers(c, scan.0, scan.1))
    && (forall e :: e in c.loaded && e !in c.torn ==>
        e in epochs && epochs[e].id == e && CacheComplete(w, epochs[e], c))
  }

  /** Certificates stay on their way while nothing but their own epoch's drop touches the cache. */
  lemma WaysKept(w: World, epochs: map<int, Epoch>, c: Cache, ev: CacheEvent)
    requires CacheInv(w, epochs, c) && CanCache(w, epochs, c, ev) && !ev.Restart?
    ensures forall p :: OnItsWay(c, p) && (ev.Clear? ==> p.epochIndex != ev.e) ==> OnItsWay(AfterCache(c, ev), p)
  {
    hide AarpOk, CacheKey, ScanFinds, ScanCovers, CacheComplete;
  }

  lemma KeysKept(w: World, epochs: map<int, Epoch>, c: Cache, ev: CacheEvent)
    requires CacheInv(w, epochs, c) && CanCache(w, epochs, c, ev)
    ensures OwnKeyed(AfterCache(c, ev).aarps)
    ensures forall e, key :: key in CachedOf(AfterCache(c, ev).proofs, e) ==>
        CacheKey(CachedOf(AfterCache(c, ev).proofs, e)[key]) == key
  {
    hide AarpOk, CacheKey, ScanCovers, CacheComplete, StoredAndValid;
    var c' := AfterCache(c, ev);
    forall e, key | key in CachedOf(c'.proofs, e)
      ensures CacheKey(CachedOf(c'.proofs, e)[key]) == key
    {
      if key in CachedOf(c.proofs, e) {
        assert CacheKey(CachedOf(c.proofs, e)[key]) == key;
      }
    }
  }

  lemma ScansKept(w: World, epochs: map<int, Epoch>, c: Cache, ev: CacheEvent)
    requires CacheInv(w, epochs, c) && CanCache(w, epochs, c, ev)
    ensures forall scan :: scan in AfterCache(c, ev).scans && scan.0 !in AfterCache(c, ev).torn ==>
        ScanCovers(AfterCache(c, ev), scan.0, scan.1)
  {
    hide AarpOk, CacheKey, ScanFinds, CacheComplete, OnItsWay;
    if !ev.Restart? {
      WaysKept(w, epochs, c, ev);
    }
    forall scan | scan in AfterCache(c, ev).scans && scan.0 !in AfterCache(c, ev).torn
      ensures ScanCovers(AfterCache(c, ev), scan.0, scan.1)
    {
      if ev.Put? {
        PutIsOnItsWay(c, ev.p);
      }
      assert scan in c.scans ==> ScanCovers(c, scan.0, scan.1);
    }
  }

  lemma PutIsOnItsWay(c: Cache, p: Aarp)
    ensures OnItsWay(AfterCache(c, Put(p)), p)
  {
  }

  lemma CompletenessKept(w: World, epochs: map<int, Epoch>, c: Cache, ev: CacheEvent, e: int)
    requires CacheInv(w, epochs, c) && CanCache(w, epochs, c, ev)
    requires e in AfterCache(c, ev).loaded && e !in AfterCache(c, ev).torn
    ensures e in epochs && epochs[e].id == e && CacheComplete(w, epochs[e], AfterCache(c, ev))
  {
    hide AarpOk, CacheKey, ScanFinds, OnItsWay;
    WaysKept(w, epochs, c, ev);
    if ev.ScanEnd? && ev.e == e {
      assert (e, ev.snapshot) in c.scans;
      assert ScanCovers(c, (e, ev.snapshot).0, (e, ev.snapshot).1);
      ScanCompletes(w, epochs[e], c, ev);
    } else if ev.Put? {
      PutIsOnItsWay(c, ev.p);
    }
  }

  /** A finished scan has cached whatever was not on its way already. */
  lemma ScanCompletes(w: World, ep: Epoch, c: Cache, ev: CacheEvent)
    requires ev.ScanEnd? && ep.id == ev.e && OwnKeyed(c.aarps)
    requires ScanCovers(c, ev.e, ev.snapshot) && ScanFinds(w, ep, ev.snapshot, ev.found)
    ensures CacheComplete(w, ep, AfterCache(c, ev))
  {
    hide AarpOk, CacheKey;
    forall lane | StoredAndValid(w, ep, c.aarps, lane)
      ensures OnItsWay(AfterCache(c, ev), c.aarps[lane])
    {
      if !OnItsWay(c, c.aarps[lane]) {
        assert StoredAndValid(w, ep, ev.snapshot, lane);
      }
    }
  }

  lemma EventKeepsCacheInv(w: World, epochs: map<int, Epoch>, c: Cache, ev: CacheEvent)
    requires CacheInv(w, epochs, c) && CanCache(w, epochs, c, ev)
    ensures CacheInv(w, epochs, AfterCache(c, ev))
  {
    hide CacheKey, ScanFinds, CacheComplete, ScanCovers, OnItsWay;
    KeysKept(w, epochs, c, ev);
    ScansKept(w, epochs, c, ev);
    forall e | e in AfterCache(c, ev).loaded && e !in AfterCache(c, ev).torn
      ensures e in epochs && epochs[e].id == e && CacheComplete(w, epochs[e], AfterCache(c, ev))
    {
      CompletenessKept(w, epochs, c, ev, e);
    }
  }

  ghost predicate CacheNext(w: World, epochs: map<int, Epoch>, c: Cache, c': Cache) {
    exists ev :: CanCache(w, epochs, c, ev) && c' == AfterCache(c, ev)
  }

  ghost predicate IsCacheRun(w: World, epochs: map<int, Epoch>, run: seq<Cache>) {
    && run != [] && OwnKeyed(run[0].aarps) && run[0] == Cache(run[0].aarps, {}, map[], {}, {}, {})
    && forall i {:trigger run[i]} :: 0 < i < |run| ==> CacheNext(w, epochs, run[i - 1], run[i])
  }

  lemma {:induction false} CacheRunKeepsInv(w: World, epochs: map<int, Epoch>, run: seq<Cache>, i: nat)
    requires IsCacheRun(w, epochs, run) && i < |run|
    ensures CacheInv(w, epochs, run[i])
  {
    hide CacheKey, ScanFinds, AfterCache, CanCache;
    if i > 0 {
      CacheRunKeepsInv(w, epochs, run, i - 1);
      var c, c' := run[i - 1], run[i];
      assert CacheNext(w, epochs, c, c');
      var ev :| CanCache(w, epochs, c, ev) && c' == AfterCache(c, ev);
      EventKeepsCacheInv(w, epochs, c, ev);
    }
  }

  predicate SameRotationPoint(p: Aarp, q: Aarp) {
    p.epochIndex == q.epochIndex && p.anchor == q.anchor && p.votingStat.index == q.votingStat.index
  }

  /** A cache key over a ':'-free anchor belongs to one rotation point only. */
  lemma CacheKeyIsExact(p: Aarp, q: Aarp)
    requires ColonFree(p.anchor)
    ensures CacheKey(p) == CacheKey(q) <==> SameRotationPoint(p, q)
  {
    BlockIdFixed(p.epochIndex, p.anchor, p.votingStat.index, q.epochIndex, q.anchor, q.votingStat.index);
  }

  ghost predicate CachedPoint(c: Cache, p: Aarp) {
    exists key :: key in CachedOf(c.proofs, p.epochIndex) && SameRotationPoint(CachedOf(c.proofs, p.epochIndex)[key], p)
  }

  /** Once an epoch is loaded, every stored certificate that verifies is matched in the cache by one
      for the same epoch, anchor and index, in every interleaving of scans, stores, drops and restarts
      in which no scan of the epoch was open when it was dropped; only a store caught between its two
      halves may still be missing. */
  lemma LoadedCacheIsComplete(w: World, epochs: map<int, Epoch>, run: seq<Cache>, i: nat, e: int, lane: Lane)
    requires IsCacheRun(w, epochs, run) && i < |run|
    requires e in run[i].loaded && e !in run[i].torn && e in epochs
    requires forall c :: c in epochs[e].registry ==> ColonFree(c)
    requires StoredAndValid(w, epochs[e], run[i].aarps, lane)
    ensures run[i].aarps[lane] in run[i].pending || CachedPoint(run[i], run[i].aarps[lane])
  {
    hide CacheKey, IsCacheRun, AarpSigners, ScanCovers;
    CacheRunKeepsInv(w, epochs, run, i);
    var c, p := run[i], run[i].aarps[lane];
    if p !in c.pending {
      var q := CachedOf(c.proofs, p.epochIndex)[CacheKey(p)];
      assert CacheKey(q) == CacheKey(p);
      CacheKeyIsExact(p, q);
    }
  }

  /** And a drop with a scan open can lose: a certificate stored and cached after the scan began goes
      with the drop, and the scan, ending later, marks the epoch loaded again without it. */
  lemma TornDropLoses(w: World, epochs: map<int, Epoch>, c: Cache, e: int, snapshot: map<Lane, Aarp>,
                      found: map<string, Aarp>, p: Aarp)
    requires CacheInv(w, epochs, c) && (e, snapshot) in c.scans && ScanFinds(w, epochs[e], snapshot, found)
    requires p.epochIndex == e && AarpOk(w, p, epochs[e]) && CacheKey(p) !in found
    ensures var c1 := AfterCache(c, Put(p));
            var c2 := AfterCache(c1, CachePut(p));
            var c3 := AfterCache(c2, Clear(e));
            var c4 := AfterCache(c3, ScanEnd(e, snapshot, found));
            && CanCache(w, epochs, c, Put(p)) && CanCache(w, epochs, c1, CachePut(p))
            && CanCache(w, epochs, c2, Clear(e)) && CanCache(w, epochs, c3, ScanEnd(e, snapshot, found))
            && e in c4.torn && e in c4.loaded && StoredAndValid(w, epochs[e], c4.aarps, Lane(e, p.anchor))
            && c4.aarps[Lane(e, p.anchor)] == p && !OnItsWay(c4, p)
  {
    hide AarpOk, CacheKey, ScanFinds, ScanCovers, CacheComplete;
    assert (e, snapshot).0 == e;
  }

  /** A run from an empty store that does so, for any certificate that verifies. */
  lemma TornDropReached(w: World, epochs: map<int, Epoch>, e: int, p: Aarp) returns (run: seq<Cache>)
    requires e in epochs && epochs[e].id == e && p.epochIndex == e && AarpOk(w, p, epochs[e])
    ensures IsCacheRun(w, epochs, run)
    ensures var c := run[|run| - 1];
            && e in c.loaded && StoredAndValid(w, epochs[e], c.aarps, Lane(e, p.anchor)) && !OnItsWay(c, p)
            && c.aarps[Lane(e, p.anchor)] == p
  {
    hide AarpOk, CacheKey;
    var c0 := Cache(map[], {}, map[], {}, {}, {});
    var c1 := AfterCache(c0, ScanStart(e));
    var c2 := AfterCache(c1, Put(p));
    var c3 := AfterCache(c2, CachePut(p));
    var c4 := AfterCache(c3, Clear(e));
    var c5 := AfterCache(c4, ScanEnd(e, map[], map[]));
    run := [c0, c1, c2, c3, c4, c5];
    assert CanCache(w, epochs, c0, ScanStart(e)) && CanCache(w, epochs, c1, Put(p));
    assert CanCache(w, epochs, c2, CachePut(p)) && CanCache(w, epochs, c3, Clear(e));
    assert CanCache(w, epochs, c4, ScanEnd(e, map[], map[]));
    assert CacheNext(w, epochs, c0, c1) && CacheNext(w, epochs, c1, c2) && CacheNext(w, epochs, c2, c3);
    assert CacheNext(w, epochs, c3, c4) && CacheNext(w, epochs, c4, c5);
  }

  // ---- The handlers ----

  class AarpKeeper {
    const w: World
    var aarps: map<Lane, Aarp>
    var loaded: set<int>
    var proofs: map<int, map<string, Aarp>>
    var underRotation: set<Lane>

    ghost function State(): Cache
      reads this
    {
      Cache(aarps, loaded, proofs, {}, {}, {})
    }

    constructor (w: World)
      ensures this.w == w && State() == Cache(map[], {}, map[], {}, {}, {}) && underRotation == {}
    {
      this.w := w;
      aarps := map[];
      loaded := {};
      proofs := map[];
      underRotation := {};
    }

    method StoreAggregatedAnchorRotationProof(p: Aarp)
      modifies this`aarps, this`proofs
      ensures State() == AfterCache(AfterCache(old(State()), Put(p)), CachePut(p))
      ensures aarps == old(aarps)[Lane(p.epochIndex, p.anchor) := p] && loaded == old(loaded)
      ensures p.epochIndex in proofs && proofs == old(proofs)[p.epochIndex := proofs[p.epochIndex]]
      ensures proofs[p.epochIndex] == CachedOf(old(proofs), p.epochIndex)[CacheKey(p) := p]
    {
      aarps := aarps[Lane(p.epochIndex, p.anchor) := p];
      proofs := AddToCache(proofs, p);
    }

    /** What the cache scan reads off the disk. */
    method ScanStore(ep: Epoch) returns (found: map<string, Aarp>)
      ensures ScanFinds(w, ep, aarps, found)
    {
      hide CacheKey, AarpOk;
      found := map[];
      var rest := aarps.Keys;
      ghost var read: map<Lane, Aarp> := map[];
      while rest != {}
        invariant rest <= aarps.Keys
        invariant forall lane :: lane in read <==> lane in aarps && lane !in rest
        invariant forall lane :: lane in read ==> read[lane] == aarps[lane]
        invariant ScanFinds(w, ep, read, found)
      {
        var lane :| lane in rest;
        rest := rest - {lane};
        ghost var before := read;
        read := read[lane := aarps[lane]];
        if lane.epoch == ep.id {
          var verdict := VerifyAggregatedAnchorRotationProof(w, aarps[lane], ep);
          ScanReadsOn(w, ep, before, found, lane, aarps[lane]);
          if verdict.Valid? {
            found := found[CacheKey(aarps[lane]) := aarps[lane]];
          }
        } else {
          ScanReadsOn(w, ep, before, found, lane, aarps[lane]);
        }
      }
      assert read == aarps;
    }

    /** GetAggregatedAnchorRotationProofs: the cached certificates, after a first scan if needed. */
    method GetAggregatedAnchorRotationProofs(ep: Epoch) returns (out: map<string, Aarp>)
      modifies this`loaded, this`proofs
      ensures ep.id < 0 ==> out == map[] && State() == old(State())
      ensures ep.id >= 0 && ep.id in old(loaded) ==> State() == old(State()) && out == CachedOf(proofs, ep.id)
      ensures ep.id >= 0 && ep.id !in old(loaded) ==>
                ScanFinds(w, ep, aarps, out) && State() == AfterCache(AfterCache(old(State()), ScanStart(ep.id)),
                                                                      ScanEnd(ep.id, aarps, out))
      ensures ep.id >= 0 ==> ep.id in loaded && loaded == old(loaded) + {ep.id}
      ensures ep.id >= 0 && ep.id !in old(loaded) ==>
                ep.id in proofs && proofs == old(proofs)[ep.id := CachedOf(old(proofs), ep.id) + out]
    {
      hide ScanFinds;
      if ep.id < 0 {
        return map[];
      }
      if ep.id in loaded {
        return CachedOf(proofs, ep.id);
      }
      out := ScanStore(ep);
      proofs := proofs[ep.id := CachedOf(proofs, ep.id) + out];
      loaded := loaded + {ep.id};
    }

    method ClearAggregatedAnchorRotationProofCache(e: int)
      modifies this`loaded, this`proofs
      ensures State() == if e < 0 then old(State()) else AfterCache(old(State()), Clear(e))
      ensures e >= 0 ==> loaded == old(loaded) - {e} && proofs == old(proofs) - {e}
    {
      if e < 0 {
        return;
      }
      loaded := loaded - {e};
      proofs := proofs - {e};
    }

    method StoreAggregatedRotationProofFromRequest(window: seq<Epoch>, p: Aarp) returns (error: Option<AcceptError>)
      modifies this`aarps, this`proofs, this`underRotation
      ensures error.None? <==> Acceptable(w, window, p)
      ensures var found := FindEpochById(window, p.epochIndex);
              && (error == Some(EpochNotTracked) <==> found.None?)
              && (error == Some(UnknownCreator) <==> found.Some? && p.anchor !in found.value.registry)
              && (error.Some? && error.value.Rejected? ==> found.Some? && !AarpOk(w, p, found.value))
      ensures aarps == AcceptStep(w, old(aarps), window, p)
      ensures var lane := Lane(p.epochIndex, p.anchor);
              if Acceptable(w, window, p) && Replaces(old(aarps), p)
              then underRotation == old(underRotation) + {lane} &&
                  State() == AfterCache(AfterCache(old(State()), Put(p)), CachePut(p))
              else underRotation == old(underRotation) && State() == old(State())
    {
      var found := FindEpochById(window, p.epochIndex);
      if found.None? {
        return Some(EpochNotTracked);
      }
      var ep := found.value;
      if p.anchor !in ep.registry {
        return Some(UnknownCreator);
      }
      if |p.signatures| < Majority(|ep.quorum|) {
        return Some(InsufficientSignatures);
      }
      var verdict := VerifyAggregatedAnchorRotationProof(w, p, ep);
      if !verdict.Valid? {
        return Some(Rejected(verdict));
      }
      var existing := LoadAarp(aarps, Lane(p.epochIndex, p.anchor));
      if existing.votingStat.index >= p.votingStat.index {
        return None;
      }
      StoreAggregatedAnchorRotationProof(p);
      underRotation := underRotation + {Lane(p.epochIndex, p.anchor)};
      return None;
    }

    /** AcceptAggregatedAnchorRotationProofs stops at the first certificate it refuses, keeping
        what it stored before. */
    method AcceptAggregatedAnchorRotationProofs(requests: seq<(seq<Epoch>, Aarp)>) returns (accepted: nat)
      modifies this`aarps, this`proofs, this`underRotation
      ensures accepted <= |requests| && aarps == AcceptAll(w, old(aarps), requests[..accepted])
      ensures forall t :: 0 <= t < accepted ==> Acceptable(w, requests[t].0, requests[t].1)
      ensures accepted < |requests| ==> !Acceptable(w, requests[accepted].0, requests[accepted].1)
    {
      hide Acceptable, Replaces;
      accepted := 0;
      while accepted < |requests|
        invariant accepted <= |requests| && aarps == AcceptAll(w, old(aarps), requests[..accepted])
        invariant forall t :: 0 <= t < accepted ==> Acceptable(w, requests[t].0, requests[t].1)
      {
        assert requests[..accepted + 1][..accepted] == requests[..accepted];
        var error := StoreAggregatedRotationProofFromRequest(requests[accepted].0, requests[accepted].1);
        if error.Some? {
          return;
        }
        accepted := accepted + 1;
      }
    }
  }

  /** Reading one more stored certificate keeps a partial scan exact. */
  lemma ScanReadsOn(w: World, ep: Epoch, read: map<Lane, Aarp>, found: map<string, Aarp>, lane: Lane, p: Aarp)
    requires ScanFinds(w, ep, read, found) && lane !in read
    ensures var found' := if lane.epoch == ep.id && AarpOk(w, p, ep) then found[CacheKey(p) := p] else found;
            ScanFinds(w, ep, read[lane := p], found')
  {
    hide AarpOk, CacheKey;
    var read' := read[lane := p];
    var found' := if lane.epoch == ep.id && AarpOk(w, p, ep) then found[CacheKey(p) := p] else found;
    forall key | key in found'
      ensures CacheKey(found'[key]) == key && exists l :: StoredAndValid(w, ep, read', l) && read'[l] == found'[key]
    {
      if lane.epoch == ep.id && AarpOk(w, p, ep) && key == CacheKey(p) {
        assert StoredAndValid(w, ep, read', lane);
      } else {
        var l :| StoredAndValid(w, ep, read, l) && read[l] == found[key];
        assert StoredAndValid(w, ep, read', l);
      }
    }
  }
}
