/** Walking the rotation chain: which later anchor's blocks hold the rotation certificates of
    everybody before it, and how far such hops lead from the first anchor. */
module Walk {
  import opened Text
  import opened Structures
  import opened Payloads
  import opened Voter

  /** AARP_PRESENCE(epoch, creator, rotated): a block of `creator` holds the certificate of `rotated`. */
  datatype Mark = Mark(epoch: int, creator: string, rotated: string)

  datatype RotationDb = RotationDb(marks: map<Mark, string>, aarps: map<Lane, Aarp>, afps: map<Slot, Afp>)

  /** What a missing rotation certificate loads as. */
  const NO_AARP: Aarp := Aarp(0, "", VotingStat(0, "", EMPTY_AFP), map[])

  function LoadMark(db: RotationDb, m: Mark): string { if m in db.marks then db.marks[m] else "" }

  function LoadAarp(aarps: map<Lane, Aarp>, lane: Lane): Aarp { if lane in aarps then aarps[lane] else NO_AARP }

  function ParseBlockIndex(blockId: string): Option<int> {
    var parts := Split(blockId);
    if |parts| != 3 then None else Atoi(parts[2])
  }

  /** A record reads as a block index exactly if it has three fields and the last is a number. */
  lemma ReadableIff(text: string, n: int)
    ensures ParseBlockIndex(text) == Some(n) <==> exists a, b, c :: IsTriple(text, a, b, c) && Atoi(c) == Some(n)
  {
    hide Atoi, Split;
    TripleIff(text);
  }

  /** Go's 64-bit n + 1. */
  function Succ64(n: int): int { if n == MAX_INT64 then MIN_INT64 else n + 1 }

  /** A block of `creator` is recorded as holding the stored certificate of `rotated`. */
  predicate Included(db: RotationDb, e: int, creator: string, rotated: string) {
    && ParseBlockIndex(LoadMark(db, Mark(e, creator, rotated))).Some?
    && LoadAarp(db.aarps, Lane(e, rotated)).anchor != ""
  }

  datatype AnchorData = AnchorData(aarp: Aarp, foundInBlock: int)

  function DataOf(db: RotationDb, e: int, creator: string, rotated: string): AnchorData
    requires Included(db, e, creator, rotated)
  {
    AnchorData(LoadAarp(db.aarps, Lane(e, rotated)), ParseBlockIndex(LoadMark(db, Mark(e, creator, rotated))).value)
  }

  /** Anchor i holds the certificates of all anchors in [from, i). */
  predicate HopReady(db: RotationDb, e: int, anchors: seq<string>, from: int, i: int)
    requires 0 <= from && i < |anchors|
  {
    forall j :: from <= j < i ==> Included(db, e, anchors[i], anchors[j])
  }

  /** Position k is where the registry lists this key for the last time. */
  predicate IsLast(anchors: seq<string>, key: string, k: int) {
    0 <= k < |anchors| && anchors[k] == key && forall l :: k < l < |anchors| ==> anchors[l] != key
  }

  ghost predicate HasEntry(anchors: seq<string>, key: string, data: map<int, AnchorData>) {
    exists k :: k in data && IsLast(anchors, key, k)
  }

  /** data holds exactly the entries of the required anchors, under their registry positions. */
  ghost predicate Lists(db: RotationDb, e: int, creator: string, anchors: seq<string>, required: seq<string>,
                        data: map<int, AnchorData>) {
    && (forall k :: k in data ==>
          && 0 <= k < |anchors| && anchors[k] in required && IsLast(anchors, anchors[k], k)
          && Included(db, e, creator, anchors[k]) && data[k] == DataOf(db, e, creator, anchors[k]))
    && (forall key :: key in required ==> HasEntry(anchors, key, data))
  }

  /** The highest block index among the required anchors' entries, at least -1. */
  ghost predicate IsTop(db: RotationDb, e: int, creator: string, required: seq<string>, top: int) {
    && top >= -1
    && (forall key :: key in required ==>
        Included(db, e, creator, key) && DataOf(db, e, creator, key).foundInBlock <= top)
    && (top == -1 || exists key :: key in required && DataOf(db, e, creator, key).foundInBlock == top)
  }

  datatype Alignment = OutOfRange | NoData | Aligned(found: nat, anchors: map<int, AnchorData>, afp: Option<Afp>)

  /** `i` is the nearest hop from `from`. */
  predicate NearestHop(db: RotationDb, e: int, anchors: seq<string>, from: int, i: int)
    requires 0 <= from
  {
    && from < i < |anchors| && HopReady(db, e, anchors, from, i)
    && forall l :: from < l < i ==> !HopReady(db, e, anchors, from, l)
  }

  method AnchorIndexLookup(anchors: seq<string>) returns (lookup: map<string, int>)
    ensures forall key :: key in lookup <==> key in anchors
    ensures forall key :: key in lookup ==> IsLast(anchors, key, lookup[key])
  {
    lookup := map[];
    for idx := 0 to |anchors|
      invariant forall key :: key in lookup <==> key in anchors[..idx]
      invariant forall key :: key in lookup ==> IsLast(anchors[..idx], key, lookup[key])
    {
      assert anchors[..idx + 1] == anchors[..idx] + [anchors[idx]];
      lookup := lookup[anchors[idx] := idx];
    }
    assert anchors[..|anchors|] == anchors;
  }

  lemma ScanStarts(db: RotationDb, e: int, creator: string, anchors: seq<string>)
    ensures Lists(db, e, creator, anchors, [], map[]) && IsTop(db, e, creator, [], -1)
  {
  }

  lemma EntryIs(db: RotationDb, e: int, creator: string, rotated: string)
    requires Included(db, e, creator, rotated)
    ensures DataOf(db, e, creator, rotated) ==
              AnchorData(LoadAarp(db.aarps, Lane(e, rotated)),
                         ParseBlockIndex(LoadMark(db, Mark(e, creator, rotated))).value)
  {
  }

  lemma ScanFound(db: RotationDb, e: int, creator: string, required: seq<string>, top: int)
    requires IsTop(db, e, creator, required, top)
    ensures forall key :: key in required ==> Included(db, e, creator, key)
  {
  }

  /** The inner loop: look for every required anchor among the records of one candidate. */
  method ScanCandidate(db: RotationDb, e: int, creator: string, ghost anchors: seq<string>, required: seq<string>,
                       lookup: map<string, int>)
    returns (allFound: bool, candidateData: map<int, AnchorData>, currentMax: int)
    requires forall key :: key in lookup <==> key in anchors
    requires forall key :: key in lookup ==> IsLast(anchors, key, lookup[key])
    requires forall key :: key in required ==> key in anchors
    ensures allFound <==> forall key :: key in required ==> Included(db, e, creator, key)
    ensures allFound ==>
        Lists(db, e, creator, anchors, required, candidateData) && IsTop(db, e, creator, required, currentMax)
  {
    hide DataOf, Lists, IsTop;
    candidateData := map[];
    currentMax := -1;
    allFound := true;
    ScanStarts(db, e, creator, anchors);
    for t := 0 to |required|
      invariant allFound
      invariant Lists(db, e, creator, anchors, required[..t], candidateData)
      invariant IsTop(db, e, creator, required[..t], currentMax)
    {
      var rotated := required[t];
      assert rotated in required;
      var blockId := LoadMark(db, Mark(e, creator, rotated));
      var blockIndex := ParseBlockIndex(blockId);
      if blockId == "" || blockIndex.None? {
        allFound := false;
        break;
      }
      var proof := LoadAarp(db.aarps, Lane(e, rotated));
      if proof.anchor == "" {
        allFound := false;
        break;
      }
      ghost var data, top := candidateData, currentMax;
      candidateData := candidateData[lookup[rotated] := AnchorData(proof, blockIndex.value)];
      if blockIndex.value > currentMax {
        currentMax := blockIndex.value;
      }
      ScanExtends(db, e, creator, anchors, required, t, lookup[rotated], data, top);
      EntryIs(db, e, creator, rotated);
    }
    if allFound {
      assert required[..|required|] == required;
      ScanFound(db, e, creator, required, currentMax);
    }
  }

  lemma ScanExtends(db: RotationDb, e: int, creator: string, anchors: seq<string>, required: seq<string>, t: nat,
                    at: int, data: map<int, AnchorData>, top: int)
    requires t < |required| && IsLast(anchors, required[t], at) && Included(db, e, creator, required[t])
    requires Lists(db, e, creator, anchors, required[..t], data) && IsTop(db, e, creator, required[..t], top)
    ensures var entry := DataOf(db, e, creator, required[t]);
            && Lists(db, e, creator, anchors, required[..t + 1], data[at := entry])
            && IsTop(db, e, creator, required[..t + 1], if entry.foundInBlock > top then entry.foundInBlock else top)
  {
    hide Included, DataOf;
    var entry := DataOf(db, e, creator, required[t]);
    var data' := data[at := entry];
    assert required[..t + 1] == required[..t] + [required[t]];
    forall key | key in required[..t + 1]
      ensures HasEntry(anchors, key, data')
    {
      if key == required[t] {
        assert at in data' && IsLast(anchors, key, at);
      } else {
        var k :| k in data && IsLast(anchors, key, k);
        assert k in data' && IsLast(anchors, key, k);
      }
    }
    if entry.foundInBlock > top {
      assert required[t] in required[..t + 1];
    }
  }

  lemma ReadyMeansAll(db: RotationDb, e: int, anchors: seq<string>, from: int, i: int)
    requires 0 <= from <= i < |anchors|
    ensures HopReady(db, e, anchors, from, i) <==> forall key :: key in anchors[from..i] ==>
        Included(db, e, anchors[i], key)
  {
    hide Included;
    forall j | from <= j < i
      ensures anchors[j] in anchors[from..i]
    {
      assert anchors[from..i][j - from] == anchors[j];
    }
  }

  /** The nearest hop from `from`, with exactly the entries of the anchors passed over and the certificate
      stored above the highest block among them. */
  ghost predicate IsAlignment(db: RotationDb, e: int, anchors: seq<string>, from: int, r: Alignment) {
    && r.Aligned? && 0 <= from && NearestHop(db, e, anchors, from, r.found)
    && Lists(db, e, anchors[r.found], anchors, anchors[from..r.found], r.anchors)
    && exists top ::
         && IsTop(db, e, anchors[r.found], anchors[from..r.found], top)
         && r.afp == StoredAfp(db, Slot(e, anchors[r.found], Succ64(top)))
  }

  function StoredAfp(db: RotationDb, slot: Slot): Option<Afp> {
    if slot in db.afps then Some(db.afps[slot]) else None
  }

  /** computeSequenceAlignmentData: the nearest later anchor whose blocks hold the certificates
      of every anchor from `from` up to it, and the certificate above the highest such block. */
  method ComputeSequenceAlignmentData(db: RotationDb, e: int, from: int, anchors: seq<string>) returns (r: Alignment)
    ensures r.OutOfRange? <==> e < 0 || from < 0 || from >= |anchors|
    ensures r.NoData? ==> forall i :: from < i < |anchors| ==> !HopReady(db, e, anchors, from, i)
    ensures r.Aligned? ==> IsAlignment(db, e, anchors, from, r)
  {
    hide Lists, IsTop, HopReady, Included, IsLast;
    if e < 0 || from < 0 || from >= |anchors| {
      return OutOfRange;
    }
    if from == |anchors| - 1 {
      return NoData;
    }
    var lookup := AnchorIndexLookup(anchors);
    var requiredAnchors := [anchors[from]];
    for i := from + 1 to |anchors|
      invariant requiredAnchors == anchors[from..i]
      invariant forall l :: from < l < i ==> !HopReady(db, e, anchors, from, l)
    {
      var creator := anchors[i];
      var allFound, candidateData, currentMax := ScanCandidate(db, e, creator, anchors, requiredAnchors, lookup);
      ReadyMeansAll(db, e, anchors, from, i);
      if allFound {
        var slot := Slot(e, creator, Succ64(currentMax));
        r := Aligned(i, candidateData, if slot in db.afps then Some(db.afps[slot]) else None);
        assert IsAlignment(db, e, anchors, from, r);
        return;
      }
      requiredAnchors := requiredAnchors + [creator];
    }
    return NoData;
  }

  /** For a registry without repeated keys the answer lists exactly the positions passed over. */
  lemma AlignmentIsExact(db: RotationDb, e: int, creator: string, anchors: seq<string>, from: nat, found: nat,
                         data: map<int, AnchorData>)
    requires from < found < |anchors|
    requires forall j, k :: 0 <= j < k < |anchors| ==> anchors[j] != anchors[k]
    requires Lists(db, e, creator, anchors, anchors[from..found], data)
    ensures forall k :: k in data <==> from <= k < found
    ensures forall j :: from <= j < found ==>
        Included(db, e, creator, anchors[j]) && data[j] == DataOf(db, e, creator, anchors[j])
  {
    hide Included, DataOf;
    forall k | k in data
      ensures from <= k < found
    {
      var t :| 0 <= t < found - from && anchors[from..found][t] == anchors[k];
      assert anchors[from + t] == anchors[k];
    }
    forall j | from <= j < found
      ensures j in data
    {
      assert anchors[from..found][j - from] == anchors[j];
      assert HasEntry(anchors, anchors[j], data);
      var k :| k in data && IsLast(anchors, anchors[j], k);
      assert k == j;
    }
  }

  /** A record may name a negative block index: it is listed as found, and the certificate looked up
      for the answer is the one at index 0, which has nothing below it. */
  lemma NegativeIndexIsListed(p: Aarp, afps: map<Slot, Afp>)
    requires p.anchor == "x"
    ensures var db := RotationDb(map[Mark(0, "y", "x") := BlockId(0, "y", -3)], map[Lane(0, "x") := p], afps);
            && Included(db, 0, "y", "x") && DataOf(db, 0, "y", "x").foundInBlock == -3
            && IsTop(db, 0, "y", ["x"], -1) && Succ64(-1) == 0
            && NearestHop(db, 0, ["x", "y"], 0, 1)
  {
    BlockIdRoundTrip(0, "y", -3);
    var db := RotationDb(map[Mark(0, "y", "x") := BlockId(0, "y", -3)], map[Lane(0, "x") := p], afps);
    assert Included(db, 0, "y", "x");
  }

  // ---- How far the hops lead ----

  /** A walk from the first anchor by arbitrary hops, not only nearest ones. */
  predicate IsWalk(db: RotationDb, e: int, anchors: seq<string>, path: seq<int>) {
    && path != [] && path[0] == 0 && anchors != []
    && forall t {:trigger path[t]} :: 0 < t < |path| ==>
         0 <= path[t - 1] < path[t] < |anchors| && HopReady(db, e, anchors, path[t - 1], path[t])
  }

  ghost predicate Reaches(db: RotationDb, e: int, anchors: seq<string>, q: int) {
    exists path :: IsWalk(db, e, anchors, path) && path[|path| - 1] == q
  }

  /** q is the greatest anchor any walk reaches. */
  ghost predicate Farthest(db: RotationDb, e: int, anchors: seq<string>, q: int) {
    Reaches(db, e, anchors, q) && forall p :: Reaches(db, e, anchors, p) ==> p <= q
  }

  /** A walk that gets past `cur` crosses it in one hop, and that hop starts at `cur` as well. */
  lemma {:induction false} Crossing(db: RotationDb, e: int, anchors: seq<string>, path: seq<int>, cur: int)
      returns (i: int)
    requires IsWalk(db, e, anchors, path) && 0 <= cur < path[|path| - 1]
    ensures cur < i < |anchors| && HopReady(db, e, anchors, cur, i)
  {
    hide Included;
    var n := |path|;
    if path[n - 2] <= cur {
      i := path[n - 1];
    } else {
      i := Crossing(db, e, anchors, path[..n - 1], cur);
    }
  }

  lemma WalkExtends(db: RotationDb, e: int, anchors: seq<string>, path: seq<int>, i: int)
    requires IsWalk(db, e, anchors, path) && 0 <= path[|path| - 1] < i < |anchors|
    requires HopReady(db, e, anchors, path[|path| - 1], i)
    ensures IsWalk(db, e, anchors, path + [i])
  {
    hide Included;
  }

  lemma DeadEndIsFarthest(db: RotationDb, e: int, anchors: seq<string>, path: seq<int>)
    requires IsWalk(db, e, anchors, path)
    requires var cur := path[|path| - 1]; 0 <= cur < |anchors| && forall i :: cur < i < |anchors| ==>
        !HopReady(db, e, anchors, cur, i)
    ensures Farthest(db, e, anchors, path[|path| - 1])
  {
    hide HopReady;
    var cur := path[|path| - 1];
    forall p | Reaches(db, e, anchors, p)
      ensures p <= cur
    {
      var other :| IsWalk(db, e, anchors, other) && other[|other| - 1] == p;
      if p > cur {
        var i := Crossing(db, e, anchors, other, cur);
        assert false;
      }
    }
  }

  datatype Assumption = Assumption(current: nat, proof: Option<Alignment>)

  /** The hop loop of GetCurrentAnchorAssumption: taking the nearest hop each time leads as far
      as any sequence of hops can; the proof is the full answer for the last hop, from an anchor that is
      itself reached. */
  method CurrentAnchorAssumption(db: RotationDb, e: int, anchors: seq<string>) returns (r: Option<Assumption>)
    ensures r.None? <==> e < 0 || anchors == []
    ensures r.Some? ==> r.value.current < |anchors| && Farthest(db, e, anchors, r.value.current)
    ensures r.Some? ==> (r.value.proof.None? <==> r.value.current == 0)
    ensures r.Some? && r.value.proof.Some? ==>
              && r.value.proof.value.Aligned? && r.value.proof.value.found == r.value.current
              && exists from ::
                   Reaches(db, e, anchors, from) && IsAlignment(db, e, anchors, from, r.value.proof.value)
  {
    hide HopReady, Lists, IsTop, Farthest, IsLast;
    if e < 0 || anchors == [] {
      return None;
    }
    var currentAssumption: nat := 0;
    var lastProof: Option<Alignment> := None;
    ghost var path := [0];
    while true
      invariant currentAssumption < |anchors|
      invariant IsWalk(db, e, anchors, path) && path[|path| - 1] == currentAssumption
      invariant lastProof.None? <==> currentAssumption == 0
      invariant lastProof.Some? ==> lastProof.value.Aligned? && lastProof.value.found == currentAssumption
      invariant lastProof.Some? ==> exists from ::
          Reaches(db, e, anchors, from) && IsAlignment(db, e, anchors, from, lastProof.value)
      decreases |anchors| - currentAssumption
    {
      var resp := ComputeSequenceAlignmentData(db, e, currentAssumption, anchors);
      if !resp.Aligned? {
        break;
      }
      assert Reaches(db, e, anchors, currentAssumption);
      WalkExtends(db, e, anchors, path, resp.found);
      path := path + [resp.found];
      lastProof := Some(resp);
      currentAssumption := resp.found;
    }
    DeadEndIsFarthest(db, e, anchors, path);
    return Some(Assumption(currentAssumption, lastProof));
  }

  // ---- The answer over a run of the node ----

  /** Writes to the records the walk reads. */
  datatype Write = PutMark(mark: Mark, blockId: string) | PutAarp(aarp: Aarp) | PutAfp(slot: Slot, afp: Afp)

  function AfterWrite(db: RotationDb, x: Write): RotationDb {
    match x
    case PutMark(mark, blockId) => db.(marks := db.marks[mark := blockId])
    case PutAarp(p) => db.(aarps := db.aarps[Lane(p.epochIndex, p.anchor) := p])
    case PutAfp(slot, afp) => db.(afps := db.afps[slot := afp])
  }

  ghost predicate KeepsIncluded(db: RotationDb, db': RotationDb) {
    forall e, c, r :: Included(db, e, c, r) ==> Included(db', e, c, r)
  }

  /** Every certificate is stored under its own epoch and anchor, as both writers do. */
  predicate OwnKeys(db: RotationDb) {
    forall lane :: lane in db.aarps ==> db.aarps[lane].anchor == lane.creator
  }

  /** The write leaves no readable record unreadable. */
  predicate Harmless(db: RotationDb, x: Write) {
    x.PutMark? && Included(db, x.mark.epoch, x.mark.creator, x.mark.rotated) ==> ParseBlockIndex(x.blockId).Some?
  }

  /** A write keeps every inclusion exactly when it does not replace the record behind a valid
      one by an unparseable block id. */
  lemma KeepsIncludedIff(db: RotationDb, x: Write)
    requires OwnKeys(db)
    ensures OwnKeys(AfterWrite(db, x))
    ensures KeepsIncluded(db, AfterWrite(db, x)) <==> Harmless(db, x)
  {
    hide ParseBlockIndex;
    var db' := AfterWrite(db, x);
    if x.PutMark? && KeepsIncluded(db, db') && Included(db, x.mark.epoch, x.mark.creator, x.mark.rotated) {
      assert Included(db', x.mark.epoch, x.mark.creator, x.mark.rotated);
    }
  }

  function AfterAll(db: RotationDb, writes: seq<Write>): RotationDb
    decreases |writes|
  {
    if writes == [] then db else AfterAll(AfterWrite(db, writes[0]), writes[1..])
  }

  predicate AllHarmless(db: RotationDb, writes: seq<Write>)
    decreases |writes|
  {
    writes == [] || (Harmless(db, writes[0]) && AllHarmless(AfterWrite(db, writes[0]), writes[1..]))
  }

  lemma {:induction false} WritesKeepIncluded(db: RotationDb, writes: seq<Write>)
    requires OwnKeys(db) && AllHarmless(db, writes)
    ensures KeepsIncluded(db, AfterAll(db, writes))
    decreases |writes|
  {
    hide Included, Harmless, OwnKeys;
    if writes != [] {
      KeepsIncludedIff(db, writes[0]);
      WritesKeepIncluded(AfterWrite(db, writes[0]), writes[1..]);
    }
  }

  lemma ReachesMore(db: RotationDb, db': RotationDb, e: int, anchors: seq<string>, q: int)
    requires KeepsIncluded(db, db') && Reaches(db, e, anchors, q)
    ensures Reaches(db', e, anchors, q)
  {
    hide Included;
    var path :| IsWalk(db, e, anchors, path) && path[|path| - 1] == q;
    assert IsWalk(db', e, anchors, path);
  }

  /** Over any run of writes that keep block ids readable, the current anchor of an epoch never
      moves back. */
  lemma AssumptionNeverMovesBack(db: RotationDb, writes: seq<Write>, e: int, anchors: seq<string>, q: int, q': int)
    requires OwnKeys(db) && AllHarmless(db, writes)
    requires Farthest(db, e, anchors, q) && Farthest(AfterAll(db, writes), e, anchors, q')
    ensures q <= q'
  {
    hide KeepsIncluded, Reaches;
    WritesKeepIncluded(db, writes);
    ReachesMore(db, AfterAll(db, writes), e, anchors, q);
  }
}
