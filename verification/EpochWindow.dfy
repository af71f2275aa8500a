/** The window of supported epochs: genesis, rotation by the clock, trimming at start-up and
    restarts from the persisted handler. */
module EpochWindow {
  import opened Text
  import opened Structures
  import opened Voter

  const TWO_64: int := 0x1_0000_0000_0000_0000

  /** Go's conversion of a signed number to uint64. */
  function U64(n: int): nat { n % TWO_64 }

  datatype Params = Params(maxEpochs: int, duration: int)

  datatype Genesis = Genesis(params: Params, anchors: seq<string>, start: nat)

  /** ApprovementThreadMetadataHandler; `current` mirrors the last supported epoch. */
  datatype Handler = Handler(params: Params, current: Epoch, supported: seq<Epoch>)

  function FirstEpoch(w: World, g: Genesis): Epoch {
    Epoch(0, w.blake3(INIT_HASH + w.networkId + NatText(g.start)), g.anchors, g.anchors, g.start)
  }

  /** The epoch the rotation thread appends after ep. */
  function NextEpoch(w: World, ep: Epoch, duration: int): Epoch {
    Epoch(ep.id + 1, w.blake3(ep.hash), ep.registry, ep.registry, U64(ep.start + U64(duration)))
  }

  predicate StillFresh(ep: Epoch, duration: int, now: int) { U64(ep.start + U64(duration)) > U64(now) }

  /** GetEpochHandler. */
  function Latest(h: Handler): Epoch {
    if h.supported == [] then h.current else h.supported[|h.supported| - 1]
  }

  // ---- The sequence of all epochs, from which every window is a slice ----

  function EpochAt(w: World, g: Genesis, n: nat): Epoch {
    if n == 0 then FirstEpoch(w, g) else NextEpoch(w, EpochAt(w, g, n - 1), g.params.duration)
  }

  /** Ids count up, registry and quorum never change, hashes chain through Blake3. */
  lemma {:induction false} EpochShape(w: World, g: Genesis, n: nat)
    ensures var ep := EpochAt(w, g, n);
            && ep.id == n && ep.registry == g.anchors && ep.quorum == g.anchors
            && EpochAt(w, g, n + 1).hash == w.blake3(ep.hash)
  {
    if n > 0 { EpochShape(w, g, n - 1); }
  }

  /** Without overflow, epoch n starts n durations after the first. */
  lemma {:induction false} EpochStart(w: World, g: Genesis, n: nat)
    requires 0 < g.params.duration && g.start + n * g.params.duration < TWO_64
    ensures EpochAt(w, g, n).start == g.start + n * g.params.duration
  {
    if n > 0 {
      var d := g.params.duration;
      assert n * d == (n - 1) * d + d;
      EpochStart(w, g, n - 1);
      DurationFits(g.start + (n - 1) * d, d);
    } else {
      assert 0 * g.params.duration == 0;
    }
  }

  lemma DurationFits(start: int, d: int)
    requires 0 <= start && 0 < d && start + d < TWO_64
    ensures U64(start + U64(d)) == start + d
  {
  }

  /** The first epoch's hash is that of the network name and the start, and of nothing else: two networks
      share it exactly if name and start run together to the same text. */
  lemma FirstHashIff(w: World, g: Genesis, w': World, g': Genesis)
    requires Sound(w) && w.blake3 == w'.blake3
    ensures FirstEpoch(w, g).hash == FirstEpoch(w', g').hash
       <==> w.networkId + NatText(g.start) == w'.networkId + NatText(g'.start)
  {
    var s, s' := w.networkId + NatText(g.start), w'.networkId + NatText(g'.start);
    assert INIT_HASH + w.networkId + NatText(g.start) == INIT_HASH + s;
    assert INIT_HASH + w'.networkId + NatText(g'.start) == INIT_HASH + s';
    assert (INIT_HASH + s)[|INIT_HASH|..] == s && (INIT_HASH + s')[|INIT_HASH|..] == s';
  }

  /** Networks of one name differ from start to start. */
  lemma StartsDiffer(w: World, g: Genesis, g': Genesis)
    requires Sound(w)
    ensures FirstEpoch(w, g).hash == FirstEpoch(w, g').hash <==> g.start == g'.start
  {
    FirstHashIff(w, g, w, g');
    var n := |w.networkId|;
    assert (w.networkId + NatText(g.start))[n..] == NatText(g.start);
    assert (w.networkId + NatText(g'.start))[n..] == NatText(g'.start);
    NatTextRoundTrip(g.start);
    NatTextRoundTrip(g'.start);
  }

  /** Two differently named networks can share it, the digits of the start completing a name. */
  lemma NamesRunTogether(w: World, anchors: seq<string>, params: Params)
    requires Sound(w)
    ensures FirstEpoch(w.(networkId := "net1"), Genesis(params, anchors, 2)) ==
        FirstEpoch(w.(networkId := "net"), Genesis(params, anchors, 12)).(start := 2)
  {
    assert NatText(2) == "2" && NatText(12) == "12";
    assert "net1" + NatText(2) == "net" + NatText(12);
    FirstHashIff(w.(networkId := "net1"), Genesis(params, anchors, 2), w.(networkId := "net"),
                 Genesis(params, anchors, 12));
  }

  predicate IsSlice(w: World, g: Genesis, from: int, window: seq<Epoch>) {
    from >= 0 && window != [] && forall i :: 0 <= i < |window| ==> window[i] == EpochAt(w, g, from + i)
  }

  predicate AllFinished(finished: set<int>, below: int) {
    forall e :: 0 <= e < below ==> e in finished
  }

  /** The limit after ensureEpochWindow has replaced a senseless one. */
  function Cap(max: int): nat { if max <= 0 then 1 else max }

  /** A window that is a slice of the epoch sequence, with everything before it finished. */
  predicate HandlerOk(w: World, g: Genesis, h: Handler, finished: set<int>) {
    && (h.params == g.params || h.params == g.params.(maxEpochs := Cap(g.params.maxEpochs)))
    && h.supported != [] && IsSlice(w, g, h.supported[0].id, h.supported) && h.current == Latest(h)
    && |h.supported| <= Cap(g.params.maxEpochs)
    && AllFinished(finished, h.supported[0].id)
  }

  /** ensureEpochWindow on any handler. */
  function Trimmed(h: Handler): (t: Handler)
    ensures 1 <= |t.supported| <= t.params.maxEpochs && t.current == Latest(h) == Latest(t)
  {
    var max := Cap(h.params.maxEpochs);
    var all := if h.supported == [] then [h.current] else h.supported;
    var kept := if |all| > max then all[|all| - max..] else all;
    Handler(h.params.(maxEpochs := max), kept[|kept| - 1], kept)
  }

  /** The epochs ensureEpochWindow drops. */
  function Surplus(h: Handler): seq<Epoch> {
    if |h.supported| > Cap(h.params.maxEpochs) then h.supported[..|h.supported| - Cap(h.params.maxEpochs)] else []
  }

  /** Trimming drops from the front exactly what exceeds the limit, and nothing else. */
  lemma TrimmingSplits(h: Handler)
    ensures Trimmed(h).params == h.params.(maxEpochs := Cap(h.params.maxEpochs))
    ensures Surplus(h) + Trimmed(h).supported == if h.supported == [] then [h.current] else h.supported
    ensures |Trimmed(h).supported| == Cap(h.params.maxEpochs) || Surplus(h) == []
  {
  }

  /** The handler after one rotation: the next epoch appended, the first dropped if there are too many. */
  function Rotated(w: World, h: Handler): Handler {
    var next := NextEpoch(w, Latest(h), h.params.duration);
    var all := h.supported + [next];
    Handler(h.params, next, if |all| > h.params.maxEpochs then all[1..] else all)
  }

  lemma SliceExtends(w: World, g: Genesis, from: int, window: seq<Epoch>)
    requires IsSlice(w, g, from, window)
    ensures window[0].id == from && window[|window| - 1].id == from + |window| - 1
    ensures IsSlice(w, g, from, window + [NextEpoch(w, window[|window| - 1], g.params.duration)])
    ensures NextEpoch(w, window[|window| - 1], g.params.duration) == EpochAt(w, g, from + |window|)
  {
    hide NextEpoch;
    EpochShape(w, g, from);
    EpochShape(w, g, from + |window| - 1);
    assert EpochAt(w, g, from + |window|) == NextEpoch(w, EpochAt(w, g, from + |window| - 1), g.params.duration);
  }

  lemma SliceShrinks(w: World, g: Genesis, from: int, window: seq<Epoch>)
    requires IsSlice(w, g, from, window) && |window| > 1
    ensures IsSlice(w, g, from + 1, window[1..]) && window[1].id == from + 1
  {
    EpochShape(w, g, from + 1);
  }

  lemma RotationKeepsWindow(w: World, g: Genesis, h: Handler, finished: set<int>)
    requires HandlerOk(w, g, h, finished) && |h.supported| <= h.params.maxEpochs
    ensures var h' := Rotated(w, h);
            var marked := if |h.supported| == h.params.maxEpochs then finished + {h.supported[0].id} else finished;
            && HandlerOk(w, g, h', marked) && HandlerOk(w, g, h, marked) && |h'.supported| <= h'.params.maxEpochs
            && Latest(h).id >= 0 && Latest(h') == EpochAt(w, g, Latest(h).id + 1) && Latest(h').id == Latest(h).id + 1
  {
    hide NextEpoch, EpochAt, IsSlice;
    var k := h.supported[0].id;
    var next := NextEpoch(w, Latest(h), h.params.duration);
    assert IsSlice(w, g, k, h.supported);
    SliceExtends(w, g, k, h.supported);
    SliceExtends(w, g, k, h.supported + [next]);
    FromIsNatural(w, g, k, h.supported);
    if |h.supported| == h.params.maxEpochs {
      SliceShrinks(w, g, k, h.supported + [next]);
    }
  }

  lemma FromIsNatural(w: World, g: Genesis, from: int, window: seq<Epoch>)
    requires IsSlice(w, g, from, window)
    ensures from >= 0
  {
  }

  /** What a window is: consecutive ids, one registry and quorum, each hash Blake3 of the one before. */
  lemma WindowShape(w: World, g: Genesis, h: Handler, finished: set<int>, i: nat)
    requires HandlerOk(w, g, h, finished) && i < |h.supported|
    ensures h.supported[i].id == h.supported[0].id + i >= 0
    ensures h.supported[i].registry == g.anchors && h.supported[i].quorum == g.anchors
    ensures i > 0 ==> h.supported[i].hash == w.blake3(h.supported[i - 1].hash)
    ensures forall e :: 0 <= e < h.supported[0].id ==> e in finished
  {
    hide NextEpoch, EpochAt;
    var k := h.supported[0].id;
    EpochShape(w, g, k + i);
    if i > 0 { EpochShape(w, g, k + i - 1); }
  }

  lemma TrimmingKeepsWindow(w: World, g: Genesis, h: Handler, finished: set<int>)
    requires HandlerOk(w, g, h, finished)
    ensures HandlerOk(w, g, Trimmed(h), finished) && Trimmed(h).supported == h.supported && Surplus(h) == []
  {
  }

  lemma GenesisIsWindow(w: World, g: Genesis, finished: set<int>)
    ensures HandlerOk(w, g, Handler(g.params, FirstEpoch(w, g), [FirstEpoch(w, g)]), finished)
  {
    EpochShape(w, g, 0);
  }

  /** No two epochs share a full id. */
  lemma FullIdsDiffer(w: World, g: Genesis, a: nat, b: nat)
    requires Sound(w) && a != b
    ensures FullId(EpochAt(w, g, a)) != FullId(EpochAt(w, g, b)) && EpochAt(w, g, a).id != EpochAt(w, g, b).id
  {
    hide FullId, Sound, HexText, NextEpoch;
    EpochShape(w, g, a);
    EpochShape(w, g, b);
    HashOfEpoch(w, g, a);
    HashOfEpoch(w, g, b);
    if FullId(EpochAt(w, g, a)) == FullId(EpochAt(w, g, b)) {
      FullIdFixesEpoch(EpochAt(w, g, a), EpochAt(w, g, b));
    }
  }

  /** Every epoch of a window is found again by its id and by its full id. */
  lemma {:induction false} WindowLookup(w: World, g: Genesis, from: int, window: seq<Epoch>, i: nat)
    requires Sound(w) && IsSlice(w, g, from, window) && i < |window|
    ensures FindEpochById(window, window[i].id) == Some(window[i]) &&
        FindEpoch(window, FullId(window[i])) == Some(window[i])
    decreases |window|
  {
    hide FullId, Sound, EpochAt;
    if i > 0 {
      FullIdsDiffer(w, g, from, from + i);
      assert IsSlice(w, g, from + 1, window[1..]);
      WindowLookup(w, g, from + 1, window[1..], i - 1);
    }
  }

  lemma HashOfEpoch(w: World, g: Genesis, n: nat)
    requires Sound(w)
    ensures HexText(EpochAt(w, g, n).hash)
  {
  }

  /** Without overflow an epoch is fresh exactly until its duration is over. */
  lemma FreshIff(ep: Epoch, duration: int, now: int)
    requires 0 < duration && ep.start + duration < TWO_64 && 0 <= now < TWO_64
    ensures StillFresh(ep, duration, now) <==> now < ep.start + duration
  {
    DurationFits(ep.start, duration);
  }

  class EpochThread {
    const w: World
    const g: Genesis
    var handler: Handler
    var finished: set<int>
    var persisted: Option<Handler>

    /** The databases can be started from at any time. */
    ghost predicate Durable()
      reads this
    {
      persisted.Some? ==> HandlerOk(w, g, persisted.value, finished)
    }

    /** The node is up: memory holds a full window and agrees with what is persisted, up to the limit. */
    ghost predicate Running()
      reads this
    {
      && Durable() && persisted.Some?
      && HandlerOk(w, g, handler, finished) && |handler.supported| <= handler.params.maxEpochs
      && handler.params.maxEpochs == Cap(g.params.maxEpochs)
      && persisted.value.supported == handler.supported
    }

    constructor (w: World, g: Genesis)
      ensures this.w == w && this.g == g && finished == {} && persisted.None? && Durable()
    {
      this.w := w;
      this.g := g;
      handler := Handler(g.params, FirstEpoch(w, g), []);
      finished := {};
      persisted := None;
    }

    method LoadGenesis()
      modifies this`handler
      ensures handler == Handler(g.params, FirstEpoch(w, g), [FirstEpoch(w, g)])
    {
      var anchorsRegistry: seq<string> := [];
      for i := 0 to |g.anchors|
        invariant anchorsRegistry == g.anchors[..i]
      {
        anchorsRegistry := anchorsRegistry + [g.anchors[i]];
      }
      var first := Epoch(0, w.blake3(INIT_HASH + w.networkId + NatText(g.start)), anchorsRegistry, anchorsRegistry,
                         g.start);
      handler := Handler(g.params, first, [first]);
    }

    method MarkFinished(toDrop: seq<Epoch>)
      modifies this`finished
      ensures finished == old(finished) + set e | e in toDrop :: e.id
    {
      for i := 0 to |toDrop|
        invariant finished == old(finished) + set e | e in toDrop[..i] :: e.id
      {
        assert toDrop[..i + 1] == toDrop[..i] + [toDrop[i]];
        finished := finished + {toDrop[i].id};
      }
      assert toDrop[..|toDrop|] == toDrop;
    }

    method EnsureEpochWindow()
      modifies this`handler, this`finished
      ensures handler == Trimmed(old(handler))
      ensures finished == old(finished) + set e | e in Surplus(old(handler)) :: e.id
    {
      if handler.params.maxEpochs <= 0 {
        handler := handler.(params := handler.params.(maxEpochs := 1));
      }
      if handler.supported == [] {
        handler := handler.(supported := [handler.current]);
      }
      var toDrop: seq<Epoch> := [];
      if |handler.supported| > handler.params.maxEpochs {
        var offset := |handler.supported| - handler.params.maxEpochs;
        toDrop := handler.supported[..offset];
        handler := handler.(supported := handler.supported[offset..]);
      }
      handler := handler.(current := handler.supported[|handler.supported| - 1]);
      assert toDrop == Surplus(old(handler));
      MarkFinished(toDrop);
    }

    /** Start-up, first or after a crash: the persisted handler or the genesis one, then trimmed. */
    method Start()
      requires Durable()
      modifies this
      ensures Running() && finished == old(finished)
      ensures old(persisted.Some?) ==>
          handler.supported == old(persisted).value.supported && persisted == old(persisted)
      ensures old(persisted.None?) ==> handler.supported == [EpochAt(w, g, 0)]
    {
      if persisted.Some? {
        handler := persisted.value;
      } else {
        LoadGenesis();
        GenesisIsWindow(w, g, finished);
        persisted := Some(handler);
      }
      TrimmingKeepsWindow(w, g, handler, finished);
      EnsureEpochWindow();
    }

    /** One round of EpochRotationThread, reading the clock twice; it may crash after `cut` durable
        writes, 1 the finish mark of a dropped epoch and 2 the handler itself. */
    method RotateOnce(now: int, later: int, cut: nat) returns (rotated: bool)
      requires Running()
      modifies this
      ensures Durable()
      ensures rotated <==> Latest(old(handler)).hash != "" && !StillFresh(Latest(old(handler)), g.params.duration, now)
                           && !StillFresh(Latest(old(handler)), g.params.duration, later)
      ensures !rotated ==> handler == old(handler) && finished == old(finished) && persisted == old(persisted)
      ensures rotated ==> handler == Rotated(w, old(handler))
      ensures (rotated ==> cut >= 2) ==> Running()
      ensures rotated && cut < 2 ==> persisted == old(persisted)
      ensures rotated ==> Latest(handler).id == Latest(old(handler)).id + 1
      ensures rotated ==>
                finished == old(finished) +
                  (if cut >= 1 && |old(handler).supported| == old(handler).params.maxEpochs
                   then {old(handler).supported[0].id} else {})
    {
      var currentEpoch := Latest(handler);
      if currentEpoch.hash == "" || StillFresh(currentEpoch, handler.params.duration, now) {
        return false;
      }
      var latestIndex := |handler.supported| - 1;
      if latestIndex < 0 {
        return false;
      }
      var epochHandler := handler.supported[latestIndex];
      if StillFresh(epochHandler, handler.params.duration, later) {
        return false;
      }
      RotationKeepsWindow(w, g, handler, finished);
      var next := NextEpoch(w, epochHandler, handler.params.duration);
      handler := handler.(supported := handler.supported + [next]);
      if |handler.supported| > handler.params.maxEpochs {
        var dropped := handler.supported[0];
        handler := handler.(supported := handler.supported[1..]);
        if cut >= 1 {
          finished := finished + {dropped.id};
        }
      }
      handler := handler.(current := handler.supported[|handler.supported| - 1]);
      if cut >= 2 {
        persisted := Some(handler);
      }
      rotated := true;
    }

    /** Rotating until the last epoch is fresh: the thread catches up, however long the node was
        down, and stops in the one epoch the clock is in. */
    method CatchUp(now: int)
      requires Running() && Sound(w)
      requires 0 < g.params.duration && now + g.params.duration < TWO_64
      requires g.start + Latest(handler).id * g.params.duration <= now
      modifies this
      ensures Running()
      ensures var last := Latest(handler);
              && last.start <= now < last.start + g.params.duration
              && last.start == g.start + last.id * g.params.duration
              && last.id == (now - g.start) / g.params.duration
    {
      hide HandlerOk, StillFresh, Rotated, Sound, Latest;
      var rotated := true;
      while rotated
        invariant Running() && g.start + Latest(handler).id * g.params.duration <= now
        invariant !rotated ==> now < g.start + (Latest(handler).id + 1) * g.params.duration
        decreases now - g.start - Latest(handler).id * g.params.duration, rotated
      {
        LatestStart(w, g, handler, finished);
        FreshIff(Latest(handler), g.params.duration, now);
        rotated := RotateOnce(now, now, 2);
      }
      LatestStart(w, g, handler, finished);
      QuotientIs(now - g.start, Latest(handler).id, g.params.duration);
    }
  }

  lemma OneMore(q: int, d: int)
    ensures (q + 1) * d == q * d + d
  {
  }

  lemma AtMost(a: int, b: int, d: int)
    requires a <= b && 0 < d
    ensures a * d <= b * d
  {
  }

  lemma QuotientIs(x: int, q: int, d: int)
    requires 0 < d && q * d <= x < q * d + d
    ensures x / d == q
  {
    var a := x / d;
    assert a * d <= x < a * d + d;
    if a < q {
      AtMost(a + 1, q, d);
      OneMore(a, d);
    } else if q < a {
      AtMost(q + 1, a, d);
      OneMore(q, d);
    }
  }

  lemma LatestStart(w: World, g: Genesis, h: Handler, finished: set<int>)
    requires Sound(w) && HandlerOk(w, g, h, finished)
    requires 0 < g.params.duration && g.start + Latest(h).id * g.params.duration < TWO_64
    ensures Latest(h).start == g.start + Latest(h).id * g.params.duration && Latest(h).id >= 0 && Latest(h).hash != ""
    ensures (Latest(h).id + 1) * g.params.duration == Latest(h).id * g.params.duration + g.params.duration
  {
    hide Sound, U64, NextEpoch;
    var n := h.supported[0].id + |h.supported| - 1;
    EpochShape(w, g, n);
    HashOfEpoch(w, g, n);
    EpochStart(w, g, n);
    OneMore(n, g.params.duration);
  }
}
