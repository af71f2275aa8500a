/** All nodes together: honest nodes run the voter and the creator loops, everyone else may
    send anything that does not forge an honest signature. Each action is one critical section
    or one durable write of one node. */
module Network {
  import opened Text
  import opened Structures
  import opened Payloads
  import opened Certificates
  import opened Voter
  import opened Maker

  /** `honest` are the keys of the nodes that run this code. `honestReplies` restricts voting
      stat replies to those nodes; `crashes` allows restarts. */
  datatype Config = Config(w: World, epochs: map<int, Epoch>, honest: set<string>, honestReplies: bool, crashes: bool)

  ghost predicate EpochOk(cfg: Config, e: int, ep: Epoch) {
    && ep.id == e && HexText(ep.hash)
    && FaultyBound(ep.quorum, cfg.honest)
    && (forall c :: c in ep.registry ==> ColonFree(c) && !Numeral(c))
  }

  ghost predicate ConfigOk(cfg: Config) {
    && Sound(cfg.w)
    && (forall e :: e in cfg.epochs ==> EpochOk(cfg, e, cfg.epochs[e]))
    && (forall k :: k in cfg.honest ==> ColonFree(k))
  }

  /** `replies` is history: the voting stats honest nodes have reported. */
  datatype Net = Net(nodes: map<string, Node>, makers: map<Lane, Maker>, replies: set<(Lane, VotingStat)>)

  // ---- What honest keys have signed so far ----

  ghost predicate Stated(net: Net, k: string, m: string) {
    k in net.nodes && exists v :: v in net.nodes[k].signed && Payload(v) == m
  }

  predicate OnChain(cfg: Config, net: Net, k: string, e: int, i: int, hash: string) {
    Lane(e, k) in net.makers && 0 <= i < |net.makers[Lane(e, k)].chain| &&
        GetHash(cfg.w, net.makers[Lane(e, k)].chain[i]) == hash
  }

  ghost predicate Published(cfg: Config, net: Net, k: string, m: string) {
    exists e, i :: OnChain(cfg, net, k, e, i, m)
  }

  /** Unforgeability: a valid honest signature is on something the node has issued. */
  ghost predicate Unforged(cfg: Config, net: Net, m: string, k: string, sig: string) {
    k in cfg.honest && cfg.w.verify(m, k, sig) ==> Stated(net, k, m) || Published(cfg, net, k, m)
  }

  ghost predicate ProofsUnforged(cfg: Config, net: Net, m: string, proofs: map<string, string>) {
    forall k :: k in proofs ==> Unforged(cfg, net, m, k, proofs[k])
  }

  ghost predicate AfpUnforged(cfg: Config, net: Net, afp: Afp, e: int) {
    ProofsUnforged(cfg, net, AfpPayload(afp, e), afp.proofs)
  }

  ghost predicate BlockUnforged(cfg: Config, net: Net, b: Block) {
    Unforged(cfg, net, GetHash(cfg.w, b), b.creator, b.sig)
  }

  // ---- Certificates seen in a run ----

  /** afp passes the verifier of epoch e and forges nobody's signature. */
  ghost predicate Certified(cfg: Config, net: Net, afp: Afp, e: int) {
    e in cfg.epochs && AfpOk(cfg.w, afp, cfg.epochs[e]) && AfpUnforged(cfg, net, afp, e)
  }

  ghost predicate CertifiedAt(cfg: Config, net: Net, afp: Afp, e: int, c: string, i: int) {
    Certified(cfg, net, afp, e) && afp.blockId == BlockId(e, c, i)
  }

  /** A certificate whose two hashes are hashes. */
  ghost predicate Genuine(cfg: Config, net: Net, g: Afp, e: int, c: string, i: int, h: string) {
    CertifiedAt(cfg, net, g, e, c, i) && g.blockHash == h && HexText(h) && HexText(g.prevBlockHash)
  }

  ghost predicate GenuineAt(cfg: Config, net: Net, e: int, c: string, i: int, h: string) {
    exists g :: Genuine(cfg, net, g, e, c, i, h)
  }

  ghost predicate GenuineText(cfg: Config, net: Net, e: int, c: string, z: string, h: string) {
    exists i :: z == Itoa(i) && GenuineAt(cfg, net, e, c, i, h)
  }

  /** Whatever vote a hash text happens to spell at its end is a certified one. */
  ghost predicate Grounded(cfg: Config, net: Net, e: int, x: string) {
    e in cfg.epochs &&
    forall c, z, h :: c in cfg.epochs[e].registry && Ends(Split(x), c, z, h) ==> GenuineText(cfg, net, e, c, z, h)
  }

  // ---- Invariant ----

  ghost predicate FpFact(cfg: Config, net: Net, v: Statement)
    requires v.Fp?
  {
    && v.epoch in cfg.epochs && v.creator in cfg.epochs[v.epoch].registry && v.index >= 0
    && HexText(v.prev) && HexText(v.hash)
    && (v.index == 0 ==> v.prev == INIT_HASH)
    && (v.index > 0 ==> GenuineAt(cfg, net, v.epoch, v.creator, v.index - 1, v.prev))
    && GetHash(cfg.w, v.block) == v.hash && v.block.creator == v.creator && v.block.index == v.index
    && v.block.epoch == FullId(cfg.epochs[v.epoch])
    && (v.creator in cfg.honest ==> OnChain(cfg, net, v.creator, v.epoch, v.index, v.hash))
  }

  ghost predicate ArpFact(cfg: Config, net: Net, v: Statement)
    requires v.Arp?
  {
    && v.epoch in cfg.epochs && v.creator in cfg.epochs[v.epoch].registry
    && Grounded(cfg, net, v.epoch, v.hash)
    && (v.index < 0 ==> v.hash == INIT_HASH)
    && (cfg.honestReplies && v.index >= 0 ==> GenuineAt(cfg, net, v.epoch, v.creator, v.index, v.hash))
  }

  ghost predicate Fact(cfg: Config, net: Net, v: Statement) {
    match v
    case Fp(_, _, _, _, _, _) => FpFact(cfg, net, v)
    case Arp(_, _, _, _) => ArpFact(cfg, net, v)
  }

  /** The stat names a certificate for its own creator and index. */
  predicate NamesItsBlock(lane: Lane, stat: VotingStat) {
    stat.afp.blockId == BlockId(lane.epoch, lane.creator, stat.index) && stat.hash == stat.afp.blockHash
  }

  ghost predicate StatFact(cfg: Config, net: Net, lane: Lane, stat: VotingStat) {
    && Grounded(cfg, net, lane.epoch, stat.hash)
    && (cfg.honestReplies && stat.index >= 0 ==>
          NamesItsBlock(lane, stat) && GenuineAt(cfg, net, lane.epoch, lane.creator, stat.index, stat.hash))
  }

  ghost predicate NodeFacts(cfg: Config, net: Net, s: Node) {
    && (forall v :: v in s.signed ==> Fact(cfg, net, v))
    && (forall lane :: lane in s.stats ==> StatFact(cfg, net, lane, s.stats[lane]))
    && (forall lane :: Ordered(s, lane))
  }

  ghost predicate Makers(cfg: Config, net: Net, k: string, s: Node) {
    forall e :: Lane(e, k) in net.makers ==>
        e in cfg.epochs && MakerInv(cfg.w, cfg.epochs[e], k, s, net.makers[Lane(e, k)], cfg.crashes)
  }

  ghost predicate Shape(cfg: Config, net: Net) {
    && net.nodes.Keys == cfg.honest
    && (forall lane :: lane in net.makers <==> lane.epoch in cfg.epochs && lane.creator in cfg.honest)
  }

  ghost predicate Inv(cfg: Config, net: Net) {
    && Shape(cfg, net)
    && (forall k :: k in cfg.honest ==> NodeFacts(cfg, net, net.nodes[k]))
    && (forall k :: k in cfg.honest ==> Makers(cfg, net, k, net.nodes[k]))
    && (forall r :: r in net.replies ==> StatFact(cfg, net, r.0, r.1))
  }

  // ---- Growth: nothing signed or published is ever taken back ----

  ghost predicate Grows(net: Net, net': Net) {
    && (forall k :: k in net.nodes ==> k in net'.nodes && net.nodes[k].signed <= net'.nodes[k].signed)
    && (forall lane :: lane in net.makers ==> lane in net'.makers && net.makers[lane].chain <= net'.makers[lane].chain)
  }

  lemma IssuedGrows(cfg: Config, net: Net, net': Net, m: string, k: string, sig: string)
    requires Grows(net, net') && Unforged(cfg, net, m, k, sig)
    ensures Unforged(cfg, net', m, k, sig)
  {
    hide GetHash, Payload;
    if k in cfg.honest && cfg.w.verify(m, k, sig) {
      if Stated(net, k, m) {
        assert Stated(net', k, m);
      } else {
        var e, i :| OnChain(cfg, net, k, e, i, m);
        assert OnChain(cfg, net', k, e, i, m);
      }
    }
  }

  lemma CertifiedGrows(cfg: Config, net: Net, net': Net, afp: Afp, e: int)
    requires Grows(net, net') && Certified(cfg, net, afp, e)
    ensures Certified(cfg, net', afp, e)
  {
    hide AfpPayload, AfpOk, Unforged;
    forall k | k in afp.proofs
      ensures Unforged(cfg, net', AfpPayload(afp, e), k, afp.proofs[k])
    {
      IssuedGrows(cfg, net, net', AfpPayload(afp, e), k, afp.proofs[k]);
    }
  }

  lemma GenuineGrows(cfg: Config, net: Net, net': Net, e: int, c: string, i: int, h: string)
    requires Grows(net, net') && GenuineAt(cfg, net, e, c, i, h)
    ensures GenuineAt(cfg, net', e, c, i, h)
  {
    hide Certified, BlockId;
    var g :| Genuine(cfg, net, g, e, c, i, h);
    CertifiedGrows(cfg, net, net', g, e);
    assert Genuine(cfg, net', g, e, c, i, h);
  }

  lemma GroundedGrows(cfg: Config, net: Net, net': Net, e: int, x: string)
    requires Grows(net, net') && Grounded(cfg, net, e, x)
    ensures Grounded(cfg, net', e, x)
  {
    hide Ends, GenuineAt;
    forall c, z, h | c in cfg.epochs[e].registry && Ends(Split(x), c, z, h)
      ensures GenuineText(cfg, net', e, c, z, h)
    {
      var i :| z == Itoa(i) && GenuineAt(cfg, net, e, c, i, h);
      GenuineGrows(cfg, net, net', e, c, i, h);
    }
  }

  lemma FactGrows(cfg: Config, net: Net, net': Net, v: Statement)
    requires Grows(net, net') && Fact(cfg, net, v)
    ensures Fact(cfg, net', v)
  {
    hide GenuineAt, Grounded, GetHash, FullId, HexText;
    match v
    case Fp(prev, e, c, i, h, b) =>
      if i > 0 { GenuineGrows(cfg, net, net', e, c, i - 1, prev); }
    case Arp(e, c, i, h) =>
      GroundedGrows(cfg, net, net', e, h);
      if GenuineAt(cfg, net, e, c, i, h) { GenuineGrows(cfg, net, net', e, c, i, h); }
  }

  lemma StatFactGrows(cfg: Config, net: Net, net': Net, lane: Lane, stat: VotingStat)
    requires Grows(net, net') && StatFact(cfg, net, lane, stat)
    ensures StatFact(cfg, net', lane, stat)
  {
    hide GenuineAt, Grounded, NamesItsBlock;
    GroundedGrows(cfg, net, net', lane.epoch, stat.hash);
    if GenuineAt(cfg, net, lane.epoch, lane.creator, stat.index, stat.hash) {
      GenuineGrows(cfg, net, net', lane.epoch, lane.creator, stat.index, stat.hash);
    }
  }

  lemma NodeFactsGrow(cfg: Config, net: Net, net': Net, s: Node)
    requires Grows(net, net') && NodeFacts(cfg, net, s)
    ensures NodeFacts(cfg, net', s)
  {
    hide Fact, StatFact, Ordered, Grows;
    forall v | v in s.signed
      ensures Fact(cfg, net', v)
    {
      FactGrows(cfg, net, net', v);
    }
    forall lane | lane in s.stats
      ensures StatFact(cfg, net', lane, s.stats[lane])
    {
      StatFactGrows(cfg, net, net', lane, s.stats[lane]);
    }
  }

  // ---- Reading a certificate back ----

  lemma PayloadHasColon(prev: string, id: string, hash: string, e: int, h: string)
    requires HexText(h)
    ensures FpPayload(prev, id, hash, e) != h
  {
    assert FpPayload(prev, id, hash, e)[|prev|] == ':';
  }

  /** Some honest quorum member stated exactly the text a certificate is about. */
  lemma Speaker(cfg: Config, net: Net, afp: Afp, e: int) returns (k: string, v: Statement)
    requires ConfigOk(cfg) && Inv(cfg, net) && Certified(cfg, net, afp, e)
    ensures k in cfg.honest && v in net.nodes[k].signed && Payload(v) == AfpPayload(afp, e)
  {
    hide NodeFacts, Makers, StatFact, AfpPayload, Payload, GetHash, Majority;
    var signers := ValidSigners(cfg.w, AfpPayload(afp, e), afp.proofs, cfg.epochs[e].quorum);
    MajorityHasHonest(cfg.epochs[e].quorum, cfg.honest, signers);
    k :| k in signers && k in cfg.honest;
    v := SignerStated(cfg, net, afp, e, k);
  }

  /** An honest valid signer of a certificate stated its text. */
  lemma SignerStated(cfg: Config, net: Net, afp: Afp, e: int, k: string) returns (v: Statement)
    requires Sound(cfg.w) && AfpUnforged(cfg, net, afp, e) && k in cfg.honest
    requires k in afp.proofs && cfg.w.verify(AfpPayload(afp, e), k, afp.proofs[k])
    ensures k in net.nodes && v in net.nodes[k].signed && Payload(v) == AfpPayload(afp, e)
  {
    hide Payload;
    assert Unforged(cfg, net, AfpPayload(afp, e), k, afp.proofs[k]);
    if Published(cfg, net, k, AfpPayload(afp, e)) {
      var f, i :| OnChain(cfg, net, k, f, i, AfpPayload(afp, e));
      PayloadHasColon(afp.prevBlockHash, afp.blockId, afp.blockHash, e,
                      GetHash(cfg.w, net.makers[Lane(f, k)].chain[i]));
      assert false;
    }
    v :| v in net.nodes[k].signed && Payload(v) == AfpPayload(afp, e);
  }

  lemma LastPartIsEpoch(v: Statement, p: string, id: string, h: string, e: int)
    requires Payload(v) == FpPayload(p, id, h, e)
    requires v.Arp? ==> ColonFree(v.creator)
    ensures v.epoch == e
  {
    FpFront(p, id, h, e);
    var parts := Split(FpPayload(p, id, h, e));
    match v
    case Fp(prev, f, c, i, hash, _) =>
      FpFront(prev, BlockId(f, c, i), hash, f);
      ItoaInjective(e, f);
    case Arp(f, c, i, hash) =>
      ArpParts(c, i, hash, f);
      assert parts[|parts| - 1] == Itoa(f);
      ItoaInjective(e, f);
  }

  /** A vote spelled at the end of a certified text is a genuinely certified vote. */
  lemma Ground(cfg: Config, net: Net, afp: Afp, e: int, c: string, z: string, h: string)
    requires ConfigOk(cfg) && Inv(cfg, net) && Certified(cfg, net, afp, e)
    requires c in cfg.epochs[e].registry
    requires EndsDeep(Front(Split(AfpPayload(afp, e))), c, z, h)
    ensures GenuineText(cfg, net, e, c, z, h)
  {
    hide Ends, EndsDeep, Makers, StatFact, ProofsUnforged, GenuineText, GenuineAt, Ordered;
    var k, v := Speaker(cfg, net, afp, e);
    assert NodeFacts(cfg, net, net.nodes[k]);
    assert Fact(cfg, net, v);
    assert EpochOk(cfg, v.epoch, cfg.epochs[v.epoch]);
    LastPartIsEpoch(v, afp.prevBlockHash, afp.blockId, afp.blockHash, e);
    if v.Fp? {
      HexTextFree(v.prev, ':');
      HexTextFree(v.hash, ':');
      FpEndsWithItsVote(v.prev, e, v.creator, v.index, v.hash, c, z, h);
      SameTextSameCertificate(cfg, net, afp, Afp(v.prev, BlockId(e, c, v.index), h, afp.proofs), e);
      GenuineFrom(cfg, net, Afp(v.prev, BlockId(e, c, v.index), h, afp.proofs), e, c, v.index, h);
    } else {
      ArpEndsInHash(v.creator, v.index, v.hash, e, c, z, h);
    }
  }

  lemma SameTextSameCertificate(cfg: Config, net: Net, afp: Afp, g: Afp, e: int)
    requires Certified(cfg, net, afp, e) && cfg.epochs[e].id == e
    requires AfpPayload(g, e) == AfpPayload(afp, e) && g.proofs == afp.proofs
    ensures Certified(cfg, net, g, e)
  {
    hide FpPayload, ProofsUnforged, Majority;
  }

  lemma GenuineFrom(cfg: Config, net: Net, g: Afp, e: int, c: string, i: int, h: string)
    requires Genuine(cfg, net, g, e, c, i, h)
    ensures GenuineAt(cfg, net, e, c, i, h) && GenuineText(cfg, net, e, c, Itoa(i), h)
  {
    hide Genuine;
    assert GenuineAt(cfg, net, e, c, i, h);
  }

  lemma HashGrounded(cfg: Config, net: Net, afp: Afp, e: int)
    requires ConfigOk(cfg) && Inv(cfg, net) && Certified(cfg, net, afp, e)
    ensures Grounded(cfg, net, e, afp.blockHash)
  {
    hide Ends, EndsDeep, Inv, ConfigOk, AfpOk, AfpUnforged, GenuineText, FpPayload;
    forall c, z, h | c in cfg.epochs[e].registry && Ends(Split(afp.blockHash), c, z, h)
      ensures GenuineText(cfg, net, e, c, z, h)
    {
      HashEndsText(afp.prevBlockHash, afp.blockId, afp.blockHash, e, c, z, h);
      Ground(cfg, net, afp, e, c, z, h);
    }
  }

  /** A certificate over a three-part id certifies the vote its id names. */
  lemma IdGrounded(cfg: Config, net: Net, afp: Afp, e: int)
    requires ConfigOk(cfg) && Inv(cfg, net) && Certified(cfg, net, afp, e)
    requires |Split(afp.blockId)| == 3 && Split(afp.blockId)[1] in cfg.epochs[e].registry
    ensures GenuineText(cfg, net, e, Split(afp.blockId)[1], Split(afp.blockId)[2], afp.blockHash)
  {
    hide EndsDeep, Inv, ConfigOk, AfpOk, AfpUnforged, GenuineText, FpPayload;
    IdEndsText(afp.prevBlockHash, afp.blockId, afp.blockHash, e);
    Ground(cfg, net, afp, e, Split(afp.blockId)[1], Split(afp.blockId)[2], afp.blockHash);
  }

  lemma CertifiedIsGenuine(cfg: Config, net: Net, afp: Afp, e: int, c: string, i: int)
    requires ConfigOk(cfg) && Inv(cfg, net) && CertifiedAt(cfg, net, afp, e, c, i)
    requires c in cfg.epochs[e].registry
    ensures GenuineAt(cfg, net, e, c, i, afp.blockHash)
  {
    hide Inv, AfpOk, AfpUnforged, GenuineAt, BlockId;
    assert EpochOk(cfg, e, cfg.epochs[e]);
    BlockIdParts(e, c, i);
    IdGrounded(cfg, net, afp, e);
    var j :| Itoa(i) == Itoa(j) && GenuineAt(cfg, net, e, c, j, afp.blockHash);
    ItoaInjective(i, j);
  }

  lemma ColonFreeIsGrounded(cfg: Config, net: Net, e: int, x: string)
    requires e in cfg.epochs && ColonFree(x)
    ensures Grounded(cfg, net, e, x)
  {
    SplitColonFree(x);
  }

  /** Every honest signer of a genuine certificate cast exactly that vote. */
  lemma GenuineVote(cfg: Config, net: Net, g: Afp, e: int, c: string, i: int, h: string, k: string)
      returns (v: Statement)
    requires ConfigOk(cfg) && Inv(cfg, net) && Genuine(cfg, net, g, e, c, i, h) && c in cfg.epochs[e].registry
    requires k in cfg.honest && k in ValidSigners(cfg.w, AfpPayload(g, e), g.proofs, cfg.epochs[e].quorum)
    ensures v in net.nodes[k].signed && v.Fp? && v.prev == g.prevBlockHash && v.epoch == e && v.creator == c &&
        v.index == i && v.hash == h
    ensures Fact(cfg, net, v)
  {
    hide Makers, StatFact, ProofsUnforged, GenuineAt, Ordered, AfpOk, Grounded, GetHash, FullId, FpPayload, ArpPayload,
         BlockId;
    v := SignerStated(cfg, net, g, e, k);
    assert NodeFacts(cfg, net, net.nodes[k]);
    assert Fact(cfg, net, v);
    assert EpochOk(cfg, e, cfg.epochs[e]) && EpochOk(cfg, v.epoch, cfg.epochs[v.epoch]);
    if v.Fp? {
      HexTextFree(v.prev, ':');
      HexTextFree(v.hash, ':');
      FpDecodes(g.prevBlockHash, e, c, i, h, e, v.prev, v.epoch, v.creator, v.index, v.hash, v.epoch);
    } else {
      FpIsNotArp(g.prevBlockHash, BlockId(e, c, i), h, e, v.creator, v.index, v.hash, v.epoch);
      assert false;
    }
  }

  lemma AGenuineVote(cfg: Config, net: Net, e: int, c: string, i: int, h: string)
      returns (g: Afp, k: string, v: Statement)
    requires ConfigOk(cfg) && Inv(cfg, net) && GenuineAt(cfg, net, e, c, i, h) && c in cfg.epochs[e].registry
    ensures Genuine(cfg, net, g, e, c, i, h)
    ensures k in cfg.honest && v in net.nodes[k].signed && Fact(cfg, net, v)
    ensures v.Fp? && v.prev == g.prevBlockHash && v.epoch == e && v.creator == c && v.index == i && v.hash == h
  {
    hide Inv, AfpUnforged, Majority, AfpPayload, BlockId;
    g :| Genuine(cfg, net, g, e, c, i, h);
    assert EpochOk(cfg, e, cfg.epochs[e]);
    var signers := ValidSigners(cfg.w, AfpPayload(g, e), g.proofs, cfg.epochs[e].quorum);
    MajorityHasHonest(cfg.epochs[e].quorum, cfg.honest, signers);
    k :| k in signers && k in cfg.honest;
    v := GenuineVote(cfg, net, g, e, c, i, h, k);
  }

  /** A signed block of an honest creator is one its generator wrote, at that index. */
  lemma HonestBlock(cfg: Config, net: Net, e: int, b: Block)
    requires ConfigOk(cfg) && Inv(cfg, net) && e in cfg.epochs
    requires b.creator in cfg.honest && BlockSigned(cfg.w, b) && BlockUnforged(cfg, net, b) &&
        b.epoch == FullId(cfg.epochs[e])
    ensures OnChain(cfg, net, b.creator, e, b.index, GetHash(cfg.w, b))
  {
    hide NodeFacts, StatFact, OwnStore, InWindow, GeneratorOk, GrabberOk, HuntOk, CacheOk, PointerOk, HashInput;
    var k, h := b.creator, GetHash(cfg.w, b);
    if Stated(net, k, h) {
      var v :| v in net.nodes[k].signed && Payload(v) == h;
      PayloadIsNoHash(v, h);
      assert false;
    }
    var f, i :| OnChain(cfg, net, k, f, i, h);
    assert Makers(cfg, net, k, net.nodes[k]);
    assert Lane(f, k).epoch in cfg.epochs;
    var chain := net.makers[Lane(f, k)].chain;
    assert IsBlock(cfg.epochs[f], k, i, HashAt(cfg.w, chain, i - 1), chain[i]);
    assert EpochOk(cfg, f, cfg.epochs[f]) && EpochOk(cfg, e, cfg.epochs[e]);
    FullIdColonFree(cfg.epochs[f]);
    FullIdColonFree(cfg.epochs[e]);
    HashFixesContent(cfg.w, chain[i], b);
    FullIdFixesEpoch(cfg.epochs[f], cfg.epochs[e]);
  }

  // ---- Actions ----

  datatype Action =
    | Vote(k: string, open: bool, window: seq<Epoch>, req: FpRequest, stage: nat)
    | Rotate(k: string, window: seq<Epoch>, rot: RotRequest)
    | TakeUpgrade(k: string, lane: Lane, local: VotingStat, reply: VotingStat)
    | TakePull(k: string, lane: Lane, best: VotingStat, reply: VotingStat)
    | SwitchOff(k: string, lane: Lane)
    | Report(k: string, lane: Lane)
    | Finish(k: string, e: int)
    | Run(lane: Lane, ev: Event)

  /** The epochs a node tracks at the moment, all of them epochs of this network. */
  predicate WindowOk(cfg: Config, window: seq<Epoch>) {
    forall ep :: ep in window ==> ep.id in cfg.epochs && cfg.epochs[ep.id] == ep
  }

  ghost predicate ReplyAllowed(cfg: Config, net: Net, lane: Lane, reply: VotingStat) {
    && lane.epoch in cfg.epochs && AfpUnforged(cfg, net, reply.afp, lane.epoch)
    && (cfg.honestReplies ==> (lane, reply) in net.replies)
  }

  predicate CanRun(cfg: Config, net: Net, lane: Lane, ev: Event) {
    && lane in net.makers && lane.creator in net.nodes && lane.epoch in cfg.epochs
    && Can(cfg.w, cfg.epochs[lane.epoch], lane.creator, net.nodes[lane.creator], net.makers[lane], ev)
  }

  /** The acting node exists and, for its own loops, the event is the one it would do next. */
  predicate CanAct(cfg: Config, net: Net, a: Action) {
    if a.Run? then CanRun(cfg, net, a.lane, a.ev) else a.k in net.nodes
  }

  /** What the environment may put in: no forged signatures, no foreign epochs. */
  ghost predicate InputOk(cfg: Config, net: Net, a: Action) {
    match a
    case Vote(_, _, window, req, _) =>
      && WindowOk(cfg, window) && BlockUnforged(cfg, net, req.block)
      && forall e :: e in cfg.epochs ==> AfpUnforged(cfg, net, req.prevAfp, e)
    case Rotate(_, window, rot) =>
      && WindowOk(cfg, window)
      && forall e :: e in cfg.epochs ==> AfpUnforged(cfg, net, rot.proposal.afp, e)
    case TakeUpgrade(_, lane, local, reply) =>
      ReplyAllowed(cfg, net, lane, reply) && UpgradeAcceptable(cfg.w, cfg.epochs[lane.epoch], local, reply)
    case TakePull(_, lane, best, reply) =>
      ReplyAllowed(cfg, net, lane, reply) && PullAcceptable(cfg.w, cfg.epochs[lane.epoch], best, reply)
    case SwitchOff(_, _) => true
    case Report(_, lane) => lane.epoch in cfg.epochs
    case Finish(_, _) => true
    case Run(lane, ev) =>
      && (ev.Crash? ==> cfg.crashes)
      && (ev.Certify? && CanRun(cfg, net, lane, ev) ==>
            AfpUnforged(cfg, net, HuntAfp(cfg.w, cfg.epochs[lane.epoch], lane.creator, net.makers[lane].hunt),
                        lane.epoch))
  }

  ghost predicate Enabled(cfg: Config, net: Net, a: Action) {
    CanAct(cfg, net, a) && InputOk(cfg, net, a)
  }

  function WithNode(net: Net, k: string, s: Node): Net { net.(nodes := net.nodes[k := s]) }

  function After(cfg: Config, net: Net, a: Action): Net
    requires CanAct(cfg, net, a)
  {
    match a
    case Vote(k, open, window, req, stage) => WithNode(net, k, VoteStep(cfg.w, net.nodes[k], open, window, req, stage))
    case Rotate(k, window, rot) => WithNode(net, k, RotationStep(cfg.w, net.nodes[k], window, rot))
    case TakeUpgrade(k, lane, _, reply) => WithNode(net, k, Raise(net.nodes[k], lane, reply))
    case TakePull(k, lane, _, reply) => WithNode(net, k, Raise(net.nodes[k], lane, reply))
    case SwitchOff(k, lane) => WithNode(net, k, Disable(net.nodes[k], lane))
    case Report(k, lane) => net.(replies := net.replies + {(lane, StatOf(net.nodes[k], lane))})
    case Finish(k, e) => WithNode(net, k, net.nodes[k].(finished := net.nodes[k].finished + {e}))
    case Run(lane, ev) =>
      var r := Do(cfg.w, cfg.epochs[lane.epoch], lane.creator, net.nodes[lane.creator], net.makers[lane], ev);
      Net(net.nodes[lane.creator := r.0], net.makers[lane := r.1], net.replies)
  }

  ghost predicate Next(cfg: Config, net: Net, net': Net) {
    exists a :: Enabled(cfg, net, a) && net' == After(cfg, net, a)
  }

  const EMPTY_NODE: Node := Node(map[], {}, map[], map[], {}, {})

  /** Every honest node starts from empty databases. */
  ghost predicate Init(cfg: Config, net: Net) {
    && Shape(cfg, net) && net.replies == {}
    && (forall k :: k in net.nodes ==> net.nodes[k] == EMPTY_NODE)
    && (forall lane :: lane in net.makers ==> net.makers[lane] == FRESH)
  }

  /** The assumptions are met by a network of one honest anchor, which can start. */
  lemma ConfigsExist() returns (cfg: Config, net: Net)
    ensures ConfigOk(cfg) && Init(cfg, net)
    ensures 0 in cfg.epochs && cfg.epochs[0].quorum == ["k"] && cfg.honest == {"k"}
  {
    var w := SoundWorldsExist();
    cfg := Config(w, map[0 := Epoch(0, INIT_HASH, ["k"], ["k"], 0)], {"k"}, true, true);
    net := Net(map["k" := EMPTY_NODE], map[Lane(0, "k") := FRESH], {});
    InitHashIsHex();
    assert FaultyCount(["k"], {"k"}) == 0 by { assert ["k"][1..] == []; }
    forall n
      ensures "k" != Itoa(n)
    {
      NatTextRoundTrip(if n < 0 then -n else n);
      assert n < 0 ==> Itoa(n)[0] == '-';
      assert n >= 0 ==> IsDigit(Itoa(n)[0]);
    }
    assert EpochOk(cfg, 0, cfg.epochs[0]);
  }

  /** A run: every state follows from the one before by some action. */
  ghost predicate IsRun(cfg: Config, run: seq<Net>) {
    run != [] && Init(cfg, run[0]) && forall i {:trigger run[i]} :: 0 < i < |run| ==> Next(cfg, run[i - 1], run[i])
  }

  // ---- Every action keeps the invariant ----

  lemma InitEstablishesInv(cfg: Config, net: Net)
    requires ConfigOk(cfg) && Init(cfg, net)
    ensures Inv(cfg, net)
  {
    hide MakerInv;
    forall k | k in cfg.honest
      ensures NodeFacts(cfg, net, net.nodes[k]) && Makers(cfg, net, k, net.nodes[k])
    {
      forall e | Lane(e, k) in net.makers
        ensures e in cfg.epochs && MakerInv(cfg.w, cfg.epochs[e], k, net.nodes[k], net.makers[Lane(e, k)], cfg.crashes)
      {
        assert Lane(e, k).epoch in cfg.epochs;
        FreshMaker(cfg.w, cfg.epochs[e], k, EMPTY_NODE, cfg.crashes);
      }
    }
  }

  /** Replacing one node's state by one that only adds true facts is safe. */
  lemma NodeUpdate(cfg: Config, net: Net, k: string, s: Node)
    requires Inv(cfg, net) && k in cfg.honest
    requires NodeFacts(cfg, net, s) && net.nodes[k].signed <= s.signed && Makers(cfg, net, k, s)
    ensures Inv(cfg, WithNode(net, k, s)) && Grows(net, WithNode(net, k, s))
  {
    hide NodeFacts, StatFact, MakerInv;
    var net' := WithNode(net, k, s);
    assert Grows(net, net');
    forall j | j in cfg.honest
      ensures NodeFacts(cfg, net', net'.nodes[j]) && Makers(cfg, net', j, net'.nodes[j])
    {
      NodeFactsGrow(cfg, net, net', net'.nodes[j]);
    }
    forall r | r in net'.replies
      ensures StatFact(cfg, net', r.0, r.1)
    {
      StatFactGrows(cfg, net, net', r.0, r.1);
    }
  }

  lemma StatsOnly(cfg: Config, net: Net, k: string, s: Node)
    requires k in net.nodes && Makers(cfg, net, k, net.nodes[k])
    requires s.blocks == net.nodes[k].blocks && s.afps == net.nodes[k].afps
    ensures Makers(cfg, net, k, s)
  {
    hide HuntOk, CacheOk, GrabberOk, GeneratorOk, Linked, PointerOk, StoredAfpOk, StoredBlockOk, InWindow;
  }

  /** A certificate with a ':'-free PrevBlockHash is genuine as it stands. */
  lemma ColonFreePrevIsGenuine(cfg: Config, net: Net, afp: Afp, e: int, c: string, i: int)
    requires ConfigOk(cfg) && Inv(cfg, net) && CertifiedAt(cfg, net, afp, e, c, i)
    requires c in cfg.epochs[e].registry && ColonFree(afp.prevBlockHash)
    ensures Genuine(cfg, net, afp, e, c, i, afp.blockHash)
  {
    hide Makers, StatFact, ProofsUnforged, GenuineAt, Ordered, AfpOk, Grounded, GetHash, FullId, FpPayload, ArpPayload,
         BlockId;
    var k, v := Speaker(cfg, net, afp, e);
    assert NodeFacts(cfg, net, net.nodes[k]);
    assert Fact(cfg, net, v);
    assert EpochOk(cfg, e, cfg.epochs[e]) && EpochOk(cfg, v.epoch, cfg.epochs[v.epoch]);
    if v.Fp? {
      HexTextFree(v.prev, ':');
      HexTextFree(v.hash, ':');
      FpDecodes(afp.prevBlockHash, e, c, i, afp.blockHash, e, v.prev, v.epoch, v.creator, v.index, v.hash, v.epoch);
    } else {
      ColonFreePrevIsNotArp(afp.prevBlockHash, e, c, i, afp.blockHash, v.creator, v.index, v.hash, v.epoch);
      assert false;
    }
  }

  /** A certificate for an honest creator's slot matches the block it wrote there. */
  lemma HonestCertificate(cfg: Config, net: Net, afp: Afp, e: int, c: string, i: int)
    requires ConfigOk(cfg) && Inv(cfg, net) && CertifiedAt(cfg, net, afp, e, c, i)
    requires c in cfg.epochs[e].registry && c in cfg.honest
    ensures Lane(e, c) in net.makers && StoredAfpOk(cfg.w, cfg.epochs[e], c, net.makers[Lane(e, c)].chain, i, afp)
  {
    hide Inv, GenuineAt, AfpOk, AfpUnforged, GetHash, FullId, BlockId, HexText;
    assert EpochOk(cfg, e, cfg.epochs[e]);
    CertifiedIsGenuine(cfg, net, afp, e, c, i);
    var g, k, v := AGenuineVote(cfg, net, e, c, i, afp.blockHash);
    if ColonFree(afp.prevBlockHash) {
      ColonFreePrevIsGenuine(cfg, net, afp, e, c, i);
      HonestPrev(cfg, net, afp, e, c, i);
    }
  }

  /** An honest creator's certificate names the hash its block names. */
  lemma HonestPrev(cfg: Config, net: Net, afp: Afp, e: int, c: string, i: int)
    requires ConfigOk(cfg) && Inv(cfg, net) && Genuine(cfg, net, afp, e, c, i, afp.blockHash)
    requires c in cfg.epochs[e].registry && c in cfg.honest
    ensures Lane(e, c) in net.makers && 0 <= i < |net.makers[Lane(e, c)].chain|
    ensures afp.prevBlockHash == net.makers[Lane(e, c)].chain[i].prevHash
  {
    hide Inv, ConfigOk, Genuine, GenuineAt, GetHash, FullId, HexText, HashAt;
    var v := VoteOfCertificate(cfg, net, afp, e, c, i);
    NamesPredecessor(cfg, net, e, c, i);
    if i > 0 {
      var g, k, u := AGenuineVote(cfg, net, e, c, i - 1, v.prev);
      HashAtIs(cfg.w, net.makers[Lane(e, c)].chain, i - 1);
    } else {
      HashAtIs(cfg.w, net.makers[Lane(e, c)].chain, -1);
    }
  }

  lemma HashAtIs(w: World, chain: seq<Block>, i: int)
    requires -1 <= i < |chain|
    ensures HashAt(w, chain, i) == if i == -1 then INIT_HASH else GetHash(w, chain[i])
  {
    hide GetHash;
  }

  /** Each block of an honest creator names the hash of the one before. */
  lemma NamesPredecessor(cfg: Config, net: Net, e: int, c: string, i: int)
    requires Inv(cfg, net) && Lane(e, c) in net.makers && 0 <= i < |net.makers[Lane(e, c)].chain|
    ensures net.makers[Lane(e, c)].chain[i].prevHash == HashAt(cfg.w, net.makers[Lane(e, c)].chain, i - 1)
  {
    hide Inv, HashAt, OwnStore, InWindow, GeneratorOk, GrabberOk, HuntOk, CacheOk, PointerOk, FullId;
    MakerOf(cfg, net, Lane(e, c));
    var chain := net.makers[Lane(e, c)].chain;
    assert IsBlock(cfg.epochs[e], c, i, HashAt(cfg.w, chain, i - 1), chain[i]);
  }

  /** An honest vote behind a genuine certificate, carrying its very PrevBlockHash. */
  lemma VoteOfCertificate(cfg: Config, net: Net, g: Afp, e: int, c: string, i: int) returns (v: Statement)
    requires ConfigOk(cfg) && Inv(cfg, net) && Genuine(cfg, net, g, e, c, i, g.blockHash) && c in cfg.epochs[e].registry
    ensures v.Fp? && v.prev == g.prevBlockHash && v.epoch == e && v.creator == c && v.index == i &&
        v.hash == g.blockHash
    ensures Fact(cfg, net, v)
  {
    hide Inv, AfpUnforged, Majority, AfpPayload, BlockId;
    assert EpochOk(cfg, e, cfg.epochs[e]);
    var signers := ValidSigners(cfg.w, AfpPayload(g, e), g.proofs, cfg.epochs[e].quorum);
    MajorityHasHonest(cfg.epochs[e].quorum, cfg.honest, signers);
    var k :| k in signers && k in cfg.honest;
    v := GenuineVote(cfg, net, g, e, c, i, g.blockHash, k);
  }

  lemma TemplateFact(cfg: Config, net: Net, lane: Lane)
    requires lane.epoch in cfg.epochs
    ensures StatFact(cfg, net, lane, TEMPLATE)
  {
    InitHashIsHex();
    HexTextFree(INIT_HASH, ':');
    ColonFreeIsGrounded(cfg, net, lane.epoch, INIT_HASH);
  }

  lemma StatOfFact(cfg: Config, net: Net, s: Node, lane: Lane)
    requires NodeFacts(cfg, net, s) && lane.epoch in cfg.epochs
    ensures StatFact(cfg, net, lane, StatOf(s, lane))
  {
    TemplateFact(cfg, net, lane);
  }

  ghost predicate VoteInput(cfg: Config, net: Net, k: string, ep: Epoch, req: FpRequest) {
    && ConfigOk(cfg) && Inv(cfg, net) && k in cfg.honest
    && ep.id in cfg.epochs && cfg.epochs[ep.id] == ep && req.block.epoch == FullId(ep)
    && BlockUnforged(cfg, net, req.block) && AfpUnforged(cfg, net, req.prevAfp, ep.id)
    && MayVote(cfg.w, net.nodes[k], ep, req)
  }

  /** What an honest node states when it votes is true. */
  lemma VoteFact(cfg: Config, net: Net, k: string, ep: Epoch, req: FpRequest)
    requires VoteInput(cfg, net, k, ep, req)
    ensures Fact(cfg, net, FpStatement(cfg.w, ep, req))
  {
    hide Makers, StatFact, AfpOk, FullId, BlockId, GetHash, AfpUnforged, GenuineAt, BlockSigned, BlockUnforged;
    var b := req.block;
    assert NodeFacts(cfg, net, net.nodes[k]);
    assert Ordered(net.nodes[k], Lane(ep.id, b.creator));
    VotedIndexIsNatural(cfg.w, net.nodes[k], ep, req);
    InitHashIsHex();
    HashIsHex(cfg.w, b);
    if b.index > 0 {
      CertifiedIsGenuine(cfg, net, req.prevAfp, ep.id, b.creator, b.index - 1);
      GenuineIsHex(cfg, net, ep.id, b.creator, b.index - 1, req.prevAfp.blockHash);
    }
    if b.creator in cfg.honest {
      HonestBlock(cfg, net, ep.id, b);
    }
  }

  lemma HashIsHex(w: World, b: Block)
    requires Sound(w)
    ensures HexText(GetHash(w, b))
  {
    hide HashInput, HexText;
  }

  lemma GenuineIsHex(cfg: Config, net: Net, e: int, c: string, i: int, h: string)
    requires GenuineAt(cfg, net, e, c, i, h)
    ensures HexText(h)
  {
  }

  lemma VoteStatFact(cfg: Config, net: Net, k: string, ep: Epoch, req: FpRequest)
    requires VoteInput(cfg, net, k, ep, req)
    ensures StatFact(cfg, net, Lane(ep.id, req.block.creator), NextStat(net.nodes[k], ep, req))
  {
    hide Makers, AfpOk, FullId, BlockId, GetHash, AfpUnforged, GenuineAt, BlockSigned, BlockUnforged, Grounded;
    var b, lane := req.block, Lane(ep.id, req.block.creator);
    assert NodeFacts(cfg, net, net.nodes[k]);
    assert Ordered(net.nodes[k], lane);
    StatOfFact(cfg, net, net.nodes[k], lane);
    TemplateFact(cfg, net, lane);
    if b.index != 0 {
      HashGrounded(cfg, net, req.prevAfp, ep.id);
      CertifiedIsGenuine(cfg, net, req.prevAfp, ep.id, b.creator, b.index - 1);
    }
  }

  /** Handling a vote on the node's own block leaves its chain as the generator wrote it. */
  lemma VoteKeepsMakers(cfg: Config, net: Net, k: string, ep: Epoch, req: FpRequest, stage: nat)
    requires VoteInput(cfg, net, k, ep, req)
    ensures Makers(cfg, net, k, VoteUpTo(cfg.w, net.nodes[k], ep, req, stage))
  {
    hide NodeFacts, StatFact, AfpOk, BlockId, GetHash, AfpUnforged, BlockSigned, BlockUnforged, MakerInv, NextStat,
         FpStatement, FullId;
    var b, s := req.block, net.nodes[k];
    var s' := VoteUpTo(cfg.w, s, ep, req, stage);
    forall e | Lane(e, k) in net.makers
      ensures e in cfg.epochs && MakerInv(cfg.w, cfg.epochs[e], k, s', net.makers[Lane(e, k)], cfg.crashes)
    {
      assert Lane(e, k).epoch in cfg.epochs;
      assert EpochOk(cfg, e, cfg.epochs[e]);
      assert Makers(cfg, net, k, s);
      if b.creator == k && ep.id == e {
        VoteKeepsOwnStore(cfg, net, k, ep, req, stage);
      } else {
        ElsewhereKeepsOwnStore(cfg.w, cfg.epochs[e], k, s, s', net.makers[Lane(e, k)], cfg.crashes);
      }
      OtherWritesKeepInv(cfg.w, cfg.epochs[e], k, s, s', net.makers[Lane(e, k)], cfg.crashes);
    }
  }

  /** The databases agree on every own slot of this maker. */
  ghost predicate SameOwnSlots(ep: Epoch, me: string, s: Node, s': Node) {
    forall i {:trigger Slot(ep.id, me, i)} :: var slot := Slot(ep.id, me, i);
      && (slot in s.blocks <==> slot in s'.blocks) && (slot in s.blocks ==> s.blocks[slot] == s'.blocks[slot])
      && (slot in s.afps <==> slot in s'.afps) && (slot in s.afps ==> s.afps[slot] == s'.afps[slot])
  }

  lemma ElsewhereKeepsOwnStore(w: World, ep: Epoch, me: string, s: Node, s': Node, m: Maker, crashes: bool)
    requires MakerInv(w, ep, me, s, m, crashes) && SameOwnSlots(ep, me, s, s')
    ensures OwnStore(w, ep, me, s', m.chain, CertifiedUpTo(m))
  {
    hide StoredAfpOk, StoredBlockOk, Linked, InWindow, GeneratorOk, GrabberOk, HuntOk, CacheOk, PointerOk;
  }

  lemma AgreeingWrites(w: World, ep: Epoch, me: string, s: Node, s': Node, chain: seq<Block>, certified: int, i: int,
                       b: Block, afp: Afp)
    requires OwnStore(w, ep, me, s, chain, certified)
    requires StoredBlockOk(w, chain, i, b) && (i != 0 ==> StoredAfpOk(w, ep, me, chain, i - 1, afp))
    requires s'.blocks == s.blocks || s'.blocks == s.blocks[Slot(ep.id, me, i) := b]
    requires s'.afps == s.afps || (i != 0 && s'.afps == s.afps[Slot(ep.id, me, i - 1) := afp])
    ensures OwnStore(w, ep, me, s', chain, certified)
  {
    hide StoredAfpOk, StoredBlockOk;
  }

  lemma VoteKeepsOwnStore(cfg: Config, net: Net, k: string, ep: Epoch, req: FpRequest, stage: nat)
    requires VoteInput(cfg, net, k, ep, req) && req.block.creator == k && Lane(ep.id, k) in net.makers
    ensures OwnStore(cfg.w, ep, k, VoteUpTo(cfg.w, net.nodes[k], ep, req, stage), net.makers[Lane(ep.id, k)].chain,
                     CertifiedUpTo(net.makers[Lane(ep.id, k)]))
  {
    hide NodeFacts, StatFact, AfpOk, BlockId, GetHash, AfpUnforged, BlockSigned, BlockUnforged, NextStat, FpStatement,
         FullId,
         StoredAfpOk, Linked, InWindow, GeneratorOk, GrabberOk, HuntOk, CacheOk, PointerOk, OwnStore;
    var b, s, m := req.block, net.nodes[k], net.makers[Lane(ep.id, k)];
    assert Makers(cfg, net, k, s);
    HonestBlock(cfg, net, ep.id, b);
    if b.index != 0 {
      HonestCertificate(cfg, net, req.prevAfp, ep.id, k, b.index - 1);
    }
    AgreeingWrites(cfg.w, ep, k, s, VoteUpTo(cfg.w, s, ep, req, stage), m.chain, CertifiedUpTo(m), b.index, b,
                   req.prevAfp);
  }

  lemma VoteStepKeeps(cfg: Config, net: Net, a: Action)
    requires ConfigOk(cfg) && Inv(cfg, net) && a.Vote? && Enabled(cfg, net, a)
    ensures Inv(cfg, After(cfg, net, a)) && Grows(net, After(cfg, net, a))
  {
    hide Inv, Fact, StatFact, AfpOk, BlockId, GetHash, AfpUnforged, BlockSigned, BlockUnforged, NextStat, FpStatement,
         FullId, MayVote, Ordered, Grows, Makers;
    ActorIsHonest(cfg, net, a);
    NodeOf(cfg, net, a.k);
    var s, found := net.nodes[a.k], FindEpoch(a.window, a.req.block.epoch);
    if a.open && found.Some? && MayVote(cfg.w, s, found.value, a.req) {
      var ep := found.value;
      var s' := VoteUpTo(cfg.w, s, ep, a.req, a.stage);
      VoteFact(cfg, net, a.k, ep, a.req);
      VoteStatFact(cfg, net, a.k, ep, a.req);
      VoteKeepsMakers(cfg, net, a.k, ep, a.req, a.stage);
      forall lane
        ensures Ordered(s', lane)
      {
        VoteKeepsOrder(cfg.w, s, ep, a.req, a.stage, lane);
      }
      NodeUpdate(cfg, net, a.k, s');
    } else {
      NodeUpdate(cfg, net, a.k, s);
    }
  }

  lemma ActorIsHonest(cfg: Config, net: Net, a: Action)
    requires Inv(cfg, net) && CanAct(cfg, net, a) && !a.Run?
    ensures a.k in cfg.honest
  {
    hide NodeFacts, Makers;
  }

  lemma NodeOf(cfg: Config, net: Net, k: string)
    requires Inv(cfg, net) && k in cfg.honest
    ensures k in net.nodes && NodeFacts(cfg, net, net.nodes[k]) && Makers(cfg, net, k, net.nodes[k])
  {
    hide NodeFacts, Makers;
  }

  /** A rotation statement an honest node signs is true. */
  lemma RotationFact(cfg: Config, net: Net, k: string, window: seq<Epoch>, rot: RotRequest)
    requires ConfigOk(cfg) && Inv(cfg, net) && Enabled(cfg, net, Rotate(k, window, rot))
    requires RotationReply(cfg.w, net.nodes[k], window, rot).Signed?
    ensures Fact(cfg, net, RotationReply(cfg.w, net.nodes[k], window, rot).statement)
  {
    hide Inv, Makers, Fact, AfpOk, AfpUnforged, GenuineAt, Grounded;
    ActorIsHonest(cfg, net, Rotate(k, window, rot));
    NodeOf(cfg, net, k);
    var s, lane := net.nodes[k], Lane(rot.epochIndex, rot.forAnchor);
    var ep := FindEpochById(window, rot.epochIndex).value;
    assert Ordered(s, lane);
    if rot.proposal.index == StatOf(s, lane).index {
      StatOfFact(cfg, net, s, lane);
    } else {
      ProposalIsGenuine(cfg, net, ep, rot);
    }
    ArpFactFrom(cfg, net, RotationReply(cfg.w, s, window, rot).statement);
  }

  lemma ArpFactFrom(cfg: Config, net: Net, v: Statement)
    requires v.Arp? && v.epoch in cfg.epochs && v.creator in cfg.epochs[v.epoch].registry &&
        Grounded(cfg, net, v.epoch, v.hash)
    requires v.index < 0 ==> v.hash == INIT_HASH
    requires cfg.honestReplies && v.index >= 0 ==> GenuineAt(cfg, net, v.epoch, v.creator, v.index, v.hash)
    ensures Fact(cfg, net, v)
  {
    hide Grounded, GenuineAt;
  }

  /** A proposal ahead of the local stat is accepted only with a certificate for this very
      creator and index, however its numerals are spelled. */
  lemma ProposalIsGenuine(cfg: Config, net: Net, ep: Epoch, rot: RotRequest)
    requires ConfigOk(cfg) && Inv(cfg, net) && ep.id in cfg.epochs && cfg.epochs[ep.id] == ep && ep.id == rot.epochIndex
    requires rot.forAnchor in ep.registry && AfpUnforged(cfg, net, rot.proposal.afp, ep.id) &&
        AfpOk(cfg.w, rot.proposal.afp, ep)
    requires var parts := Split(rot.proposal.afp.blockId);
             |parts| == 3 && parts[1] == rot.forAnchor && Atoi(parts[2]) == Some(rot.proposal.index)
    ensures Grounded(cfg, net, ep.id, rot.proposal.afp.blockHash)
    ensures GenuineAt(cfg, net, ep.id, rot.forAnchor, rot.proposal.index, rot.proposal.afp.blockHash)
  {
    hide Inv, AfpOk, AfpUnforged, GenuineAt, Grounded;
    var afp := rot.proposal.afp;
    HashGrounded(cfg, net, afp, ep.id);
    IdGrounded(cfg, net, afp, ep.id);
    var i :| Split(afp.blockId)[2] == Itoa(i) && GenuineAt(cfg, net, ep.id, rot.forAnchor, i, afp.blockHash);
    AtoiOfItoa(i);
  }

  lemma RotateStepKeeps(cfg: Config, net: Net, a: Action)
    requires ConfigOk(cfg) && Inv(cfg, net) && a.Rotate? && Enabled(cfg, net, a)
    ensures Inv(cfg, After(cfg, net, a)) && Grows(net, After(cfg, net, a))
  {
    hide Inv, Fact, StatFact, RotationReply, Ordered, Grows, Makers, AfpUnforged;
    ActorIsHonest(cfg, net, a);
    NodeOf(cfg, net, a.k);
    var s := net.nodes[a.k];
    var s' := RotationStep(cfg.w, s, a.window, a.rot);
    if RotationReply(cfg.w, s, a.window, a.rot).Signed? {
      RotationFact(cfg, net, a.k, a.window, a.rot);
    }
    forall lane
      ensures Ordered(s', lane)
    {
      RotationKeepsOrder(cfg.w, s, a.window, a.rot, lane);
    }
    StatsOnly(cfg, net, a.k, s');
    NodeUpdate(cfg, net, a.k, s');
  }

  /** Storing a larger stat, from whoever it came, keeps every fact. */
  lemma RaiseKeeps(cfg: Config, net: Net, k: string, lane: Lane, reply: VotingStat)
    requires ConfigOk(cfg) && Inv(cfg, net) && k in cfg.honest && ReplyAllowed(cfg, net, lane, reply)
    requires AfpOk(cfg.w, reply.afp, cfg.epochs[lane.epoch]) && reply.hash == reply.afp.blockHash
    ensures Inv(cfg, WithNode(net, k, Raise(net.nodes[k], lane, reply)))
    ensures Grows(net, WithNode(net, k, Raise(net.nodes[k], lane, reply)))
  {
    hide Fact, Ordered, Grows, Makers, AfpUnforged, AfpOk, GenuineAt, Grounded, NamesItsBlock, NodeFacts;
    var s := net.nodes[k];
    var s' := Raise(s, lane, reply);
    NodeOf(cfg, net, k);
    HashGrounded(cfg, net, reply.afp, lane.epoch);
    if cfg.honestReplies {
      assert StatFact(cfg, net, (lane, reply).0, (lane, reply).1);
    }
    RaiseFacts(cfg, net, s, lane, reply);
    StatsOnly(cfg, net, k, s');
    NodeUpdate(cfg, net, k, s');
  }

  lemma RaiseFacts(cfg: Config, net: Net, s: Node, at: Lane, stat: VotingStat)
    requires NodeFacts(cfg, net, s) && StatFact(cfg, net, at, stat)
    ensures NodeFacts(cfg, net, Raise(s, at, stat))
  {
    hide Fact, StatFact, Ordered;
    forall lane
      ensures Ordered(Raise(s, at, stat), lane)
    {
      RaiseKeepsOrder(s, at, stat, lane);
    }
  }

  lemma SwitchOffKeeps(cfg: Config, net: Net, a: Action)
    requires Inv(cfg, net) && (a.SwitchOff? || a.Finish?) && Enabled(cfg, net, a)
    ensures Inv(cfg, After(cfg, net, a)) && Grows(net, After(cfg, net, a))
  {
    hide Inv, Fact, StatFact, Grows, Makers;
    ActorIsHonest(cfg, net, a);
    var s' := After(cfg, net, a).nodes[a.k];
    NodeOf(cfg, net, a.k);
    forall lane
      ensures Ordered(s', lane)
    {
      assert Ordered(net.nodes[a.k], lane);
    }
    StatsOnly(cfg, net, a.k, s');
    NodeUpdate(cfg, net, a.k, s');
  }

  lemma ReportKeeps(cfg: Config, net: Net, k: string, lane: Lane)
    requires Inv(cfg, net) && Enabled(cfg, net, Report(k, lane))
    ensures Inv(cfg, After(cfg, net, Report(k, lane))) && Grows(net, After(cfg, net, Report(k, lane)))
  {
    hide NodeFacts, StatFact, MakerInv, StatOf;
    var net' := After(cfg, net, Report(k, lane));
    StatOfFact(cfg, net, net.nodes[k], lane);
    forall j | j in cfg.honest
      ensures NodeFacts(cfg, net', net'.nodes[j]) && Makers(cfg, net', j, net'.nodes[j])
    {
      NodeFactsGrow(cfg, net, net', net'.nodes[j]);
      assert Makers(cfg, net, j, net.nodes[j]);
    }
    forall r | r in net'.replies
      ensures StatFact(cfg, net', r.0, r.1)
    {
      StatFactGrows(cfg, net, net', r.0, r.1);
    }
  }

  lemma DoStaysInOwnSlots(w: World, ep: Epoch, me: string, n: Node, m: Maker, ev: Event)
    requires Can(w, ep, me, n, m, ev)
    ensures var n' := Do(w, ep, me, n, m, ev).0;
            n'.signed == n.signed && n'.stats == n.stats && n'.disabled == n.disabled
    ensures forall other: Epoch {:trigger SameOwnSlots(other, me, n, Do(w, ep, me, n, m, ev).0)} ::
        other.id != ep.id ==>
              SameOwnSlots(other, me, n, Do(w, ep, me, n, m, ev).0)
  {
    hide HuntAfp, AfpPayload, GetHash, AfterBuild, AfterBump, AfterWrite, AfterStart, AfterCollect, AfterAdvance,
         AfterCrash, ReplyOk, Majority, HuntedSlot, PointerHits;
  }

  lemma SameVoterFacts(cfg: Config, net: Net, s: Node, s': Node)
    requires NodeFacts(cfg, net, s) && s'.signed == s.signed && s'.stats == s.stats && s'.disabled == s.disabled
    ensures NodeFacts(cfg, net, s')
  {
    hide Fact, StatFact;
    forall lane
      ensures Ordered(s', lane)
    {
      assert Ordered(s, lane);
    }
  }

  /** Replacing one maker and its node, with nothing newly signed, is safe. */
  lemma MakerUpdate(cfg: Config, net: Net, net': Net, lane: Lane)
    requires Inv(cfg, net) && lane in net.makers && lane.creator in cfg.honest
    requires lane in net'.makers && net.makers[lane].chain <= net'.makers[lane].chain
    requires lane.creator in net'.nodes && net'.nodes[lane.creator].signed == net.nodes[lane.creator].signed
    requires net' == Net(net.nodes[lane.creator := net'.nodes[lane.creator]], net.makers[lane := net'.makers[lane]],
                         net.replies)
    requires NodeFacts(cfg, net, net'.nodes[lane.creator]) && Makers(cfg, net', lane.creator, net'.nodes[lane.creator])
    ensures Inv(cfg, net') && Grows(net, net')
  {
    hide NodeFacts, StatFact, MakerInv;
    assert Grows(net, net');
    forall j | j in cfg.honest
      ensures NodeFacts(cfg, net', net'.nodes[j]) && Makers(cfg, net', j, net'.nodes[j])
    {
      NodeOf(cfg, net, j);
      NodeFactsGrow(cfg, net, net', net'.nodes[j]);
      if j != lane.creator {
        assert Makers(cfg, net, j, net.nodes[j]);
        assert forall e :: Lane(e, j) != lane;
      }
    }
    forall r | r in net'.replies
      ensures StatFact(cfg, net', r.0, r.1)
    {
      StatFactGrows(cfg, net, net', r.0, r.1);
    }
  }

  lemma RunStepKeeps(cfg: Config, net: Net, lane: Lane, ev: Event)
    requires ConfigOk(cfg) && Inv(cfg, net) && Enabled(cfg, net, Run(lane, ev))
    ensures Inv(cfg, After(cfg, net, Run(lane, ev))) && Grows(net, After(cfg, net, Run(lane, ev)))
  {
    hide NodeFacts, StatFact, MakerInv, Do, Can, Grows, Makers, SameOwnSlots;
    var net' := After(cfg, net, Run(lane, ev));
    var me, n, m := lane.creator, net.nodes[lane.creator], net.makers[lane];
    var ep := cfg.epochs[lane.epoch];
    NodeOf(cfg, net, me);
    MakerOf(cfg, net, lane);
    EventKeepsInv(cfg.w, ep, me, n, m, ev, cfg.crashes);
    DoStaysInOwnSlots(cfg.w, ep, me, n, m, ev);
    SameVoterFacts(cfg, net, n, net'.nodes[me]);
    assert EpochOk(cfg, lane.epoch, ep);
    OtherMakersKeep(cfg, net, net', lane);
    MakerUpdate(cfg, net, net', lane);
  }

  lemma MakerOf(cfg: Config, net: Net, lane: Lane)
    requires Inv(cfg, net) && lane in net.makers
    ensures lane.creator in net.nodes && lane.epoch in cfg.epochs
    ensures MakerInv(cfg.w, cfg.epochs[lane.epoch], lane.creator, net.nodes[lane.creator], net.makers[lane],
                     cfg.crashes)
  {
    hide NodeFacts, MakerInv;
    assert Makers(cfg, net, lane.creator, net.nodes[lane.creator]);
    assert lane == Lane(lane.epoch, lane.creator);
  }

  /** An event of one epoch's loops is invisible to the node's loops for other epochs. */
  lemma OtherMakersKeep(cfg: Config, net: Net, net': Net, lane: Lane)
    requires ConfigOk(cfg) && Shape(cfg, net) && lane in net.makers && lane.creator in net.nodes &&
        lane.creator in net'.nodes
    requires Makers(cfg, net, lane.creator, net.nodes[lane.creator])
    requires lane in net'.makers && net'.makers == net.makers[lane := net'.makers[lane]]
    requires MakerInv(cfg.w, cfg.epochs[lane.epoch], lane.creator, net'.nodes[lane.creator], net'.makers[lane],
                      cfg.crashes)
    requires forall other: Epoch :: other.id != lane.epoch ==>
        SameOwnSlots(other, lane.creator, net.nodes[lane.creator], net'.nodes[lane.creator])
    ensures Makers(cfg, net', lane.creator, net'.nodes[lane.creator])
  {
    hide MakerInv, SameOwnSlots, OwnStore;
    var k, s, s' := lane.creator, net.nodes[lane.creator], net'.nodes[lane.creator];
    forall e | Lane(e, k) in net'.makers
      ensures e in cfg.epochs && MakerInv(cfg.w, cfg.epochs[e], k, s', net'.makers[Lane(e, k)], cfg.crashes)
    {
      assert Lane(e, k).epoch in cfg.epochs;
      if e != lane.epoch {
        assert EpochOk(cfg, e, cfg.epochs[e]);
        var m := net.makers[Lane(e, k)];
        ElsewhereKeepsOwnStore(cfg.w, cfg.epochs[e], k, s, s', m, cfg.crashes);
        OtherWritesKeepInv(cfg.w, cfg.epochs[e], k, s, s', m, cfg.crashes);
      }
    }
  }

  /** Every action of every node, honest or not, keeps the invariant. */
  lemma ActionKeepsInv(cfg: Config, net: Net, a: Action)
    requires ConfigOk(cfg) && Inv(cfg, net) && Enabled(cfg, net, a)
    ensures Inv(cfg, After(cfg, net, a)) && Grows(net, After(cfg, net, a))
  {
    hide Inv, ConfigOk, Grows;
    if !a.Run? { ActorIsHonest(cfg, net, a); }
    match a
    case Vote(_, _, _, _, _) => VoteStepKeeps(cfg, net, a);
    case Rotate(_, _, _) => RotateStepKeeps(cfg, net, a);
    case TakeUpgrade(k, lane, local, reply) => RaiseKeeps(cfg, net, k, lane, reply);
    case TakePull(k, lane, best, reply) => RaiseKeeps(cfg, net, k, lane, reply);
    case SwitchOff(_, _) => SwitchOffKeeps(cfg, net, a);
    case Finish(_, _) => SwitchOffKeeps(cfg, net, a);
    case Report(k, lane) => ReportKeeps(cfg, net, k, lane);
    case Run(lane, ev) => RunStepKeeps(cfg, net, lane, ev);
  }

  lemma {:induction false} RunKeepsInv(cfg: Config, run: seq<Net>, i: nat)
    requires ConfigOk(cfg) && IsRun(cfg, run) && i < |run|
    ensures Inv(cfg, run[i])
  {
    hide Inv, ConfigOk, After, CanAct, InputOk;
    if i == 0 {
      InitEstablishesInv(cfg, run[0]);
    } else {
      RunKeepsInv(cfg, run, i - 1);
      assert Next(cfg, run[i - 1], run[i]);
      var a :| Enabled(cfg, run[i - 1], a) && run[i] == After(cfg, run[i - 1], a);
      ActionKeepsInv(cfg, run[i - 1], a);
    }
  }

  /** Over a whole run nothing signed or published is taken back. */
  lemma {:induction false} RunGrows(cfg: Config, run: seq<Net>, i: nat, j: nat)
    requires ConfigOk(cfg) && IsRun(cfg, run) && i <= j < |run|
    ensures Grows(run[i], run[j])
    decreases j
  {
    hide Inv, ConfigOk, After, CanAct, InputOk;
    if i < j {
      RunGrows(cfg, run, i, j - 1);
      RunKeepsInv(cfg, run, j - 1);
      assert Next(cfg, run[j - 1], run[j]);
      var a :| Enabled(cfg, run[j - 1], a) && run[j] == After(cfg, run[j - 1], a);
      ActionKeepsInv(cfg, run[j - 1], a);
    }
  }
}
