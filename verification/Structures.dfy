/** The records the nodes exchange and store, and the two library functions they rest on. */
module Structures {
  import opened Text

  /** The all-purpose "no previous block" hash, fixed in the sources. */
  const HEX_DIGITS: string := "0123456789abcdef"
  const INIT_HASH: string := HEX_DIGITS + HEX_DIGITS + HEX_DIGITS + HEX_DIGITS

  datatype Afp = Afp(prevBlockHash: string, blockId: string, blockHash: string, proofs: map<string, string>)

  datatype VotingStat = VotingStat(index: int, hash: string, afp: Afp)

  datatype Aarp = Aarp(epochIndex: int, anchor: string, votingStat: VotingStat, signatures: map<string, string>)

  datatype Alfp = Alfp(epochIndex: int, leader: string, votingStat: VotingStat, signatures: map<string, string>)

  /** Extra block data; None stands for Go's nil slice or nil map. */
  datatype ExtraData = ExtraData(aarps: Option<seq<Aarp>>, alfps: Option<seq<Alfp>>, rest: Option<map<string, string>>)
  {
    function Aarps(): seq<Aarp> { if aarps.Some? then aarps.value else [] }
    function Alfps(): seq<Alfp> { if alfps.Some? then alfps.value else [] }
    function Rest(): map<string, string> { if rest.Some? then rest.value else map[] }
  }

  datatype Block = Block(creator: string, time: int, epoch: string, extra: ExtraData,
                         index: int, prevHash: string, sig: string)

  datatype Epoch = Epoch(id: int, hash: string, registry: seq<string>, quorum: seq<string>, start: nat)

  const EMPTY_AFP: Afp := Afp("", "", "", map[])

  /** structures.NewVotingStatTemplate: nothing approved yet. */
  const TEMPLATE: VotingStat := VotingStat(-1, INIT_HASH, EMPTY_AFP)

  /** What the code takes from its surroundings: the network name, Ed25519 verification
      (message, key, signature), Blake3 and the JSON text of the extra data. */
  datatype World = World(networkId: string,
                         verify: (string, string, string) -> bool,
                         blake3: string -> string,
                         extraText: ExtraData -> string)

  predicate HexText(s: string) {
    s != [] && forall i :: 0 <= i < |s| ==> IsDigit(s[i]) || 'a' <= s[i] <= 'f'
  }

  /** The assumptions on the libraries: Blake3 is injective, prints lower-case hex and never
      hits the fixed initial hash; a JSON object text is never a proper prefix of another. */
  ghost predicate Sound(w: World) {
    && (forall s, t :: w.blake3(s) == w.blake3(t) ==> s == t)
    && (forall s :: HexText(w.blake3(s)) && w.blake3(s) != INIT_HASH)
    && (forall x, y :: w.extraText(x) <= w.extraText(y) ==> w.extraText(x) == w.extraText(y))
  }

  function FullId(ep: Epoch): string { ep.hash + "#" + Itoa(ep.id) }

  /** The text whose Blake3 is a block's hash (block.Sig is not part of it). */
  function HashInput(w: World, b: Block): string {
    b.creator + ":" + (Itoa(b.time) + ":" + (w.networkId + ":" + (b.epoch + ":" +
    (w.extraText(b.extra) + ":" + (Itoa(b.index) + ":" + b.prevHash)))))
  }

  function GetHash(w: World, b: Block): string { w.blake3(HashInput(w, b)) }

  predicate BlockSigned(w: World, b: Block) { w.verify(GetHash(w, b), b.creator, b.sig) }

  /** Equal in everything the hash covers. */
  predicate SameContent(w: World, b: Block, b': Block) {
    && b.creator == b'.creator && b.time == b'.time && b.epoch == b'.epoch
    && w.extraText(b.extra) == w.extraText(b'.extra)
    && b.index == b'.index && b.prevHash == b'.prevHash
  }

  lemma InitHashIsHex()
    ensures HexText(INIT_HASH) && INIT_HASH[0] == '0'
  {
    assert HexText(HEX_DIGITS) && HEX_DIGITS[0] == '0';
  }

  lemma HexTextFree(s: string, sep: char)
    requires HexText(s) && !IsDigit(sep) && !('a' <= sep <= 'f')
    ensures Free(sep, s)
  {
  }

  lemma SelfDelimiting(w: World, x: ExtraData, s: string, y: ExtraData, t: string)
    requires Sound(w)
    requires w.extraText(x) + s == w.extraText(y) + t
    ensures w.extraText(x) == w.extraText(y) && s == t
  {
    var a, b := w.extraText(x), w.extraText(y);
    assert (a + s)[..|a|] == a && (b + t)[..|b|] == b;
    assert a <= b || b <= a;
    assert s == (a + s)[|a|..] && t == (b + t)[|b|..];
  }

  /** Blocks with the same hash agree on every hashed field, whatever their PrevHash and
      extra data contain, as long as creator and epoch id hold no ':'. */
  lemma HashFixesContent(w: World, b: Block, b': Block)
    requires Sound(w)
    requires ColonFree(b.creator) && ColonFree(b'.creator) && ColonFree(b.epoch) && ColonFree(b'.epoch)
    ensures GetHash(w, b) == GetHash(w, b') <==> SameContent(w, b, b')
  {
    if GetHash(w, b) == GetHash(w, b') {
      var p, p' := Itoa(b.index) + ":" + b.prevHash, Itoa(b'.index) + ":" + b'.prevHash;
      var e, e' := w.extraText(b.extra) + ":" + p, w.extraText(b'.extra) + ":" + p';
      var n, n' := b.epoch + ":" + e, b'.epoch + ":" + e';
      var t, t' := w.networkId + ":" + n, w.networkId + ":" + n';
      var c, c' := Itoa(b.time) + ":" + t, Itoa(b'.time) + ":" + t';
      PeelLeft(':', b.creator, c, b'.creator, c');
      ItoaColonFree(b.time);
      ItoaColonFree(b'.time);
      PeelLeft(':', Itoa(b.time), t, Itoa(b'.time), t');
      ItoaInjective(b.time, b'.time);
      assert n == t[|w.networkId| + 1..] && n' == t'[|w.networkId| + 1..];
      PeelLeft(':', b.epoch, e, b'.epoch, e');
      assert w.extraText(b.extra) + (":" + p) == e && w.extraText(b'.extra) + (":" + p') == e';
      SelfDelimiting(w, b.extra, ":" + p, b'.extra, ":" + p');
      assert p == (":" + p)[1..] && p' == (":" + p')[1..];
      ItoaColonFree(b.index);
      ItoaColonFree(b'.index);
      PeelLeft(':', Itoa(b.index), b.prevHash, Itoa(b'.index), b'.prevHash);
      ItoaInjective(b.index, b'.index);
    }
  }

  /** The network name is part of the hash: no block has one hash in two networks. */
  lemma NetworksDiffer(w: World, name: string, b: Block)
    requires Sound(w) && ColonFree(b.creator)
    ensures GetHash(w.(networkId := name), b) == GetHash(w, b) <==> name == w.networkId
  {
    if GetHash(w.(networkId := name), b) == GetHash(w, b) {
      var rest := b.epoch + ":" + (w.extraText(b.extra) + ":" + (Itoa(b.index) + ":" + b.prevHash));
      var t, t' := w.networkId + ":" + rest, name + ":" + rest;
      PeelLeft(':', b.creator, Itoa(b.time) + ":" + t, b.creator, Itoa(b.time) + ":" + t');
      ItoaColonFree(b.time);
      PeelLeft(':', Itoa(b.time), t, Itoa(b.time), t');
      assert t[..|t| - |rest| - 1] == w.networkId && t'[..|t'| - |rest| - 1] == name;
    }
  }

  lemma FullIdFixesEpoch(ep: Epoch, ep': Epoch)
    requires HexText(ep.hash) && HexText(ep'.hash) && FullId(ep) == FullId(ep')
    ensures ep.id == ep'.id && ep.hash == ep'.hash
  {
    PeelLeft('#', ep.hash, Itoa(ep.id), ep'.hash, Itoa(ep'.id));
    ItoaInjective(ep.id, ep'.id);
  }

  lemma FullIdColonFree(ep: Epoch)
    requires HexText(ep.hash)
    ensures ColonFree(FullId(ep))
  {
    ItoaColonFree(ep.id);
  }

  // ---- The assumptions can be met: an ideal hash that spells its input in hex. ----

  function Spelled(s: string): string {
    if s == [] then "" else NatText(s[0] as int) + "a" + Spelled(s[1..])
  }

  lemma {:induction false} SpelledInjective(s: string, t: string)
    requires Spelled(s) == Spelled(t)
    ensures s == t
  {
    if s != [] && t != [] {
      var x, y := NatText(s[0] as int), NatText(t[0] as int);
      NatTextRoundTrip(s[0] as int);
      NatTextRoundTrip(t[0] as int);
      PeelLeft('a', x, Spelled(s[1..]), y, Spelled(t[1..]));
      SpelledInjective(s[1..], t[1..]);
      assert s == [s[0]] + s[1..] && t == [t[0]] + t[1..];
    }
  }

  lemma {:induction false} SpelledIsHex(s: string)
    ensures s != [] ==> HexText(Spelled(s))
  {
    if s != [] {
      NatTextRoundTrip(s[0] as int);
      SpelledIsHex(s[1..]);
    }
  }

  lemma SoundWorldsExist() returns (w: World)
    ensures Sound(w)
  {
    w := World("net", (m, k, s) => s == k + m, s => "f" + Spelled(s), x => "{}");
    forall s, t | w.blake3(s) == w.blake3(t)
      ensures s == t
    {
      assert Spelled(s) == w.blake3(s)[1..] && Spelled(t) == w.blake3(t)[1..];
      SpelledInjective(s, t);
    }
    forall s
      ensures HexText(w.blake3(s)) && w.blake3(s) != INIT_HASH
    {
      SpelledIsHex(s);
      InitHashIsHex();
      assert w.blake3(s)[0] == 'f';
    }
  }
}
