/** The transport of a block's extra data at the level of JSON trees: two output shapes, a decoder
    that tries the struct shape first and falls back to a plain string map, and Go's rules for
    field names (case-folded), nulls, repeated fields and type errors. */
module ExtraDataCodec {
  import opened Text
  import opened Structures

  datatype Json =
    | Null | Bool(b: bool) | Num(n: int) | Fraction | Str(s: string)
    | Arr(items: seq<Json>) | Obj(fields: seq<(string, Json)>)

  // ---- Field names ----

  /** Simple case folding onto ASCII lower case; two letters outside ASCII fold into it. */
  function FoldChar(c: char): char {
    if 'A' <= c <= 'Z' then (c as int + 32) as char
    else if c == '\U{017F}' then 's'
    else if c == '\U{212A}' then 'k'
    else c
  }

  predicate Named(key: string, name: string) {
    |key| == |name| && forall i :: 0 <= i < |key| ==> FoldChar(key[i]) == FoldChar(name[i])
  }

  const AARPS: string := "aggregatedAnchorRotationProofs"
  const ALFPS: string := "aggregatedLeaderFinalizationProofs"
  const REST: string := "rest"

  // ---- Decoding ----

  /** Fields are taken in order; None is a type error. */
  function Run<T>(step: (T, string, Json) -> Option<T>, acc: T, fields: seq<(string, Json)>): Option<T> {
    if fields == [] then Some(acc)
    else
      var next := step(acc, fields[0].0, fields[0].1);
      if next.None? then None else Run(step, next.value, fields[1..])
  }

  function AsString(old_: string, j: Json): Option<string> {
    match j
    case Null => Some(old_)
    case Str(s) => Some(s)
    case _ => None
  }

  function AsInt(old_: int, j: Json): Option<int> {
    match j
    case Null => Some(old_)
    case Num(n) => if MIN_INT64 <= n <= MAX_INT64 then Some(n) else None
    case _ => None
  }

  function MapStep(acc: map<string, string>, key: string, j: Json): Option<map<string, string>> {
    match j
    case Null => Some(acc[key := ""])
    case Str(s) => Some(acc[key := s])
    case _ => None
  }

  /** A map field; the inner None is Go's nil map, and a repeated field adds to the first. */
  function AsStringMap(old_: Option<map<string, string>>, j: Json): Option<Option<map<string, string>>> {
    match j
    case Null => Some(None)
    case Obj(fields) =>
      var m := Run(MapStep, if old_.Some? then old_.value else map[], fields);
      if m.None? then None else Some(Some(m.value))
    case _ => None
  }

  function OrEmpty(m: Option<map<string, string>>): map<string, string> { if m.Some? then m.value else map[] }

  datatype RawAfp =
    RawAfp(prevBlockHash: string, blockId: string, blockHash: string, proofs: Option<map<string, string>>)

  const NO_RAW_AFP: RawAfp := RawAfp("", "", "", None)

  function AfpStep(acc: RawAfp, key: string, j: Json): Option<RawAfp> {
    if Named(key, "prevBlockHash") then
      var r := AsString(acc.prevBlockHash, j);
      if r.None? then None else Some(acc.(prevBlockHash := r.value))
    else if Named(key, "blockId") then
      var r := AsString(acc.blockId, j);
      if r.None? then None else Some(acc.(blockId := r.value))
    else if Named(key, "blockHash") then
      var r := AsString(acc.blockHash, j);
      if r.None? then None else Some(acc.(blockHash := r.value))
    else if Named(key, "proofs") then
      var r := AsStringMap(acc.proofs, j);
      if r.None? then None else Some(acc.(proofs := r.value))
    else Some(acc)
  }

  function DecodeAfp(j: Json): Option<Afp> {
    match j
    case Null => Some(EMPTY_AFP)
    case Obj(fields) =>
      var r := Run(AfpStep, NO_RAW_AFP, fields);
      if r.None? then None
      else Some(Afp(r.value.prevBlockHash, r.value.blockId, r.value.blockHash, OrEmpty(r.value.proofs)))
    case _ => None
  }

  function StatStep(acc: VotingStat, key: string, j: Json): Option<VotingStat> {
    if Named(key, "index") then
      var r := AsInt(acc.index, j);
      if r.None? then None else Some(acc.(index := r.value))
    else if Named(key, "hash") then
      var r := AsString(acc.hash, j);
      if r.None? then None else Some(acc.(hash := r.value))
    else if Named(key, "afp") then
      var r := DecodeAfp(j);
      if r.None? then None else Some(acc.(afp := r.value))
    else Some(acc)
  }

  function DecodeStat(old_: VotingStat, j: Json): Option<VotingStat> {
    match j
    case Null => Some(old_)
    case Obj(fields) => Run(StatStep, old_, fields)
    case _ => None
  }

  /** What rotation proofs and leader finalization proofs share; they differ in the name of the
      field that holds the key. */
  datatype Proof = Proof(epochIndex: int, key: string, votingStat: VotingStat, signatures: Option<map<string, string>>)

  const NO_PROOF: Proof := Proof(0, "", VotingStat(0, "", EMPTY_AFP), None)

  function ProofStep(keyName: string, acc: Proof, key: string, j: Json): Option<Proof> {
    if Named(key, "epochIndex") then
      var r := AsInt(acc.epochIndex, j);
      if r.None? then None else Some(acc.(epochIndex := r.value))
    else if Named(key, keyName) then
      var r := AsString(acc.key, j);
      if r.None? then None else Some(acc.(key := r.value))
    else if Named(key, "votingStat") then
      var r := DecodeStat(acc.votingStat, j);
      if r.None? then None else Some(acc.(votingStat := r.value))
    else if Named(key, "signatures") then
      var r := AsStringMap(acc.signatures, j);
      if r.None? then None else Some(acc.(signatures := r.value))
    else Some(acc)
  }

  function DecodeProof(keyName: string, j: Json): Option<Proof> {
    match j
    case Null => Some(NO_PROOF.(signatures := Some(map[])))
    case Obj(fields) =>
      var r := Run((acc, key, v) => ProofStep(keyName, acc, key, v), NO_PROOF, fields);
      if r.None? then None else Some(r.value.(signatures := Some(OrEmpty(r.value.signatures))))
    case _ => None
  }

  function DecodeProofs(keyName: string, items: seq<Json>): Option<seq<Proof>> {
    if items == [] then Some([])
    else
      var first, rest := DecodeProof(keyName, items[0]), DecodeProofs(keyName, items[1..]);
      if first.None? || rest.None? then None else Some([first.value] + rest.value)
  }

  /** A proof list; the inner None is Go's nil slice. */
  function AsProofs(keyName: string, j: Json): Option<Option<seq<Proof>>> {
    match j
    case Null => Some(None)
    case Arr(items) => var r := DecodeProofs(keyName, items); if r.None? then None else Some(Some(r.value))
    case _ => None
  }

  function ToAarp(p: Proof): Aarp { Aarp(p.epochIndex, p.key, p.votingStat, OrEmpty(p.signatures)) }

  function ToAlfp(p: Proof): Alfp { Alfp(p.epochIndex, p.key, p.votingStat, OrEmpty(p.signatures)) }

  function ToAarps(proofs: seq<Proof>): seq<Aarp> { seq(|proofs|, i requires 0 <= i < |proofs| => ToAarp(proofs[i])) }

  function ToAlfps(proofs: seq<Proof>): seq<Alfp> { seq(|proofs|, i requires 0 <= i < |proofs| => ToAlfp(proofs[i])) }

  const NO_EXTRA: ExtraData := ExtraData(None, None, None)

  function AliasStep(acc: ExtraData, key: string, j: Json): Option<ExtraData> {
    if Named(key, AARPS) then
      var r := AsProofs("anchor", j);
      if r.None? then None
      else Some(acc.(aarps := if r.value.None? then None else Some(ToAarps(r.value.value))))
    else if Named(key, ALFPS) then
      var r := AsProofs("leader", j);
      if r.None? then None
      else Some(acc.(alfps := if r.value.None? then None else Some(ToAlfps(r.value.value))))
    else if Named(key, REST) then
      var r := AsStringMap(acc.rest, j);
      if r.None? then None else Some(acc.(rest := r.value))
    else Some(acc)
  }

  /** UnmarshalJSON; None is the "invalid extraData payload" error. */
  function Decode(j: Json): Option<ExtraData> {
    match j
    case Null => Some(NO_EXTRA)
    case Obj(fields) =>
      var alias := Run(AliasStep, NO_EXTRA, fields);
      if alias.Some? && alias.value != NO_EXTRA then alias
      else
        var plain := Run(MapStep, map[], fields);
        if plain.Some? then Some(ExtraData(None, None, Some(plain.value))) else None
    case _ => None
  }

  // ---- Encoding ----

  predicate Before(a: string, b: string) {
    if a == [] then true
    else b != [] && (a[0] < b[0] || (a[0] == b[0] && Before(a[1..], b[1..])))
  }

  lemma {:induction false} BeforeTotal(a: string, b: string)
    ensures Before(a, b) || Before(b, a)
    ensures Before(a, b) && Before(b, a) ==> a == b
  {
    if a != [] && b != [] {
      BeforeTotal(a[1..], b[1..]);
      assert a == [a[0]] + a[1..] && b == [b[0]] + b[1..];
    }
  }

  lemma {:induction false} BeforeTransitive(a: string, b: string, c: string)
    requires Before(a, b) && Before(b, c)
    ensures Before(a, c)
  {
    if a != [] && b != [] && c != [] && a[0] == b[0] == c[0] {
      BeforeTransitive(a[1..], b[1..], c[1..]);
    }
  }

  predicate IsLeast(keys: set<string>, k: string) {
    k in keys && forall other :: other in keys ==> Before(k, other)
  }

  lemma {:induction false} LeastExists(keys: set<string>)
    requires keys != {}
    ensures exists k :: IsLeast(keys, k)
  {
    var k :| k in keys;
    if keys != {k} {
      LeastExists(keys - {k});
      var least :| IsLeast(keys - {k}, least);
      BeforeTotal(k, least);
      BeforeTotal(k, k);
      if Before(k, least) {
        forall other | other in keys
          ensures Before(k, other)
        {
          if other != k { BeforeTransitive(k, least, other); }
        }
        assert IsLeast(keys, k);
      } else {
        assert IsLeast(keys, least);
      }
    } else {
      BeforeTotal(k, k);
      assert IsLeast(keys, k);
    }
  }

  /** The keys of a map in the order the encoder writes them. */
  function SortedKeys(keys: set<string>): (s: seq<string>)
    ensures forall k :: k in s <==> k in keys
    ensures forall i, j :: 0 <= i < j < |s| ==> Before(s[i], s[j]) && s[i] != s[j]
    decreases |keys|
  {
    if keys == {} then []
    else
      var k := Least(keys);
      [k] + SortedKeys(keys - {k})
  }

  lemma LeastIsUnique(keys: set<string>, a: string, b: string)
    requires IsLeast(keys, a) && IsLeast(keys, b)
    ensures a == b
  {
    BeforeTotal(a, b);
  }

  function Least(keys: set<string>): (k: string)
    requires keys != {}
    ensures IsLeast(keys, k)
  {
    LeastExists(keys);
    assert forall a, b :: IsLeast(keys, a) && IsLeast(keys, b) ==> a == b by {
      forall a, b | IsLeast(keys, a) && IsLeast(keys, b)
        ensures a == b
      {
        LeastIsUnique(keys, a, b);
      }
    }
    var k :| IsLeast(keys, k);
    k
  }

  function StringFields(m: map<string, string>, keys: seq<string>): seq<(string, Json)>
    requires forall k :: k in keys ==> k in m
  {
    seq(|keys|, i requires 0 <= i < |keys| => (keys[i], Str(m[keys[i]])))
  }

  function EncodeMap(m: map<string, string>): Json { Obj(StringFields(m, SortedKeys(m.Keys))) }

  function EncodeAfp(a: Afp): Json {
    Obj([("prevBlockHash", Str(a.prevBlockHash)), ("blockId", Str(a.blockId)), ("blockHash", Str(a.blockHash)),
         ("proofs", EncodeMap(a.proofs))])
  }

  function EncodeStat(s: VotingStat): Json {
    Obj([("index", Num(s.index)), ("hash", Str(s.hash)), ("afp", EncodeAfp(s.afp))])
  }

  function EncodeProof(keyName: string, p: Proof): Json {
    Obj([("epochIndex", Num(p.epochIndex)), (keyName, Str(p.key)), ("votingStat", EncodeStat(p.votingStat)),
         ("signatures", EncodeMap(OrEmpty(p.signatures)))])
  }

  function OfAarp(a: Aarp): Proof { Proof(a.epochIndex, a.anchor, a.votingStat, Some(a.signatures)) }

  function OfAlfp(a: Alfp): Proof { Proof(a.epochIndex, a.leader, a.votingStat, Some(a.signatures)) }

  function EncodeProofs(keyName: string, proofs: seq<Proof>): Json {
    Arr(seq(|proofs|, i requires 0 <= i < |proofs| => EncodeProof(keyName, proofs[i])))
  }

  function AarpProofs(x: ExtraData): seq<Proof> {
    seq(|x.Aarps()|, i requires 0 <= i < |x.Aarps()| => OfAarp(x.Aarps()[i]))
  }

  function AlfpProofs(x: ExtraData): seq<Proof> {
    seq(|x.Alfps()|, i requires 0 <= i < |x.Alfps()| => OfAlfp(x.Alfps()[i]))
  }

  /** MarshalJSON: a plain map when there are no proofs, otherwise the struct without its empty fields. */
  function Encode(x: ExtraData): Json {
    if x.Aarps() == [] && x.Alfps() == [] then
      if x.Rest() == map[] then Obj([]) else EncodeMap(x.Rest())
    else
      Obj((if x.Aarps() == [] then [] else [(AARPS, EncodeProofs("anchor", AarpProofs(x)))])
        + (if x.Alfps() == [] then [] else [(ALFPS, EncodeProofs("leader", AlfpProofs(x)))])
        + (if x.Rest() == map[] then [] else [(REST, EncodeMap(x.Rest()))]))
  }

  function NamesOf(fields: seq<(string, Json)>): seq<string> {
    seq(|fields|, i requires 0 <= i < |fields| => fields[i].0)
  }

  /** On the wire a block without proofs is a plain string map, in the order of its keys; with proofs it is
      the struct, and no empty field is written. */
  lemma WireForm(x: ExtraData)
    ensures Encode(x).Obj?
    ensures x.Aarps() == [] && x.Alfps() == [] ==>
              && NamesOf(Encode(x).fields) == SortedKeys(x.Rest().Keys)
              && forall f :: f in Encode(x).fields ==> f.0 in x.Rest() && f.1 == Str(x.Rest()[f.0])
    ensures x.Aarps() != [] || x.Alfps() != [] ==>
              NamesOf(Encode(x).fields) == (if x.Aarps() == [] then [] else [AARPS])
                                           + (if x.Alfps() == [] then [] else [ALFPS])
                                           + (if x.Rest() == map[] then [] else [REST])
  {
    hide EncodeProofs, AarpProofs, AlfpProofs, SortedKeys;
    if x.Aarps() == [] && x.Alfps() == [] {
      PlainForm(x);
    } else {
      var a, l, r := x.Aarps() == [], x.Alfps() == [], x.Rest() == map[];
      assert NamesOf(Encode(x).fields) == (if a then [] else [AARPS]) + (if l then [] else [ALFPS]) +
          (if r then [] else [REST]);
    }
  }

  lemma PlainForm(x: ExtraData)
    requires x.Aarps() == [] && x.Alfps() == []
    ensures Encode(x).Obj? && NamesOf(Encode(x).fields) == SortedKeys(x.Rest().Keys)
    ensures forall f :: f in Encode(x).fields ==> f.0 in x.Rest() && f.1 == Str(x.Rest()[f.0])
  {
    hide Least, Before;
    if x.Rest() == map[] {
      assert x.Rest().Keys == {};
    }
  }

  // ---- Round trips ----

  lemma {:induction false} RunConcat<T>(step: (T, string, Json) -> Option<T>, acc: T, a: seq<(string, Json)>,
                                        b: seq<(string, Json)>)
    ensures Run(step, acc, a + b) == var r := Run(step, acc, a); if r.None? then None else Run(step, r.value, b)
  {
    if a == [] {
      assert a + b == b;
    } else {
      assert (a + b)[0] == a[0] && (a + b)[1..] == a[1..] + b;
      var next := step(acc, a[0].0, a[0].1);
      if next.Some? { RunConcat(step, next.value, a[1..], b); }
    }
  }

  lemma RunCons<T>(step: (T, string, Json) -> Option<T>, acc: T, f: (string, Json), rest: seq<(string, Json)>)
    ensures Run(step, acc, [f] + rest) ==
              var r := step(acc, f.0, f.1);
              if r.None? then None else Run(step, r.value, rest)
  {
    assert ([f] + rest)[1..] == rest;
  }

  /** The part of m under these keys. */
  function Picked(m: map<string, string>, keys: seq<string>): map<string, string>
    requires forall k :: k in keys ==> k in m
  {
    map k | k in keys :: m[k]
  }

  lemma PickedFirst(m: map<string, string>, keys: seq<string>)
    requires keys != [] && forall k :: k in keys ==> k in m
    ensures Picked(m, keys) == map[keys[0] := m[keys[0]]] + Picked(m, keys[1..])
  {
    assert keys == [keys[0]] + keys[1..];
  }

  lemma {:induction false} KeysRun(acc: map<string, string>, m: map<string, string>, keys: seq<string>)
    requires forall k :: k in keys ==> k in m
    ensures Run(MapStep, acc, StringFields(m, keys)) == Some(acc + Picked(m, keys))
    decreases |keys|
  {
    if keys == [] {
      assert acc + Picked(m, keys) == acc;
    } else {
      assert StringFields(m, keys) == [(keys[0], Str(m[keys[0]]))] + StringFields(m, keys[1..]);
      RunCons(MapStep, acc, (keys[0], Str(m[keys[0]])), StringFields(m, keys[1..]));
      KeysRun(acc[keys[0] := m[keys[0]]], m, keys[1..]);
      PickedFirst(m, keys);
      assert acc[keys[0] := m[keys[0]]] + Picked(m, keys[1..]) == acc + Picked(m, keys);
    }
  }

  lemma MapRoundTrip(m: map<string, string>)
    ensures AsStringMap(None, EncodeMap(m)) == Some(Some(m))
    ensures Run(MapStep, map[], EncodeMap(m).fields) == Some(m)
  {
    hide MapStep, StringFields, Run;
    KeysRun(map[], m, SortedKeys(m.Keys));
    assert map[] + Picked(m, SortedKeys(m.Keys)) == m;
  }

  const AFP_FIELDS: set<string> := {"prevBlockHash", "blockId", "blockHash", "proofs"}

  lemma NamesOfAfp()
    ensures Named("prevBlockHash", "prevBlockHash") && Named("blockId", "blockId") &&
        Named("blockHash", "blockHash") && Named("proofs", "proofs")
    ensures forall a, b :: a in AFP_FIELDS && b in AFP_FIELDS && a != b ==> !Named(a, b)
  {
  }

  lemma AfpRoundTrip(a: Afp)
    ensures DecodeAfp(EncodeAfp(a)) == Some(a)
  {
    hide Named, EncodeMap, AsStringMap;
    NamesOfAfp();
    MapRoundTrip(a.proofs);
    var f0, f1, f2, f3 := ("prevBlockHash", Str(a.prevBlockHash)), ("blockId", Str(a.blockId)),
        ("blockHash", Str(a.blockHash)), ("proofs", EncodeMap(a.proofs));
    assert EncodeAfp(a).fields == [f0] + ([f1] + ([f2] + ([f3] + [])));
    var r0 := NO_RAW_AFP.(prevBlockHash := a.prevBlockHash);
    var r1 := r0.(blockId := a.blockId);
    var r2 := r1.(blockHash := a.blockHash);
    RunCons(AfpStep, NO_RAW_AFP, f0, [f1] + ([f2] + ([f3] + [])));
    RunCons(AfpStep, r0, f1, [f2] + ([f3] + []));
    RunCons(AfpStep, r1, f2, [f3] + []);
    RunCons(AfpStep, r2, f3, []);
  }

  predicate InRange(n: int) { MIN_INT64 <= n <= MAX_INT64 }

  lemma NamesOfStat()
    ensures Named("index", "index") && Named("hash", "hash") && Named("afp", "afp")
    ensures !Named("hash", "index") && !Named("afp", "index") && !Named("afp", "hash")
  {
  }

  lemma StatRoundTrip(old_: VotingStat, s: VotingStat)
    requires InRange(s.index)
    ensures DecodeStat(old_, EncodeStat(s)) == Some(s)
  {
    hide Named, EncodeAfp, DecodeAfp;
    NamesOfStat();
    AfpRoundTrip(s.afp);
    var f0, f1, f2 := ("index", Num(s.index)), ("hash", Str(s.hash)), ("afp", EncodeAfp(s.afp));
    assert EncodeStat(s).fields == [f0] + ([f1] + ([f2] + []));
    RunCons(StatStep, old_, f0, [f1] + ([f2] + []));
    RunCons(StatStep, old_.(index := s.index), f1, [f2] + []);
    RunCons(StatStep, old_.(index := s.index, hash := s.hash), f2, []);
  }

  predicate IsKeyName(name: string) { name == "anchor" || name == "leader" }

  lemma NamesOfProof(name: string)
    requires IsKeyName(name)
    ensures Named("epochIndex", "epochIndex") && Named(name, name) && Named("votingStat", "votingStat") &&
        Named("signatures", "signatures")
    ensures !Named(name, "epochIndex") && !Named("votingStat", "epochIndex") && !Named("votingStat", name)
    ensures !Named("signatures", "epochIndex") && !Named("signatures", name) && !Named("signatures", "votingStat")
  {
    assert "votingStat"[0] == 'v' && "epochIndex"[0] == 'e' && "signatures"[0] == 's';
  }

  predicate ProofFits(p: Proof) { InRange(p.epochIndex) && InRange(p.votingStat.index) && p.signatures.Some? }

  lemma ProofRoundTrip(name: string, p: Proof)
    requires IsKeyName(name) && ProofFits(p)
    ensures DecodeProof(name, EncodeProof(name, p)) == Some(p)
  {
    hide Named, EncodeMap, AsStringMap, EncodeStat, DecodeStat;
    NamesOfProof(name);
    MapRoundTrip(p.signatures.value);
    StatRoundTrip(NO_PROOF.votingStat, p.votingStat);
    var step := (acc, key, v) => ProofStep(name, acc, key, v);
    var f0, f1, f2, f3 := ("epochIndex", Num(p.epochIndex)), (name, Str(p.key)),
        ("votingStat", EncodeStat(p.votingStat)),
                          ("signatures", EncodeMap(p.signatures.value));
    assert EncodeProof(name, p).fields == [f0] + ([f1] + ([f2] + ([f3] + [])));
    var r0 := NO_PROOF.(epochIndex := p.epochIndex);
    var r1 := r0.(key := p.key);
    var r2 := r1.(votingStat := p.votingStat);
    RunCons(step, NO_PROOF, f0, [f1] + ([f2] + ([f3] + [])));
    RunCons(step, r0, f1, [f2] + ([f3] + []));
    RunCons(step, r1, f2, [f3] + []);
    RunCons(step, r2, f3, []);
  }

  lemma {:induction false} ProofsRoundTrip(name: string, proofs: seq<Proof>)
    requires IsKeyName(name) && forall p :: p in proofs ==> ProofFits(p)
    ensures DecodeProofs(name, EncodeProofs(name, proofs).items) == Some(proofs)
  {
    hide EncodeProof, DecodeProof, ProofFits;
    if proofs != [] {
      ProofRoundTrip(name, proofs[0]);
      ProofsRoundTrip(name, proofs[1..]);
      assert EncodeProofs(name, proofs).items[1..] == EncodeProofs(name, proofs[1..]).items;
      assert [proofs[0]] + proofs[1..] == proofs;
    }
  }

  /** Numbers of a real block fit Go's int. */
  predicate Fits(x: ExtraData) {
    && (forall a :: a in x.Aarps() ==> InRange(a.epochIndex) && InRange(a.votingStat.index))
    && (forall a :: a in x.Alfps() ==> InRange(a.epochIndex) && InRange(a.votingStat.index))
  }

  /** Equal up to nil against empty. */
  predicate SameExtra(x: ExtraData, y: ExtraData) {
    x.Aarps() == y.Aarps() && x.Alfps() == y.Alfps() && x.Rest() == y.Rest()
  }

  lemma NamesOfExtra()
    ensures Named(AARPS, AARPS) && Named(ALFPS, ALFPS) && Named(REST, REST)
    ensures !Named(ALFPS, AARPS) && !Named(REST, AARPS) && !Named(REST, ALFPS)
  {
    assert |AARPS| == 30 && |ALFPS| == 34 && |REST| == 4;
  }

  /** A string is no value for any field of the struct: the struct reading of a plain map either
      fails or finds nothing, whatever its keys are called. */
  lemma {:induction false} PlainIsNoStruct(m: map<string, string>, keys: seq<string>)
    requires forall k :: k in keys ==> k in m
    ensures var r := Run(AliasStep, NO_EXTRA, StringFields(m, keys)); r.None? || r.value == NO_EXTRA
  {
    hide Named;
    if keys != [] {
      assert StringFields(m, keys) == [(keys[0], Str(m[keys[0]]))] + StringFields(m, keys[1..]);
      RunCons(AliasStep, NO_EXTRA, (keys[0], Str(m[keys[0]])), StringFields(m, keys[1..]));
      PlainIsNoStruct(m, keys[1..]);
    }
  }

  /** The proof lists of the struct shape, one field after the other. */
  lemma AarpFieldRead(x: ExtraData, acc: ExtraData)
    requires Fits(x)
    ensures AliasStep(acc, AARPS, EncodeProofs("anchor", AarpProofs(x))) == Some(acc.(aarps := Some(x.Aarps())))
  {
    hide Named, EncodeProof, DecodeProof;
    NamesOfExtra();
    forall p | p in AarpProofs(x)
      ensures ProofFits(p)
    {
      var i :| 0 <= i < |x.Aarps()| && p == OfAarp(x.Aarps()[i]);
      assert x.Aarps()[i] in x.Aarps();
    }
    ProofsRoundTrip("anchor", AarpProofs(x));
    assert ToAarps(AarpProofs(x)) == x.Aarps();
  }

  lemma AlfpFieldRead(x: ExtraData, acc: ExtraData)
    requires Fits(x)
    ensures AliasStep(acc, ALFPS, EncodeProofs("leader", AlfpProofs(x))) == Some(acc.(alfps := Some(x.Alfps())))
  {
    hide Named, EncodeProof, DecodeProof;
    NamesOfExtra();
    forall p | p in AlfpProofs(x)
      ensures ProofFits(p)
    {
      var i :| 0 <= i < |x.Alfps()| && p == OfAlfp(x.Alfps()[i]);
      assert x.Alfps()[i] in x.Alfps();
    }
    ProofsRoundTrip("leader", AlfpProofs(x));
    assert ToAlfps(AlfpProofs(x)) == x.Alfps();
  }

  lemma RestFieldRead(x: ExtraData, acc: ExtraData)
    requires acc.rest.None?
    ensures AliasStep(acc, REST, EncodeMap(x.Rest())) == Some(acc.(rest := Some(x.Rest())))
  {
    hide Named, EncodeMap, AsStringMap, AsProofs;
    NamesOfExtra();
    MapRoundTrip(x.Rest());
  }

  /** The struct shape reads back as what was written, empty fields as nil. */
  lemma StructRoundTrip(x: ExtraData)
    requires Fits(x) && (x.Aarps() != [] || x.Alfps() != [])
    ensures Decode(Encode(x)) == Some(ExtraData(if x.Aarps() == [] then None else Some(x.Aarps()),
                                                if x.Alfps() == [] then None else Some(x.Alfps()),
                                                if x.Rest() == map[] then None else Some(x.Rest())))
  {
    hide AliasStep, EncodeProofs, EncodeMap, Fits, AarpProofs, AlfpProofs, MapStep;
    var a := if x.Aarps() == [] then [] else [(AARPS, EncodeProofs("anchor", AarpProofs(x)))];
    var l := if x.Alfps() == [] then [] else [(ALFPS, EncodeProofs("leader", AlfpProofs(x)))];
    var r := if x.Rest() == map[] then [] else [(REST, EncodeMap(x.Rest()))];
    var x1 := NO_EXTRA.(aarps := if x.Aarps() == [] then None else Some(x.Aarps()));
    var x2 := x1.(alfps := if x.Alfps() == [] then None else Some(x.Alfps()));
    AarpFieldRead(x, NO_EXTRA);
    AlfpFieldRead(x, x1);
    RestFieldRead(x, x2);
    RunConcat(AliasStep, NO_EXTRA, a + l, r);
    RunConcat(AliasStep, NO_EXTRA, a, l);
    OneField(AliasStep, NO_EXTRA, a);
    OneField(AliasStep, x1, l);
    OneField(AliasStep, x2, r);
  }

  lemma OneField<T>(step: (T, string, Json) -> Option<T>, acc: T, fields: seq<(string, Json)>)
    requires |fields| <= 1
    ensures Run(step, acc, fields) == if fields == [] then Some(acc) else step(acc, fields[0].0, fields[0].1)
  {
    if fields != [] {
      assert fields == [fields[0]] + [];
      RunCons(step, acc, fields[0], []);
    }
  }

  /** Decoding what was encoded gives the same extra data up to nil against empty, also when the
      plain map has keys named like the proof fields. */
  lemma ExtraDataRoundTrip(x: ExtraData)
    requires Fits(x)
    ensures Decode(Encode(x)).Some? && SameExtra(Decode(Encode(x)).value, x)
  {
    hide AliasStep, EncodeProofs, EncodeMap, Fits, AarpProofs, AlfpProofs, MapStep;
    if x.Aarps() != [] || x.Alfps() != [] {
      StructRoundTrip(x);
    } else {
      PlainRoundTrip(x.Rest());
    }
  }

  lemma PlainRoundTrip(m: map<string, string>)
    ensures Decode(EncodeMap(m)) == Some(ExtraData(None, None, Some(m)))
    ensures Decode(Obj([])) == Some(ExtraData(None, None, Some(map[])))
  {
    hide AliasStep, MapStep, StringFields, SortedKeys;
    MapRoundTrip(m);
    PlainIsNoStruct(m, SortedKeys(m.Keys));
  }

  /** Extra data equal up to nil against empty is written identically. */
  lemma SameExtraSameText(x: ExtraData, y: ExtraData)
    requires SameExtra(x, y)
    ensures Encode(x) == Encode(y)
  {
    hide EncodeProofs, EncodeMap;
    assert AarpProofs(x) == AarpProofs(y) && AlfpProofs(x) == AlfpProofs(y);
  }

  // ---- What any sender may produce ----

  ghost predicate ProofsInRange(proofs: seq<Proof>) {
    forall p :: p in proofs ==> InRange(p.epochIndex) && InRange(p.votingStat.index)
  }

  lemma {:induction false} StatStaysInRange(acc: VotingStat, fields: seq<(string, Json)>)
    requires InRange(acc.index)
    ensures var r := Run(StatStep, acc, fields); r.Some? ==> InRange(r.value.index)
    decreases |fields|
  {
    hide Named, DecodeAfp;
    if fields != [] {
      var next := StatStep(acc, fields[0].0, fields[0].1);
      if next.Some? { StatStaysInRange(next.value, fields[1..]); }
    }
  }

  lemma {:induction false} ProofStaysInRange(name: string, acc: Proof, fields: seq<(string, Json)>)
    requires InRange(acc.epochIndex) && InRange(acc.votingStat.index)
    ensures var r := Run((acc, key, v) => ProofStep(name, acc, key, v), acc, fields);
            r.Some? ==> InRange(r.value.epochIndex) && InRange(r.value.votingStat.index)
    decreases |fields|
  {
    hide Named, AsStringMap;
    if fields != [] {
      var next := ProofStep(name, acc, fields[0].0, fields[0].1);
      if fields[0].1.Obj? { StatStaysInRange(acc.votingStat, fields[0].1.fields); }
      if next.Some? { ProofStaysInRange(name, next.value, fields[1..]); }
    }
  }

  lemma {:induction false} ProofsStayInRange(name: string, items: seq<Json>)
    ensures var r := DecodeProofs(name, items); r.Some? ==> ProofsInRange(r.value)
  {
    hide ProofStep;
    if items != [] {
      if items[0].Obj? { ProofStaysInRange(name, NO_PROOF, items[0].fields); }
      ProofsStayInRange(name, items[1..]);
    }
  }

  lemma {:induction false} AliasStaysInRange(acc: ExtraData, fields: seq<(string, Json)>)
    requires Fits(acc)
    ensures var r := Run(AliasStep, acc, fields); r.Some? ==> Fits(r.value)
    decreases |fields|
  {
    hide Named, DecodeProofs, AsStringMap;
    if fields != [] {
      var j := fields[0].1;
      var next := AliasStep(acc, fields[0].0, j);
      if j.Arr? {
        ProofsStayInRange("anchor", j.items);
        ProofsStayInRange("leader", j.items);
      }
      if next.Some? { AliasStaysInRange(next.value, fields[1..]); }
    }
  }

  /** Whatever tree a block arrived with, storing it and reading it back changes nothing more. */
  lemma DecodedSurvivesStorage(j: Json)
    requires Decode(j).Some?
    ensures var x := Decode(j).value; Decode(Encode(x)).Some? && SameExtra(Decode(Encode(x)).value, x)
  {
    hide AliasStep, MapStep, Encode;
    if j.Obj? { AliasStaysInRange(NO_EXTRA, j.fields); }
    ExtraDataRoundTrip(Decode(j).value);
  }

  /** A block's hash and signature survive sending and storing, for every way of writing trees as text. */
  lemma TransportKeepsHash(w: World, text: Json -> string, b: Block)
    requires forall x :: w.extraText(x) == text(Encode(x))
    requires Fits(b.extra)
    ensures Decode(Encode(b.extra)).Some?
    ensures var b' := b.(extra := Decode(Encode(b.extra)).value);
            && Encode(b'.extra) == Encode(b.extra)
            && GetHash(w, b') == GetHash(w, b) && (BlockSigned(w, b') <==> BlockSigned(w, b))
  {
    hide Encode, Decode;
    ExtraDataRoundTrip(b.extra);
    SameExtraSameText(Decode(Encode(b.extra)).value, b.extra);
  }
}
