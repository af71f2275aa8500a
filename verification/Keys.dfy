/** One string-keyed database holds voting stats, grabber snapshots, health flags, rotation
    certificates, presence records, disabled markers and outbox entries; it behaves like as many
    separate maps, and the certificate scan of an epoch sees exactly that epoch's certificates. */
module Keys {
  import opened Text

  const GRABBER: string := "PROOFS_GRABBER"
  const HEALTH_TAG: string := "BLOCK_CREATOR_HEALTH"
  const AARP_TAG: string := "AARP"
  const PRESENCE_TAG: string := "AARP_PRESENCE"
  const DISABLED_TAG: string := "AARP_DISABLED"
  const OUTBOX_TAG: string := "ANCHORS_POD_OUTBOX"

  datatype DbKey =
    | StatKey(epoch: int, creator: string)
    | GrabberKey(epoch: int)
    | HealthKey(epoch: int, creator: string)
    | AarpKey(epoch: int, creator: string)
    | PresenceKey(epoch: int, creator: string, rotated: string)
    | DisabledKey(epoch: int, creator: string)
    | OutboxKey(id: string)

  function KeyText(k: DbKey): string {
    match k
    case StatKey(e, c) => Itoa(e) + ":" + c
    case GrabberKey(e) => Itoa(e) + ":" + GRABBER
    case HealthKey(e, c) => HEALTH_TAG + ":" + Itoa(e) + ":" + c
    case AarpKey(e, c) => AARP_TAG + ":" + Itoa(e) + ":" + c
    case PresenceKey(e, c, r) => PRESENCE_TAG + ":" + Itoa(e) + ":" + c + ":" + r
    case DisabledKey(e, c) => DISABLED_TAG + ":" + Itoa(e) + ":" + c
    case OutboxKey(id) => OUTBOX_TAG + ":" + id
  }

  /** Public keys hold no ':' and none is the grabber's reserved name. */
  predicate KeyOk(k: DbKey) {
    match k
    case StatKey(_, c) => ColonFree(c) && c != GRABBER
    case HealthKey(_, c) => ColonFree(c)
    case AarpKey(_, c) => ColonFree(c)
    case PresenceKey(_, c, r) => ColonFree(c) && ColonFree(r)
    case DisabledKey(_, c) => ColonFree(c)
    case _ => true
  }

  /** A key text cut at its separators. */
  function KeyParts(k: DbKey): seq<string> {
    match k
    case StatKey(e, c) => [Itoa(e), c]
    case GrabberKey(e) => [Itoa(e), GRABBER]
    case HealthKey(e, c) => [HEALTH_TAG, Itoa(e), c]
    case AarpKey(e, c) => [AARP_TAG, Itoa(e), c]
    case PresenceKey(e, c, r) => [PRESENCE_TAG, Itoa(e), c, r]
    case DisabledKey(e, c) => [DISABLED_TAG, Itoa(e), c]
    case OutboxKey(id) => [OUTBOX_TAG] + Split(id)
  }

  lemma TwoParts(a: string, b: string)
    requires ColonFree(a)
    ensures Split(a + ":" + b) == [a] + Split(b)
  {
    SplitConcat(a, b);
    SplitColonFree(a);
  }

  lemma ThreeParts(a: string, b: string, c: string)
    requires ColonFree(a) && ColonFree(b)
    ensures Split(a + ":" + b + ":" + c) == [a, b] + Split(c)
  {
    SplitConcat(a + ":" + b, c);
    TwoParts(a, b);
    SplitColonFree(b);
  }

  lemma TagsAreColonFree()
    ensures ColonFree(GRABBER) && ColonFree(HEALTH_TAG) && ColonFree(AARP_TAG) && ColonFree(PRESENCE_TAG)
    ensures ColonFree(DISABLED_TAG) && ColonFree(OUTBOX_TAG)
  {
  }

  lemma TagsDiffer()
    ensures HEALTH_TAG != AARP_TAG && HEALTH_TAG != PRESENCE_TAG && HEALTH_TAG != DISABLED_TAG &&
        HEALTH_TAG != OUTBOX_TAG
    ensures AARP_TAG != PRESENCE_TAG && AARP_TAG != DISABLED_TAG && AARP_TAG != OUTBOX_TAG
    ensures PRESENCE_TAG != DISABLED_TAG && PRESENCE_TAG != OUTBOX_TAG && DISABLED_TAG != OUTBOX_TAG
  {
    assert |HEALTH_TAG| == 20 && |AARP_TAG| == 4 && |PRESENCE_TAG| == 13 && |DISABLED_TAG| == 13 && |OUTBOX_TAG| == 18;
    assert PRESENCE_TAG[5] == 'P' && DISABLED_TAG[5] == 'D';
  }

  /** A number never starts like a tag. */
  lemma NumberIsNoTag(n: int)
    ensures Itoa(n) != HEALTH_TAG && Itoa(n) != AARP_TAG && Itoa(n) != PRESENCE_TAG && Itoa(n) != DISABLED_TAG &&
        Itoa(n) != OUTBOX_TAG
  {
    NatTextRoundTrip(if n < 0 then -n else n);
    assert n < 0 ==> Itoa(n)[0] == '-';
    assert n >= 0 ==> IsDigit(Itoa(n)[0]);
    assert HEALTH_TAG[0] == 'B' && AARP_TAG[0] == 'A' && PRESENCE_TAG[0] == 'A' && DISABLED_TAG[0] == 'A' &&
        OUTBOX_TAG[0] == 'A';
  }

  lemma SplitKey(k: DbKey)
    requires KeyOk(k)
    ensures Split(KeyText(k)) == KeyParts(k)
  {
    hide Split, Itoa;
    TagsAreColonFree();
    if !k.OutboxKey? { ItoaColonFree(k.epoch); }
    match k
    case StatKey(e, c) => TwoParts(Itoa(e), c); SplitColonFree(c);
    case GrabberKey(e) => TwoParts(Itoa(e), GRABBER); SplitColonFree(GRABBER);
    case HealthKey(e, c) => ThreeParts(HEALTH_TAG, Itoa(e), c); SplitColonFree(c);
    case AarpKey(e, c) => ThreeParts(AARP_TAG, Itoa(e), c); SplitColonFree(c);
    case DisabledKey(e, c) => ThreeParts(DISABLED_TAG, Itoa(e), c); SplitColonFree(c);
    case PresenceKey(e, c, r) =>
      SplitConcat(PRESENCE_TAG + ":" + Itoa(e) + ":" + c, r);
      ThreeParts(PRESENCE_TAG, Itoa(e), c);
      SplitColonFree(c);
      SplitColonFree(r);
    case OutboxKey(id) => TwoParts(OUTBOX_TAG, id);
  }

  /** No two keys share a text. */
  lemma KeyTextInjective(k: DbKey, k': DbKey)
    requires KeyOk(k) && KeyOk(k')
    ensures KeyText(k) == KeyText(k') <==> k == k'
  {
    hide KeyText, Split, Itoa, ColonFree;
    if KeyText(k) == KeyText(k') {
      SplitKey(k);
      SplitKey(k');
      var parts := KeyParts(k);
      assert parts == KeyParts(k');
      TagsDiffer();
      SameKind(k, k');
      match k
      case StatKey(e, c) => assert parts[0] == Itoa(k'.epoch) && parts[1] == k'.creator; ItoaInjective(e, k'.epoch);
      case GrabberKey(e) => assert parts[0] == Itoa(k'.epoch); ItoaInjective(e, k'.epoch);
      case HealthKey(e, c) => assert parts[1] == Itoa(k'.epoch) && parts[2] == k'.creator; ItoaInjective(e, k'.epoch);
      case AarpKey(e, c) => assert parts[1] == Itoa(k'.epoch) && parts[2] == k'.creator; ItoaInjective(e, k'.epoch);
      case DisabledKey(e, c) => assert parts[1] == Itoa(k'.epoch) && parts[2] == k'.creator; ItoaInjective(e, k'.epoch);
      case PresenceKey(e, c, r) =>
        assert parts[1] == Itoa(k'.epoch) && parts[2] == k'.creator && parts[3] == k'.rotated;
        ItoaInjective(e, k'.epoch);
      case OutboxKey(id) =>
        assert parts[1..] == Split(id) && parts[1..] == Split(k'.id);
        SplitInjective(id, k'.id);
    }
  }

  /** The first part tells the kinds of keys apart; stats and snapshots by their second part. */
  lemma SameKind(k: DbKey, k': DbKey)
    requires KeyOk(k) && KeyOk(k') && KeyParts(k) == KeyParts(k')
    ensures k.StatKey? == k'.StatKey? && k.GrabberKey? == k'.GrabberKey? && k.HealthKey? == k'.HealthKey?
    ensures k.AarpKey? == k'.AarpKey? && k.PresenceKey? == k'.PresenceKey? && k.DisabledKey? == k'.DisabledKey? &&
        k.OutboxKey? == k'.OutboxKey?
  {
    hide Split, Itoa, ColonFree;
    TagsDiffer();
    if !k.OutboxKey? { NumberIsNoTag(k.epoch); }
    if !k'.OutboxKey? { NumberIsNoTag(k'.epoch); }
    assert KeyParts(k)[0] == KeyParts(k')[0];
    if (k.StatKey? || k.GrabberKey?) && (k'.StatKey? || k'.GrabberKey?) {
      assert KeyParts(k)[1] == KeyParts(k')[1];
    }
  }

  /** The one collision the key format allows. */
  lemma GrabberCollidesIff(e: int, c: string, f: int)
    ensures KeyText(StatKey(e, c)) == KeyText(GrabberKey(f)) <==> e == f && c == GRABBER
  {
    hide Itoa;
    ItoaColonFree(e);
    ItoaColonFree(f);
    if KeyText(StatKey(e, c)) == KeyText(GrabberKey(f)) {
      assert Itoa(e) + [':'] + c == Itoa(f) + [':'] + GRABBER;
      PeelLeft(':', Itoa(e), c, Itoa(f), GRABBER);
      ItoaInjective(e, f);
    }
  }

  function AarpPrefix(e: int): string { AARP_TAG + ":" + Itoa(e) + ":" }

  /** The scan prefix of an epoch matches that epoch's certificates and nothing else. */
  lemma PrefixSelects(e: int, k: DbKey)
    requires KeyOk(k)
    ensures AarpPrefix(e) <= KeyText(k) <==> k.AarpKey? && k.epoch == e
  {
    hide Split, Itoa;
    TagsAreColonFree();
    ItoaColonFree(e);
    if AarpPrefix(e) <= KeyText(k) {
      var rest := KeyText(k)[|AarpPrefix(e)|..];
      assert KeyText(k) == AARP_TAG + ":" + Itoa(e) + ":" + rest;
      ThreeParts(AARP_TAG, Itoa(e), rest);
      SplitKey(k);
      TagsDiffer();
      if !k.OutboxKey? { NumberIsNoTag(k.epoch); }
      assert KeyParts(k)[0] == AARP_TAG && KeyParts(k)[1] == Itoa(e);
      ItoaInjective(e, k.epoch);
    }
  }

  class StatsStore<V> {
    var db: map<string, V>
    ghost var entries: map<DbKey, V>

    ghost predicate Valid()
      reads this
    {
      && (forall k :: k in entries ==> KeyOk(k) && KeyText(k) in db && db[KeyText(k)] == entries[k])
      && (forall t :: t in db ==> exists k :: k in entries && KeyText(k) == t)
    }

    constructor ()
      ensures Valid() && entries == map[]
    {
      db := map[];
      entries := map[];
    }

    method Put(k: DbKey, v: V)
      requires Valid() && KeyOk(k)
      modifies this
      ensures Valid() && entries == old(entries)[k := v]
    {
      hide KeyText, KeyOk;
      forall k' | k' in entries
        ensures KeyText(k') == KeyText(k) <==> k' == k
      {
        KeyTextInjective(k', k);
      }
      db := db[KeyText(k) := v];
      entries := entries[k := v];
      assert forall t :: t in db && t != KeyText(k) ==> t in old(db);
    }

    method Get(k: DbKey) returns (r: Option<V>)
      requires Valid() && KeyOk(k)
      ensures r == if k in entries then Some(entries[k]) else None
    {
      hide KeyText, KeyOk;
      if KeyText(k) in db {
        ghost var k' :| k' in entries && KeyText(k') == KeyText(k);
        KeyTextInjective(k', k);
        r := Some(db[KeyText(k)]);
      } else {
        r := None;
      }
    }

    method Delete(k: DbKey)
      requires Valid() && KeyOk(k)
      modifies this
      ensures Valid() && entries == old(entries) - {k}
    {
      hide KeyText, KeyOk;
      forall k' | k' in entries
        ensures KeyText(k') == KeyText(k) <==> k' == k
      {
        KeyTextInjective(k', k);
      }
      db := db - {KeyText(k)};
      entries := entries - {k};
    }

    /** The iterator over one epoch's certificates. */
    method ScanAarps(e: int) returns (found: map<string, V>)
      requires Valid()
      ensures forall k :: k in entries && k.AarpKey? && k.epoch == e ==>
          KeyText(k) in found && found[KeyText(k)] == entries[k]
      ensures forall t :: t in found ==>
          exists k :: k in entries && k.AarpKey? && k.epoch == e && KeyText(k) == t && found[t] == entries[k]
    {
      hide KeyText, KeyOk, AarpPrefix;
      found := map[];
      var rest := db.Keys;
      while rest != {}
        invariant rest <= db.Keys
        invariant forall t :: t in found <==> t in db && t !in rest && AarpPrefix(e) <= t
        invariant forall t :: t in found ==> found[t] == db[t]
      {
        var t :| t in rest;
        rest := rest - {t};
        if AarpPrefix(e) <= t {
          found := found[t := db[t]];
        }
      }
      forall k | k in entries
        ensures AarpPrefix(e) <= KeyText(k) <==> k.AarpKey? && k.epoch == e
      {
        PrefixSelects(e, k);
      }
    }
  }
}
