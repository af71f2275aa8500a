/** Decimal numerals and ':'-separated texts, as used by every id, key and signed
    payload of the anchors core (Go's strconv.Itoa, strconv.Atoi, strings.Split). */
module Text {

  datatype Option<+T> = None | Some(value: T)

  const MIN_INT64: int := -0x8000_0000_0000_0000
  const MAX_INT64: int := 0x7FFF_FFFF_FFFF_FFFF

  predicate IsDigit(c: char) { '0' <= c <= '9' }

  predicate AllDigits(s: string) { forall i :: 0 <= i < |s| ==> IsDigit(s[i]) }

  predicate Free(sep: char, s: string) { sep !in s }

  predicate ColonFree(s: string) { Free(':', s) }

  function DigitChar(d: nat): char
    requires d < 10
  {
    ('0' as int + d) as char
  }

  function NatText(n: nat): string {
    if n < 10 then [DigitChar(n)] else NatText(n / 10) + [DigitChar(n % 10)]
  }

  function Itoa(n: int): string {
    if n < 0 then "-" + NatText(-n) else NatText(n)
  }

  function NatValue(s: string): nat
    requires AllDigits(s)
  {
    if s == [] then 0
    else NatValue(s[..|s| - 1]) * 10 + (s[|s| - 1] as int - '0' as int)
  }

  /** strconv.Atoi: an optional sign, at least one digit, and a 64-bit range check. */
  function Atoi(s: string): Option<int> {
    var negative := s != [] && s[0] == '-';
    var digits := if s != [] && (s[0] == '-' || s[0] == '+') then s[1..] else s;
    if digits == [] || !AllDigits(digits) then None
    else
      var n: int := NatValue(digits) * (if negative then -1 else 1);
      if MIN_INT64 <= n <= MAX_INT64 then Some(n) else None
  }

  lemma {:induction false} NatTextRoundTrip(n: nat)
    ensures NatText(n) != [] && AllDigits(NatText(n)) && NatValue(NatText(n)) == n
  {
    if n < 10 {
      assert NatText(n)[..0] == [];
    } else {
      NatTextRoundTrip(n / 10);
      assert NatText(n)[..|NatText(n)| - 1] == NatText(n / 10);
    }
  }

  /** Reading back a printed number gives that number, unless it exceeds 64 bits. */
  lemma AtoiOfItoa(n: int)
    ensures Atoi(Itoa(n)) == if MIN_INT64 <= n <= MAX_INT64 then Some(n) else None
  {
    NatTextRoundTrip(if n < 0 then -n else n);
    assert n < 0 ==> Itoa(n)[1..] == NatText(-n);
    assert n >= 0 ==> IsDigit(Itoa(n)[0]);
  }

  lemma {:induction false} ZeroInFront(s: string)
    requires AllDigits(s)
    ensures AllDigits("0" + s) && NatValue("0" + s) == NatValue(s)
  {
    var t := "0" + s;
    if s == [] {
      assert t[..0] == [];
    } else {
      ZeroInFront(s[..|s| - 1]);
      assert t[..|t| - 1] == "0" + s[..|s| - 1];
    }
  }

  /** A number is read from other spellings too: with a sign, and with zeros in front. */
  lemma OtherSpellings(digits: string)
    requires digits != [] && AllDigits(digits) && NatValue(digits) <= MAX_INT64
    ensures var n: int := NatValue(digits);
            Atoi(digits) == Some(n) && Atoi("+" + digits) == Some(n) && Atoi("-" + digits) == Some(-n)
    ensures NatValue("0" + digits) == NatValue(digits)
  {
    hide NatValue;
    ZeroInFront(digits);
    assert IsDigit(digits[0]);
    assert ("+" + digits)[1..] == digits && ("-" + digits)[1..] == digits;
  }

  /** Nothing is read from a text that does not end in a digit. */
  lemma NumbersEndInDigits(s: string)
    requires Atoi(s).Some?
    ensures s != [] && IsDigit(s[|s| - 1])
  {
    var digits := if s[0] == '-' || s[0] == '+' then s[1..] else s;
    assert digits[|digits| - 1] == s[|s| - 1];
  }

  lemma ItoaInjective(m: int, n: int)
    requires Itoa(m) == Itoa(n)
    ensures m == n
  {
    NatTextRoundTrip(if m < 0 then -m else m);
    NatTextRoundTrip(if n < 0 then -n else n);
    assert m < 0 ==> Itoa(m)[1..] == NatText(-m);
    assert n < 0 ==> Itoa(n)[1..] == NatText(-n);
    assert m >= 0 ==> IsDigit(Itoa(m)[0]);
    assert n >= 0 ==> IsDigit(Itoa(n)[0]);
  }

  lemma ItoaFree(sep: char, n: int)
    requires sep != '-' && !IsDigit(sep)
    ensures Free(sep, Itoa(n))
  {
    NatTextRoundTrip(if n < 0 then -n else n);
  }

  lemma ItoaColonFree(n: int)
    ensures ColonFree(Itoa(n))
  {
    ItoaFree(':', n);
  }

  /** strings.Split(s, ":"). */
  function Split(s: string): (parts: seq<string>)
    ensures parts != []
  {
    if s == [] then [""]
    else if s[0] == ':' then [""] + Split(s[1..])
    else
      var rest := Split(s[1..]);
      [[s[0]] + rest[0]] + rest[1..]
  }

  /** strings.Join(parts, ":"). */
  function Join(parts: seq<string>): string {
    if parts == [] then ""
    else if |parts| == 1 then parts[0]
    else parts[0] + ":" + Join(parts[1..])
  }

  lemma {:induction false} SplitColonFree(s: string)
    requires ColonFree(s)
    ensures Split(s) == [s]
  {
    if s != [] {
      assert forall i :: 0 <= i < |s[1..]| ==> s[1..][i] == s[i + 1];
      SplitColonFree(s[1..]);
      assert [s[0]] + s[1..] == s;
    }
  }

  lemma SplitStep(s: string)
    ensures Split("") == [""]
    ensures s != [] ==>
              Split(s) == if s[0] == ':' then [""] + Split(s[1..]) else [[s[0]] + Split(s[1..])[0]] + Split(s[1..])[1..]
  {
  }

  lemma {:induction false} SplitConcat(a: string, b: string)
    ensures Split(a + ":" + b) == Split(a) + Split(b)
  {
    hide Split;
    var s := a + ":" + b;
    SplitStep(s);
    SplitStep(a);
    if a == [] {
      assert s[1..] == b;
    } else {
      SplitConcat(a[1..], b);
      assert s[1..] == a[1..] + ":" + b && s[0] == a[0];
      var rest := Split(a[1..]);
      assert (rest + Split(b))[1..] == rest[1..] + Split(b) && (rest + Split(b))[0] == rest[0];
    }
  }

  /** Splitting loses nothing: joining the parts gives the text back. */
  lemma {:induction false} JoinOfSplit(s: string)
    ensures Join(Split(s)) == s
  {
    if s != [] {
      JoinOfSplit(s[1..]);
      var rest := Split(s[1..]);
      assert [s[0]] + s[1..] == s;
      if s[0] == ':' {
        assert ([""] + rest)[1..] == rest;
      } else {
        assert ([[s[0]] + rest[0]] + rest[1..])[1..] == rest[1..];
      }
    }
  }

  lemma SplitInjective(s: string, t: string)
    requires Split(s) == Split(t)
    ensures s == t
  {
    JoinOfSplit(s);
    JoinOfSplit(t);
  }

  /** Any part of a split text is itself free of the separator. */
  lemma {:induction false} PartsColonFree(s: string)
    ensures forall i :: 0 <= i < |Split(s)| ==> ColonFree(Split(s)[i])
  {
    if s != [] {
      PartsColonFree(s[1..]);
      var rest := Split(s[1..]);
      if s[0] == ':' {
        assert forall i :: 1 <= i < |Split(s)| ==> Split(s)[i] == rest[i - 1];
      } else {
        assert Split(s)[0] == [s[0]] + rest[0];
        assert ColonFree(rest[0]);
        assert forall i :: 1 <= i < |Split(s)| ==> Split(s)[i] == rest[i];
      }
    }
  }

  lemma OnePartIsColonFree(s: string)
    requires |Split(s)| == 1
    ensures ColonFree(s)
  {
    PartsColonFree(s);
    JoinOfSplit(s);
  }

  /** A text up to the first separator is determined by the whole text. */
  lemma {:induction false} PeelLeft(sep: char, a: string, b: string, a': string, b': string)
    requires Free(sep, a) && Free(sep, a')
    requires a + [sep] + b == a' + [sep] + b'
    ensures a == a' && b == b'
  {
    var s := a + [sep] + b;
    assert s[|a|] == sep && s[|a'|] == sep;
    assert forall i :: 0 <= i < |a| ==> s[i] == a[i];
    assert forall i :: 0 <= i < |a'| ==> s[i] == a'[i];
    assert |a| == |a'|;
    assert a == s[..|a|] && a' == s[..|a'|];
    assert b == s[|a| + 1..] && b' == s[|a'| + 1..];
  }

  predicate IsTriple(text: string, a: string, b: string, c: string) {
    ColonFree(a) && ColonFree(b) && ColonFree(c) && text == a + ":" + b + ":" + c
  }

  /** A text has three fields exactly if it is three ':'-free texts joined. */
  lemma TripleIff(text: string)
    ensures |Split(text)| == 3 ==> IsTriple(text, Split(text)[0], Split(text)[1], Split(text)[2])
    ensures forall a, b, c :: IsTriple(text, a, b, c) ==> Split(text) == [a, b, c]
  {
    hide Split;
    var parts := Split(text);
    if |parts| == 3 {
      PartsColonFree(text);
      JoinOfSplit(text);
      assert parts[1..] == [parts[1], parts[2]] && parts[1..][1..] == [parts[2]];
      assert Join([parts[2]]) == parts[2] && Join(parts[1..]) == parts[1] + ":" + parts[2];
      assert Join(parts) == parts[0] + ":" + (parts[1] + ":" + parts[2]);
    }
    forall a, b, c | IsTriple(text, a, b, c)
      ensures Split(text) == [a, b, c]
    {
      SplitConcat(a + ":" + b, c);
      SplitConcat(a, b);
      SplitColonFree(a);
      SplitColonFree(b);
      SplitColonFree(c);
    }
  }
}
