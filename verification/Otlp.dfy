/** The parts of an OTLP request that both ingesters read: byte ids, timestamps and attribute lists. */
module Otlp {
  import opened Collections

  type Byte = x: int | 0 <= x < 256

  const WORD: int := 0x1_0000_0000_0000_0000

  type UInt64 = x: int | 0 <= x < WORD

  type TraceId = b: seq<Byte> | |b| == 16 witness seq(16, _ => 0)
  type SpanId = b: seq<Byte> | |b| == 8 witness seq(8, _ => 0)

  const DIGITS := "0123456789abcdef"

  /** Two lower-case digits a byte, the high half first. */
  function Hex(bytes: seq<Byte>): (s: string)
    ensures |s| == 2 * |bytes|
  {
    if bytes == [] then ""
    else Hex(DropLast(bytes)) + [DIGITS[Last(bytes) / 16], DIGITS[Last(bytes) % 16]]
  }

  lemma DigitsDiffer(i: nat, j: nat)
    requires i < 16 && j < 16 && DIGITS[i] == DIGITS[j]
    ensures i == j
  {
    assert forall k, l :: 0 <= k < l < 16 ==> DIGITS[k] != DIGITS[l];
  }

  /** Ids are equal as text exactly when they are equal as bytes. */
  lemma {:induction false} HexInjective(a: seq<Byte>, b: seq<Byte>)
    ensures Hex(a) == Hex(b) <==> a == b
  {
    if Hex(a) == Hex(b) {
      assert |a| == |b|;
      if a == [] {
      } else {
        var s := Hex(a);
        assert s[..|s| - 2] == Hex(DropLast(a)) && s[..|s| - 2] == Hex(DropLast(b));
        HexInjective(DropLast(a), DropLast(b));
        DigitsDiffer(Last(a) / 16, Last(b) / 16);
        DigitsDiffer(Last(a) % 16, Last(b) % 16);
        assert a == DropLast(a) + [Last(a)] && b == DropLast(b) + [Last(b)];
      }
    }
  }

  /** Each byte, the high half first, in the sixteen lower-case digits. */
  lemma {:induction false} HexDigits(bytes: seq<Byte>, i: nat)
    requires i < |bytes|
    ensures Hex(bytes)[2 * i] == "0123456789abcdef"[bytes[i] / 16]
    ensures Hex(bytes)[2 * i + 1] == "0123456789abcdef"[bytes[i] % 16]
  {
    if i == |bytes| - 1 {
    } else {
      HexDigits(DropLast(bytes), i);
    }
  }

  /** The conversion of an unsigned timestamp to a signed count of nanoseconds. */
  function AsTime(t: UInt64): int {
    if t < WORD / 2 then t else t - WORD
  }

  // ---- attributes ---------------------------------------------------------------------

  /** A value already rendered as text. */
  datatype Attr = Attr(key: string, value: string)

  /** The first entry under `key`, as a lookup in the list finds it. */
  function First(attrs: seq<Attr>, key: string): Option<string> {
    if attrs == [] then None
    else if attrs[0].key == key then Some(attrs[0].value)
    else First(attrs[1..], key)
  }

  /** The last entry under `key`, as filling a map leaves it. */
  function Latest(attrs: seq<Attr>, key: string): Option<string> {
    if attrs == [] then None
    else if Last(attrs).key == key then Some(Last(attrs).value)
    else Latest(DropLast(attrs), key)
  }

  function Lookup(m: map<string, string>, key: string): Option<string> {
    if key in m then Some(m[key]) else None
  }

  ghost predicate IsMapOf(m: map<string, string>, attrs: seq<Attr>) {
    forall k :: Lookup(m, k) == Latest(attrs, k)
  }

  /** The map that filling entry by entry builds. */
  function MapOf(attrs: seq<Attr>): (m: map<string, string>)
    ensures IsMapOf(m, attrs)
  {
    if attrs == [] then map[] else MapOf(DropLast(attrs))[Last(attrs).key := Last(attrs).value]
  }

  method MapAttrs(attrs: seq<Attr>) returns (m: map<string, string>)
    ensures IsMapOf(m, attrs) && m == MapOf(attrs)
  {
    m := map[];
    var i := 0;
    while i < |attrs|
      invariant 0 <= i <= |attrs|
      invariant m == MapOf(attrs[..i])
    {
      assert DropLast(attrs[..i + 1]) == attrs[..i];
      m := m[attrs[i].key := attrs[i].value];
      i := i + 1;
    }
    assert attrs[..i] == attrs;
  }

  /** A key is in the map exactly if some entry carries it. */
  lemma {:induction false} LatestMember(attrs: seq<Attr>, key: string)
    ensures Latest(attrs, key).Some? <==> exists a :: a in attrs && a.key == key
  {
    if attrs == [] {
    } else {
      LatestMember(DropLast(attrs), key);
      assert attrs == DropLast(attrs) + [Last(attrs)];
    }
  }

  ghost predicate FirstUnder(attrs: seq<Attr>, key: string, i: int) {
    && 0 <= i < |attrs| && attrs[i].key == key
    && forall j :: 0 <= j < i ==> attrs[j].key != key
  }

  ghost predicate LastUnder(attrs: seq<Attr>, key: string, i: int) {
    && 0 <= i < |attrs| && attrs[i].key == key
    && forall j :: i < j < |attrs| ==> attrs[j].key != key
  }

  ghost predicate NoneUnder(attrs: seq<Attr>, key: string) {
    forall j :: 0 <= j < |attrs| ==> attrs[j].key != key
  }

  lemma {:induction false} FirstMeaning(attrs: seq<Attr>, key: string)
    ensures First(attrs, key).None? <==> NoneUnder(attrs, key)
    ensures forall i :: FirstUnder(attrs, key, i) ==> First(attrs, key) == Some(attrs[i].value)
  {
    if attrs == [] {
    } else if attrs[0].key == key {
      assert !NoneUnder(attrs, key);
    } else {
      var rest := attrs[1..];
      FirstMeaning(rest, key);
      assert attrs == [attrs[0]] + rest;
      forall i | FirstUnder(attrs, key, i) ensures First(attrs, key) == Some(attrs[i].value) {
        assert FirstUnder(rest, key, i - 1) by {
          assert forall j :: 0 <= j < i - 1 ==> rest[j] == attrs[j + 1];
        }
      }
    }
  }

  lemma {:induction false} LatestMeaning(attrs: seq<Attr>, key: string)
    ensures Latest(attrs, key).None? <==> NoneUnder(attrs, key)
    ensures forall i :: LastUnder(attrs, key, i) ==> Latest(attrs, key) == Some(attrs[i].value)
  {
    if attrs == [] {
    } else {
      var front, n := DropLast(attrs), |attrs| - 1;
      LatestMeaning(front, key);
      assert attrs == front + [attrs[n]];
      if attrs[n].key != key {
        forall i | LastUnder(attrs, key, i) ensures Latest(attrs, key) == Some(attrs[i].value) {
          assert LastUnder(front, key, i);
        }
      }
    }
  }

  /** `m` holds the last value under `key`, and no entry if there is none. */
  ghost predicate HoldsLast(m: map<string, string>, key: string, attrs: seq<Attr>) {
    && (key in m <==> !NoneUnder(attrs, key))
    && forall i :: LastUnder(attrs, key, i) ==> key in m && m[key] == attrs[i].value
  }

  lemma MapMeaning(attrs: seq<Attr>, key: string)
    ensures HoldsLast(MapOf(attrs), key, attrs)
  {
    LatestMeaning(attrs, key);
    var m := MapOf(attrs);
    assert Lookup(m, key) == Latest(attrs, key);
  }
}
