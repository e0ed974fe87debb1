/**
 * Foundation's `UUID` as the app uses it: a 128-bit value (32 hexadecimal
 * digits), its `uuidString` (upper-case, grouped 8-4-4-4-12 with hyphens) and
 * the failable `UUID(uuidString:)` parse, which accepts either letter case.
 */
module Uuids {
  import opened Options

  type Nibble = x: int | 0 <= x < 16

  /** A UUID is its 32 hexadecimal digits, most significant first. */
  type Uuid = s: seq<Nibble> | |s| == 32 witness seq(32, _ => 0)

  const UpperDigits: string := "0123456789ABCDEF"

  /** The upper-case digit for `n`. */
  function HexChar(n: Nibble): (c: char)
    ensures c in UpperDigits
  {
    UpperDigits[n]
  }

  /** The value of a hexadecimal digit of either case; `None` for any other character. */
  function HexValue(c: char): (r: Option<Nibble>)
    ensures r.Some? <==> ('0' <= c <= '9' || 'a' <= c <= 'f' || 'A' <= c <= 'F')
  {
    if '0' <= c <= '9' then Some(c as int - '0' as int)
    else if 'a' <= c <= 'f' then Some(c as int - 'a' as int + 10)
    else if 'A' <= c <= 'F' then Some(c as int - 'A' as int + 10)
    else None
  }

  function HexString(ns: seq<Nibble>): (s: string)
    ensures |s| == |ns|
  {
    if ns == [] then [] else [HexChar(ns[0])] + HexString(ns[1..])
  }

  /** Decodes a run of hexadecimal digits; `None` as soon as one character is not a digit. */
  function HexDigits(s: string): (r: Option<seq<Nibble>>)
    ensures r.Some? ==> |r.value| == |s|
  {
    if s == [] then Some([])
    else
      match (HexValue(s[0]), HexDigits(s[1..]))
      case (Some(n), Some(rest)) => Some([n] + rest)
      case _ => None
  }

  /** The sizes of the hyphen-separated digit groups of the textual form. */
  const GroupSizes: seq<nat> := [8, 4, 4, 4, 12]

  function Sum(sizes: seq<nat>): nat {
    if sizes == [] then 0 else sizes[0] + Sum(sizes[1..])
  }

  /** The digits `ns`, upper-case, cut into groups of the given sizes joined by hyphens. */
  function Grouped(ns: seq<Nibble>, sizes: seq<nat>): (s: string)
    requires |sizes| > 0 && |ns| == Sum(sizes)
    ensures |s| == |ns| + |sizes| - 1
  {
    if |sizes| == 1 then HexString(ns)
    else HexString(ns[..sizes[0]]) + "-" + Grouped(ns[sizes[0]..], sizes[1..])
  }

  /** Reads digit groups of the given sizes separated by single hyphens, and nothing else. */
  function Ungrouped(s: string, sizes: seq<nat>): (r: Option<seq<Nibble>>)
    requires |sizes| > 0
    ensures r.Some? ==> |r.value| == Sum(sizes) && |s| == Sum(sizes) + |sizes| - 1
  {
    if |sizes| == 1 then
      if |s| == sizes[0] then HexDigits(s) else None
    else if |s| <= sizes[0] || s[sizes[0]] != '-' then None
    else
      match (HexDigits(s[..sizes[0]]), Ungrouped(s[sizes[0] + 1..], sizes[1..]))
      case (Some(a), Some(b)) => Some(a + b)
      case _ => None
  }

  lemma GroupSizesSum()
    ensures Sum(GroupSizes) == 32
  {
    assert Sum(GroupSizes[4..]) == 12;
    assert Sum(GroupSizes[3..]) == 16;
    assert Sum(GroupSizes[2..]) == 20;
    assert Sum(GroupSizes[1..]) == 24;
  }

  /** `uuidString`: 36 characters, upper-case digits grouped 8-4-4-4-12. */
  function UuidString(u: Uuid): (s: string)
    ensures |s| == 36
  {
    GroupSizesSum();
    Grouped(u, GroupSizes)
  }

  /** `UUID(uuidString:)`: the UUID written in `s`, or `None` when `s` is not in that form. */
  function ParseUuid(s: string): (r: Option<Uuid>)
    ensures r.Some? ==> |s| == 36
  {
    GroupSizesSum();
    match Ungrouped(s, GroupSizes)
    case Some(ns) => Some(ns)
    case None => None
  }

  lemma {:induction false} HexValueOfHexChar(n: Nibble)
    ensures HexValue(HexChar(n)) == Some(n)
  {
    assert UpperDigits == ['0','1','2','3','4','5','6','7','8','9','A','B','C','D','E','F'];
  }

  /** Decoding the digits of `ns` gives `ns` back. */
  lemma {:induction false} HexDigitsOfHexString(ns: seq<Nibble>)
    ensures HexDigits(HexString(ns)) == Some(ns)
  {
    if ns != [] {
      HexValueOfHexChar(ns[0]);
      HexDigitsOfHexString(ns[1..]);
      assert HexString(ns)[1..] == HexString(ns[1..]);
      assert [ns[0]] + ns[1..] == ns;
    }
  }

  lemma {:induction false} UngroupedGrouped(ns: seq<Nibble>, sizes: seq<nat>)
    requires |sizes| > 0 && |ns| == Sum(sizes)
    ensures Ungrouped(Grouped(ns, sizes), sizes) == Some(ns)
  {
    if |sizes| == 1 {
      HexDigitsOfHexString(ns);
    } else {
      var k := sizes[0];
      var h, rest := HexString(ns[..k]), Grouped(ns[k..], sizes[1..]);
      var s := h + "-" + rest;
      assert s[..k] == h && s[k] == '-' && s[k + 1..] == rest;
      HexDigitsOfHexString(ns[..k]);
      UngroupedGrouped(ns[k..], sizes[1..]);
      assert ns[..k] + ns[k..] == ns;
    }
  }

  /** Parsing a `uuidString` gives back the UUID it was made from. */
  lemma ParseUuidString(u: Uuid)
    ensures ParseUuid(UuidString(u)) == Some(u)
  {
    GroupSizesSum();
    UngroupedGrouped(u, GroupSizes);
  }

  /** Distinct UUIDs have distinct strings, so a `uuidString` identifies its UUID. */
  lemma UuidStringInjective(u: Uuid, v: Uuid)
    ensures UuidString(u) == UuidString(v) <==> u == v
  {
    ParseUuidString(u);
    ParseUuidString(v);
  }
}
