/** Base16 as in section 8 of RFC 4648, with the behaviour of the `hex`
    crate's `decode`: upper- and lower-case digits are both accepted, an odd
    length is rejected before any digit is looked at, and otherwise the first
    character that is not a hex digit is reported. */
module Hex {
  import opened Wrappers
  import opened Text

  predicate IsHexDigit(c: char) {
    ('0' <= c <= '9') || ('a' <= c <= 'f') || ('A' <= c <= 'F')
  }

  predicate AllHexDigits(s: string) {
    forall i :: 0 <= i < |s| ==> IsHexDigit(s[i])
  }

  /** The value 0..15 a hex digit stands for. */
  function HexValue(c: char): (v: nat)
    requires IsHexDigit(c)
    ensures v < 16
  {
    if '0' <= c <= '9' then (c as int) - ('0' as int)
    else if 'a' <= c <= 'f' then (c as int) - ('a' as int) + 10
    else (c as int) - ('A' as int) + 10
  }

  /** The lower-case digit for a value 0..15. */
  function LowerHexDigit(v: nat): (c: char)
    requires v < 16
    ensures IsHexDigit(c) && HexValue(c) == v
    ensures ('0' <= c <= '9') || ('a' <= c <= 'f')
  {
    "0123456789abcdef"[v]
  }

  datatype HexError = OddLength | InvalidHexCharacter(c: char, index: nat)

  /** The byte spelled by the two digits at positions `2 * i` and `2 * i + 1`. */
  function PairValue(s: string, i: nat): byte
    requires 2 * i + 1 < |s| && IsHexDigit(s[2 * i]) && IsHexDigit(s[2 * i + 1])
  {
    HexValue(s[2 * i]) * 16 + HexValue(s[2 * i + 1])
  }

  /** Decodes digit pairs left to right; `offset` is the position of `s[0]`
      in the string the caller was given, for error reporting. */
  function DecodePairs(s: string, offset: nat): (r: Result<seq<byte>, HexError>)
    requires |s| % 2 == 0
    ensures r.Ok? <==> AllHexDigits(s)
    ensures r.Ok? ==> |r.value| * 2 == |s| && forall i :: 0 <= i < |r.value| ==> r.value[i] == PairValue(s, i)
    ensures r.Err? ==>
              && r.error.InvalidHexCharacter?
              && offset <= r.error.index < offset + |s|
              && r.error.c == s[r.error.index - offset] && !IsHexDigit(r.error.c)
              && AllHexDigits(s[..r.error.index - offset])
    decreases |s|
  {
    if |s| == 0 then Ok([])
    else if !IsHexDigit(s[0]) then Err(InvalidHexCharacter(s[0], offset))
    else if !IsHexDigit(s[1]) then Err(InvalidHexCharacter(s[1], offset + 1))
    else
      match DecodePairs(s[2..], offset + 2)
      case Err(e) =>
        assert s[..e.index - offset] == s[..2] + s[2..][..e.index - offset - 2];
        Err(e)
      case Ok(rest) =>
        var r := [PairValue(s, 0)] + rest;
        assert forall i :: 1 <= i < |r| ==> r[i] == PairValue(s[2..], i - 1) == PairValue(s, i);
        assert AllHexDigits(s) by {
          assert forall i :: 2 <= i < |s| ==> s[i] == s[2..][i - 2];
        }
        Ok(r)
  }

  /** `hex::decode`. */
  function Decode(s: string): (r: Result<seq<byte>, HexError>)
    ensures r.Ok? <==> |s| % 2 == 0 && AllHexDigits(s)
    ensures r.Ok? ==> |r.value| * 2 == |s| && forall i :: 0 <= i < |r.value| ==> r.value[i] == PairValue(s, i)
    ensures r == Err(OddLength) <==> |s| % 2 != 0
    ensures r.Err? && r.error.InvalidHexCharacter? ==>
              && r.error.index < |s| && r.error.c == s[r.error.index]
              && !IsHexDigit(r.error.c) && AllHexDigits(s[..r.error.index])
  {
    if |s| % 2 != 0 then Err(OddLength) else DecodePairs(s, 0)
  }
}
