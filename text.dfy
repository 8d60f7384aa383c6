/** The string reversal of main.go (function reverse). A Go string is a sequence
    of bytes; the loop walks it from the last byte to the first and appends
    `string(s[i])`, which is the UTF-8 encoding of the rune whose code point is
    the byte's value: one byte below 0x80, two bytes from 0x80 on. */
module Text {

  newtype byte = x: int | 0 <= x < 256

  /** Go's `string(b)` for a byte `b`: the UTF-8 encoding of code point `b`. */
  function RuneBytes(b: byte): (r: seq<byte>)
    ensures b < 0x80 ==> r == [b]
    ensures b >= 0x80 ==>
              |r| == 2 && (r[0] == 0xC2 || r[0] == 0xC3) && 0x80 <= r[1] < 0xC0 &&
              (r[0] as int - 0xC0) * 64 + (r[1] as int - 0x80) == b as int
  {
    if b < 0x80 then [b] else [0xC0 + b / 64, 0x80 + b % 64]
  }

  /** What reverse returns as written: the encodings of the bytes, last byte first. */
  function GoReverse(s: seq<byte>): seq<byte>
    decreases |s|
  {
    if s == [] then [] else GoReverse(s[1..]) + RuneBytes(s[0])
  }

  /** The bytes of `s` in mirror order. */
  function Mirror(s: seq<byte>): (r: seq<byte>)
    ensures |r| == |s|
    decreases |s|
  {
    if s == [] then [] else Mirror(s[1..]) + [s[0]]
  }

  /** How many bytes of `s` are 0x80 or above. */
  function CountNonAscii(s: seq<byte>): nat
    decreases |s|
  {
    if s == [] then 0 else (if s[0] < 0x80 then 0 else 1) + CountNonAscii(s[1..])
  }

  predicate IsAscii(s: seq<byte>) {
    forall i :: 0 <= i < |s| ==> s[i] < 0x80
  }

  /** reverse as written: the loop from the last index down to 0, appending
      `string(s[i])` to the result. */
  method Reverse(s: seq<byte>) returns (result: seq<byte>)
    ensures result == GoReverse(s)
  {
    result := [];
    var i: int := |s| - 1;
    while i >= 0
      invariant -1 <= i < |s|
      invariant result == GoReverse(s[i + 1..])
      decreases i
    {
      assert s[i..][1..] == s[i + 1..];
      result := result + RuneBytes(s[i]);
      i := i - 1;
    }
    assert s[0..] == s;
  }

  /** reverse with each byte appended as it is: the bytes in mirror order. */
  method ReverseBytes(s: seq<byte>) returns (result: seq<byte>)
    ensures result == Mirror(s)
    ensures |result| == |s| && forall k :: 0 <= k < |s| ==> result[k] == s[|s| - 1 - k]
  {
    result := [];
    var i: int := |s| - 1;
    while i >= 0
      invariant -1 <= i < |s|
      invariant result == Mirror(s[i + 1..])
      decreases i
    {
      assert s[i..][1..] == s[i + 1..];
      result := result + [s[i]];
      i := i - 1;
    }
    assert s[0..] == s;
    forall k | 0 <= k < |s| ensures result[k] == s[|s| - 1 - k] {
      MirrorAt(s, k);
    }
  }

  /** Mirroring puts the byte at `k` at `|s| - 1 - k`. */
  lemma {:induction false} MirrorAt(s: seq<byte>, k: int)
    requires 0 <= k < |s|
    ensures Mirror(s)[k] == s[|s| - 1 - k]
    decreases |s|
  {
    if |s| > 1 {
      MirrorAt(s[1..], if k < |s| - 1 then k else 0);
    }
  }

  /** Mirroring twice gives back the bytes. */
  lemma MirrorInvolution(s: seq<byte>)
    ensures Mirror(Mirror(s)) == s
  {
    if s != [] {
      MirrorAt(s, 0);
      var m := Mirror(s);
      MirrorAt(m, 0);
      forall k | 0 <= k < |s| ensures Mirror(m)[k] == s[k] {
        MirrorAt(m, k);
        MirrorAt(s, |s| - 1 - k);
      }
    }
  }

  /** reverse as written lengthens its input by one byte per byte from 0x80 on. */
  lemma {:induction false} GoReverseLength(s: seq<byte>)
    ensures |GoReverse(s)| == |s| + CountNonAscii(s)
    decreases |s|
  {
    if s != [] {
      GoReverseLength(s[1..]);
    }
  }

  /** On ASCII input, reverse as written is the byte reversal: it keeps the
      length and mirrors the indices. */
  lemma {:induction false} AsciiReverseIsMirror(s: seq<byte>)
    requires IsAscii(s)
    ensures GoReverse(s) == Mirror(s)
    decreases |s|
  {
    if s != [] {
      assert IsAscii(s[1..]) by {
        forall i | 0 <= i < |s[1..]| ensures s[1..][i] < 0x80 {
          assert s[1..][i] == s[i + 1];
        }
      }
      AsciiReverseIsMirror(s[1..]);
    }
  }

  /** On ASCII input, reverse as written undoes itself. */
  lemma AsciiReverseInvolution(s: seq<byte>)
    requires IsAscii(s)
    ensures GoReverse(GoReverse(s)) == s
  {
    AsciiReverseIsMirror(s);
    assert IsAscii(Mirror(s)) by {
      forall k | 0 <= k < |Mirror(s)| ensures Mirror(s)[k] < 0x80 {
        MirrorAt(s, k);
      }
    }
    AsciiReverseIsMirror(Mirror(s));
    MirrorInvolution(s);
  }

  /** The two bytes of "é" (0xC3 0xA9) come back as four bytes, "©Ã", and
      reversing those again does not give "é" back. */
  lemma NonAsciiReverseBreaks()
    ensures GoReverse([0xC3, 0xA9]) == [0xC2, 0xA9, 0xC3, 0x83]
    ensures GoReverse(GoReverse([0xC3, 0xA9])) != [0xC3, 0xA9]
  {
    var s: seq<byte> := [0xC3, 0xA9];
    assert s[1..] == [0xA9];
    assert GoReverse([0xA9]) == [0xC2, 0xA9];
    GoReverseLength([0xC2, 0xA9, 0xC3, 0x83]);
  }
}
