/**
 * The hex dump of the communication log sniffers (ActuatorXmpp2 and ConcentratorXmpp share the
 * same `ToString(Data, Offset, Count)`): the bytes `Data[Offset .. Offset+Count)` as two
 * upper-case hexadecimal digits each, separated by single spaces.
 */
module LogSniffer {
  type Byte = x: int | 0 <= x < 256

  predicate IsHexDigit(c: char)
  {
    '0' <= c <= '9' || 'A' <= c <= 'F'
  }

  /** The upper-case hexadecimal digit of `d`. */
  function Digit(d: int): (c: char)
    requires 0 <= d < 16
    ensures IsHexDigit(c)
  {
    if d < 10 then ('0' as int + d) as char else ('A' as int + d - 10) as char
  }

  /** The value of an upper-case hexadecimal digit. */
  function DigitValue(c: char): int
  {
    if '0' <= c <= '9' then c as int - '0' as int
    else if 'A' <= c <= 'F' then c as int - 'A' as int + 10
    else -1
  }

  lemma DigitRoundTrip(d: int)
    requires 0 <= d < 16
    ensures DigitValue(Digit(d)) == d
  {
  }

  /** `b.ToString("X2")`. */
  function HexToken(b: Byte): (t: string)
    ensures |t| == 2
  {
    [Digit(b / 16), Digit(b % 16)]
  }

  /** A token reads back as its byte. */
  lemma HexTokenRoundTrip(b: Byte)
    ensures 16 * DigitValue(HexToken(b)[0]) + DigitValue(HexToken(b)[1]) == b
  {
    DigitRoundTrip(b / 16);
    DigitRoundTrip(b % 16);
  }

  /** The tokens of `bytes`, separated by single spaces. */
  function HexDump(bytes: seq<Byte>): string
  {
    if |bytes| == 0 then ""
    else if |bytes| == 1 then HexToken(bytes[0])
    else HexDump(bytes[..|bytes| - 1]) + " " + HexToken(bytes[|bytes| - 1])
  }

  /** Appending a byte appends a space (unless it is the first) and its token. */
  lemma HexDumpSnoc(bytes: seq<Byte>, b: Byte)
    ensures HexDump(bytes + [b]) == if bytes == [] then HexToken(b) else HexDump(bytes) + " " + HexToken(b)
  {
    assert (bytes + [b])[..|bytes|] == bytes;
  }

  /** The dump of `n` bytes has length `3n - 1`, or none for no bytes. */
  lemma {:induction false} HexDumpLength(bytes: seq<Byte>)
    ensures |HexDump(bytes)| == if bytes == [] then 0 else 3 * |bytes| - 1
    decreases |bytes|
  {
    if |bytes| >= 2 {
      HexDumpLength(bytes[..|bytes| - 1]);
    }
  }

  /**
   * Token `i` of the dump sits at positions `3i` and `3i + 1`, and a single space at `3i + 2`
   * separates it from the next.
   */
  lemma {:induction false} HexDumpLayout(bytes: seq<Byte>)
    ensures |HexDump(bytes)| == if bytes == [] then 0 else 3 * |bytes| - 1
    ensures forall i :: 0 <= i < |bytes| ==> HexDump(bytes)[3 * i..3 * i + 2] == HexToken(bytes[i])
    ensures forall i :: 0 <= i < |bytes| - 1 ==> HexDump(bytes)[3 * i + 2] == ' '
    decreases |bytes|
  {
    var n := |bytes|;
    HexDumpLength(bytes);
    if n >= 2 {
      var init := bytes[..n - 1];
      HexDumpLayout(init);
      HexDumpLength(init);
      var j0 := HexDump(init);
      var t := HexToken(bytes[n - 1]);
      var j := j0 + " " + t;
      assert HexDump(bytes) == j;
      forall i | 0 <= i < n
        ensures j[3 * i..3 * i + 2] == HexToken(bytes[i])
      {
        if i < n - 1 {
          assert bytes[i] == init[i];
          SliceOfPrefix(j0, " " + t, 3 * i, 3 * i + 2);
          assert j == j0 + (" " + t);
        } else {
          assert j == (j0 + " ") + t;
          SliceOfSuffix(j0 + " ", t);
        }
      }
      forall i | 0 <= i < n - 1
        ensures j[3 * i + 2] == ' '
      {
        assert j == j0 + (" " + t);
        if i < n - 2 {
          assert j[3 * i + 2] == j0[3 * i + 2];
        }
      }
    }
  }

  lemma SliceOfPrefix(a: string, b: string, k: int, m: int)
    requires 0 <= k <= m <= |a|
    ensures (a + b)[k..m] == a[k..m]
  {
  }

  lemma SliceOfSuffix(a: string, b: string)
    ensures (a + b)[|a|..] == b
  {
  }

  /** Every character of a dump is an upper-case hexadecimal digit or a space. */
  lemma {:induction false} HexDumpAlphabet(bytes: seq<Byte>)
    ensures forall c :: c in HexDump(bytes) ==> IsHexDigit(c) || c == ' '
    decreases |bytes|
  {
    if |bytes| >= 2 {
      HexDumpAlphabet(bytes[..|bytes| - 1]);
    }
  }

  /**
   * `ToString`: while `Count-- > 0`, read `Data[Offset++]` and append its token, preceded by
   * a space except the first time. A `Count` of zero or less gives the empty string.
   */
  method ToString(data: array<Byte>, offset: int, count: int) returns (s: string)
    requires count <= 0 || (0 <= offset && offset + count <= data.Length)
    ensures count <= 0 ==> s == ""
    ensures count > 0 ==> s == HexDump(data[offset..offset + count])
  {
    s := "";
    if count <= 0 {
      return;
    }
    ghost var bytes := data[offset..offset + count];
    var first := true;
    var o, c := offset, count;
    while c > 0
      invariant 0 <= c <= count && o == offset + (count - c)
      invariant s == HexDump(bytes[..count - c])
      invariant first <==> c == count
      decreases c
    {
      var b := data[o];
      ghost var before := bytes[..count - c];
      assert b == bytes[count - c];
      assert bytes[..count - c + 1] == before + [b];
      HexDumpSnoc(before, b);
      c := c - 1;
      o := o + 1;
      if first {
        first := false;
      } else {
        s := s + " ";
      }
      s := s + HexToken(b);
    }
    assert bytes[..count] == bytes;
  }
}
