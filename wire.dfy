/** The command protocol on the serial link to the servo controller: an angle
    is sent as its decimal text, encoded as UTF-8, followed by one ';' byte.
    The decoding functions are not part of the host program; they describe
    what a receiver reads back and serve to show that the framing loses
    nothing. */
module Wire {
  import opened Wrappers

  /** A byte on the serial link. */
  newtype byte = b: int | 0 <= b < 256

  /** ';', the byte that ends every command. */
  const Delimiter: byte := 59

  predicate IsDigit(c: char)
  {
    '0' <= c <= '9'
  }

  function DigitChar(d: nat): (c: char)
    requires d < 10
    ensures IsDigit(c)
  {
    (48 + d) as char
  }

  function DigitValue(c: char): (d: nat)
    requires IsDigit(c)
    ensures d < 10 && DigitChar(d) == c
  {
    c as int - 48
  }

  /** The decimal text of a non-negative integer: digits only, and no leading
      zero unless the number is 0 itself. */
  function NatToDecimal(n: nat): (s: string)
    ensures |s| >= 1
    ensures forall i :: 0 <= i < |s| ==> IsDigit(s[i])
    ensures s[0] == '0' ==> n == 0 && s == "0"
    decreases n
  {
    if n < 10 then [DigitChar(n)] else NatToDecimal(n / 10) + [DigitChar(n % 10)]
  }

  /** The decimal text of an integer as Python's `str` writes it: a '-' in
      front of a negative number, then its digits. */
  function IntToDecimal(v: int): (s: string)
    ensures |s| >= 1
    ensures s[0] == '-' <==> v < 0
    ensures forall i :: 0 < i < |s| ==> IsDigit(s[i])
    ensures v >= 0 ==> IsDigit(s[0])
  {
    if v < 0 then "-" + NatToDecimal(-v) else NatToDecimal(v)
  }

  /** Reads a run of decimal digits; None unless the text is non-empty and
      holds digits only. */
  function ParseNat(s: string): (r: Option<nat>)
    ensures r.Some? <==> |s| >= 1 && forall i :: 0 <= i < |s| ==> IsDigit(s[i])
    decreases |s|
  {
    if s == [] || !IsDigit(s[|s| - 1]) then None
    else if |s| == 1 then Some(DigitValue(s[0]))
    else
      match ParseNat(s[..|s| - 1])
      case None => None
      case Some(p) => Some(10 * p + DigitValue(s[|s| - 1]))
  }

  /** Reads an optionally negative decimal integer. */
  function ParseInt(s: string): Option<int>
  {
    if |s| > 0 && s[0] == '-' then
      match ParseNat(s[1..])
      case None => None
      case Some(n) => Some(-(n as int))
    else
      match ParseNat(s)
      case None => None
      case Some(n) => Some(n)
  }

  lemma {:induction false} ParseNatDecimal(n: nat)
    ensures ParseNat(NatToDecimal(n)) == Some(n)
    decreases n
  {
    if n >= 10 {
      var s := NatToDecimal(n);
      assert s[..|s| - 1] == NatToDecimal(n / 10);
      ParseNatDecimal(n / 10);
    }
  }

  /** Reading back the decimal text of any integer gives that integer. */
  lemma ParseIntDecimal(v: int)
    ensures ParseInt(IntToDecimal(v)) == Some(v)
  {
    var s := IntToDecimal(v);
    if v < 0 {
      assert s[1..] == NatToDecimal(-v);
      ParseNatDecimal(-v);
    } else {
      ParseNatDecimal(v);
    }
  }

  /** Distinct integers have distinct decimal texts. */
  lemma DecimalInjective(v: int, w: int)
    requires IntToDecimal(v) == IntToDecimal(w)
    ensures v == w
  {
    ParseIntDecimal(v);
    ParseIntDecimal(w);
  }

  predicate IsAscii(s: string)
  {
    forall i :: 0 <= i < |s| ==> s[i] as int < 128
  }

  /** UTF-8 encoding of ASCII text: one byte per character, its code point. */
  function Utf8(s: string): (bs: seq<byte>)
    requires IsAscii(s)
    ensures |bs| == |s|
    ensures forall i :: 0 <= i < |s| ==> bs[i] as int == s[i] as int
    decreases |s|
  {
    if s == [] then [] else [s[0] as int as byte] + Utf8(s[1..])
  }

  /** The characters a receiver reads from bytes, one per byte. */
  function Chars(bs: seq<byte>): (s: string)
    ensures |s| == |bs|
    ensures forall i :: 0 <= i < |bs| ==> s[i] as int == bs[i] as int
  {
    seq(|bs|, i requires 0 <= i < |bs| => bs[i] as int as char)
  }

  lemma CharsUtf8(s: string)
    requires IsAscii(s)
    ensures Chars(Utf8(s)) == s
  {
  }

  /** `bytes(str(int(v)), "utf-8")`: the digits written for angle v. They are
      never empty and never contain the delimiter. */
  function Digits(v: int): (bs: seq<byte>)
    ensures |bs| >= 1
    ensures Delimiter !in bs
    ensures Chars(bs) == IntToDecimal(v)
  {
    var s := IntToDecimal(v);
    assert IsAscii(s) by {
      forall i | 0 <= i < |s| ensures s[i] as int < 128 {
        assert i == 0 ==> s[0] == '-' || IsDigit(s[0]);
      }
    }
    CharsUtf8(s);
    var bs := Utf8(s);
    assert forall i :: 0 <= i < |bs| ==> bs[i] != Delimiter by {
      forall i | 0 <= i < |bs| ensures bs[i] != Delimiter {
        assert i == 0 ==> s[0] == '-' || IsDigit(s[0]);
      }
    }
    bs
  }

  /** The frame written for angle v: its digits, then the delimiter. */
  function Frame(v: int): seq<byte>
  {
    Digits(v) + [Delimiter]
  }

  /** A frame holds exactly one delimiter: it is the last byte, it appears
      nowhere earlier, and the bytes before it are the angle's digits. */
  lemma FrameShape(v: int)
    ensures |Frame(v)| >= 2 && Frame(v)[|Frame(v)| - 1] == Delimiter
    ensures forall i :: 0 <= i < |Frame(v)| - 1 ==> Frame(v)[i] != Delimiter
    ensures Frame(v)[..|Frame(v)| - 1] == Digits(v)
  {
    var f := Frame(v);
    assert f[..|f| - 1] == Digits(v);
  }

  /** Everything on the link after the frames of `vs` were written in order. */
  function Frames(vs: seq<int>): seq<byte>
  {
    if vs == [] then [] else Frame(vs[0]) + Frames(vs[1..])
  }

  lemma {:induction false} FramesAppend(vs: seq<int>, v: int)
    ensures Frames(vs + [v]) == Frames(vs) + Frame(v)
  {
    if vs == [] {
      assert [v][1..] == [];
    } else {
      assert (vs + [v])[0] == vs[0];
      assert (vs + [v])[1..] == vs[1..] + [v];
      FramesAppend(vs[1..], v);
    }
  }

  /** The position of the first occurrence of x. */
  function FirstIndex(bs: seq<byte>, x: byte): (r: Option<nat>)
    ensures r.None? <==> x !in bs
    ensures r.Some? ==> r.value < |bs| && bs[r.value] == x
    ensures r.Some? ==> forall i :: 0 <= i < r.value ==> bs[i] != x
    decreases |bs|
  {
    if bs == [] then None
    else if bs[0] == x then Some(0)
    else
      match FirstIndex(bs[1..], x)
      case None => None
      case Some(k) => Some(k + 1)
  }

  /** What a receiver reads from the link: split at each delimiter and read
      each piece as an integer; None if any piece is not a number or the last
      command is unterminated. */
  function DecodeStream(bs: seq<byte>): Option<seq<int>>
    decreases |bs|
  {
    if bs == [] then Some([])
    else
      match FirstIndex(bs, Delimiter)
      case None => None
      case Some(k) =>
        match ParseInt(Chars(bs[..k]))
        case None => None
        case Some(v) =>
          match DecodeStream(bs[k + 1..])
          case None => None
          case Some(vs) => Some([v] + vs)
  }

  lemma FirstIndexAfter(d: seq<byte>, rest: seq<byte>)
    requires Delimiter !in d
    ensures FirstIndex(d + [Delimiter] + rest, Delimiter) == Some(|d|)
  {
    var bs := d + [Delimiter] + rest;
    assert bs[|d|] == Delimiter;
    assert forall i :: 0 <= i < |d| ==> bs[i] == d[i];
  }

  /** A receiver reads one frame, then carries on with what follows it. */
  lemma DecodeFrameThen(v: int, rest: seq<byte>)
    ensures DecodeStream(Frame(v) + rest)
            == match DecodeStream(rest) case None => None case Some(vs) => Some([v] + vs)
  {
    var d := Digits(v);
    var bs := Frame(v) + rest;
    assert bs == d + [Delimiter] + rest;
    FirstIndexAfter(d, rest);
    assert bs[..|d|] == d;
    assert bs[|d| + 1..] == rest;
    ParseIntDecimal(v);
  }

  /** The framing loses nothing: the receiver reads back exactly the angles
      sent, in order, however many frames follow one another. */
  lemma {:induction false} DecodeFrames(vs: seq<int>)
    ensures DecodeStream(Frames(vs)) == Some(vs)
  {
    if vs != [] {
      DecodeFrameThen(vs[0], Frames(vs[1..]));
      DecodeFrames(vs[1..]);
      assert [vs[0]] + vs[1..] == vs;
    }
  }

  /** Writing the digits of v and then the delimiter after the frames of
      `vs` appends the frame of v and leaves the frames of `vs + [v]`, which
      read back as `vs + [v]`. */
  lemma SendOneMore(vs: seq<int>, v: int, written: seq<byte>)
    requires written == Frames(vs) + Digits(v) + [Delimiter]
    ensures written == Frames(vs) + Frame(v)
    ensures written == Frames(vs + [v])
    ensures DecodeStream(written) == Some(vs + [v])
  {
    FramesAppend(vs, v);
    DecodeFrames(vs + [v]);
  }

  /** A single frame reads back as its angle. */
  lemma FrameRoundTrip(v: int)
    ensures DecodeStream(Frame(v)) == Some([v])
  {
    assert Frames([v]) == Frame(v) by {
      assert [v][1..] == [];
    }
    DecodeFrames([v]);
  }

  /** Distinct angles give distinct frames. */
  lemma FrameInjective(v: int, w: int)
    requires Frame(v) == Frame(w)
    ensures v == w
  {
    FrameRoundTrip(v);
    FrameRoundTrip(w);
  }

  /** Moving the slider to 45 writes the bytes of "45;". */
  lemma FrameOf45()
    ensures Frame(45) == [52, 53, 59]
  {
  }
}
