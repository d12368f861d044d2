/** Text as bytes and bytes as text: UTF-8 (section 3 of RFC 3629), and what becomes of bytes
    that are not UTF-8 when encoding/json writes them. */
module Utf8 {
  import opened ByteStrings

  function EncodeRune(c: char): (b: Bytes)
    ensures 1 <= |b| <= 4
  {
    var n := c as int;
    if n < 0x80 then [n]
    else if n < 0x800 then [0xC0 + n / 0x40, 0x80 + n % 0x40]
    else if n < 0x1_0000 then [0xE0 + n / 0x1000, 0x80 + n / 0x40 % 0x40, 0x80 + n % 0x40]
    else [0xF0 + n / 0x4_0000, 0x80 + n / 0x1000 % 0x40, 0x80 + n / 0x40 % 0x40, 0x80 + n % 0x40]
  }

  predicate IsTail(x: byte)
  {
    0x80 <= x < 0xC0
  }

  /** The number of bytes of the first character; 0 where there is none. Overlong forms,
      surrogates and values above U+10FFFF are none. */
  function RuneLength(b: Bytes): (n: nat)
    ensures n <= |b| && n <= 4
  {
    if b == [] then 0
    else if b[0] < 0x80 then 1
    else if |b| >= 2 && 0xC2 <= b[0] < 0xE0 && IsTail(b[1]) then 2
    else if |b| >= 3 && 0xE0 <= b[0] < 0xF0 && IsTail(b[1]) && IsTail(b[2])
            && (b[0] == 0xE0 ==> b[1] >= 0xA0) && (b[0] == 0xED ==> b[1] < 0xA0) then 3
    else if |b| >= 4 && 0xF0 <= b[0] < 0xF5 && IsTail(b[1]) && IsTail(b[2]) && IsTail(b[3])
            && (b[0] == 0xF0 ==> b[1] >= 0x90) && (b[0] == 0xF4 ==> b[1] < 0x90) then 4
    else 0
  }

  /** A digit of six bits put behind a number. */
  function Join(high: int, x: byte): int
  {
    high * 0x40 + (x as int - 0x80)
  }

  function Lead(x: byte, mark: int): int
  {
    x as int - mark
  }

  function RuneValue(b: Bytes): (v: int)
    requires RuneLength(b) > 0
    ensures 0 <= v < 0xD800 || 0xE000 <= v < 0x11_0000
  {
    var n := RuneLength(b);
    if n == 1 then b[0] as int
    else if n == 2 then Join(Lead(b[0], 0xC0), b[1])
    else if n == 3 then Join(Join(Lead(b[0], 0xE0), b[1]), b[2])
    else Join(Join(Join(Lead(b[0], 0xF0), b[1]), b[2]), b[3])
  }

  function FirstRune(b: Bytes): char
    requires RuneLength(b) > 0
  {
    RuneValue(b) as char
  }

  /** The bytes of a text. */
  function TextBytes(s: string): (b: Bytes)
    ensures |b| >= |s|
  {
    if s == "" then [] else EncodeRune(s[0]) + TextBytes(s[1..])
  }

  /** Bytes written and read back as JSON text: a byte that starts no character becomes U+FFFD. */
  function RawText(b: Bytes): string
  {
    if b == [] then ""
    else if RuneLength(b) == 0 then ['\U{FFFD}'] + RawText(b[1..])
    else [FirstRune(b)] + RawText(b[RuneLength(b)..])
  }

  /** Whether the bytes are UTF-8. */
  predicate IsText(b: Bytes)
  {
    b == [] || (RuneLength(b) > 0 && IsText(b[RuneLength(b)..]))
  }

  lemma EncodeFirst(b: Bytes)
    requires RuneLength(b) > 0
    ensures EncodeRune(FirstRune(b)) == b[..RuneLength(b)]
  {
    var n := RuneLength(b);
    if n == 2 {
      JoinSplits(Lead(b[0], 0xC0), b[1]);
    } else if n == 3 {
      JoinSplits(Lead(b[0], 0xE0), b[1]);
      JoinSplits(Join(Lead(b[0], 0xE0), b[1]), b[2]);
      HighDigits(RuneValue(b));
    } else if n == 4 {
      JoinSplits(Lead(b[0], 0xF0), b[1]);
      JoinSplits(Join(Lead(b[0], 0xF0), b[1]), b[2]);
      JoinSplits(Join(Join(Lead(b[0], 0xF0), b[1]), b[2]), b[3]);
      HighDigits(RuneValue(b));
    }
  }

  lemma JoinSplits(high: int, x: byte)
    requires high >= 0 && IsTail(x)
    ensures Join(high, x) / 0x40 == high && Join(high, x) % 0x40 == x as int - 0x80
  {
  }

  lemma HighDigits(v: int)
    requires v >= 0
    ensures v / 0x40 / 0x40 == v / 0x1000 && v / 0x40 / 0x40 / 0x40 == v / 0x4_0000
    ensures v / 0x1000 % 0x40 == v / 0x40 / 0x40 % 0x40
  {
  }

  lemma RuneOfEncoded(c: char, rest: Bytes)
    ensures RuneLength(EncodeRune(c) + rest) == |EncodeRune(c)|
  {
  }

  lemma {:induction false} TextBytesConcat(a: string, b: string)
    ensures TextBytes(a + b) == TextBytes(a) + TextBytes(b)
  {
    if a == "" {
      assert a + b == b;
    } else {
      assert (a + b)[1..] == a[1..] + b;
      TextBytesConcat(a[1..], b);
    }
  }

  lemma SplitJoins(v: int)
    requires v >= 0
    ensures Join(v / 0x40, 0x80 + v % 0x40) == v
  {
  }

  /** The value of a character split into digits of six bits. */
  lemma DigitsJoin(n: int)
    requires n >= 0
    ensures Join(Join(n / 0x1000, 0x80 + n / 0x40 % 0x40), 0x80 + n % 0x40) == n
    ensures Join(Join(Join(n / 0x4_0000, 0x80 + n / 0x1000 % 0x40), 0x80 + n / 0x40 % 0x40), 0x80 + n % 0x40) == n
  {
    HighDigits(n);
    SplitJoins(n);
    SplitJoins(n / 0x40);
    SplitJoins(n / 0x1000);
  }

  lemma ValueOfEncoded(c: char, b: Bytes)
    requires EncodeRune(c) <= b && RuneLength(b) == |EncodeRune(c)|
    ensures RuneValue(b) == c as int
  {
    SplitJoins(c as int);
    DigitsJoin(c as int);
  }

  /** The first character is read back from its bytes. */
  lemma FirstOfEncoded(c: char, rest: Bytes)
    ensures RuneLength(EncodeRune(c) + rest) == |EncodeRune(c)| && FirstRune(EncodeRune(c) + rest) == c
  {
    RuneOfEncoded(c, rest);
    ValueOfEncoded(c, EncodeRune(c) + rest);
  }

  /** Every text is read back from its bytes, so no two texts have the same bytes. */
  lemma {:induction false} TextReadBack(s: string)
    ensures RawText(TextBytes(s)) == s
  {
    if s != "" {
      FirstOfEncoded(s[0], TextBytes(s[1..]));
      TextReadBack(s[1..]);
      assert TextBytes(s)[|EncodeRune(s[0])|..] == TextBytes(s[1..]);
    }
  }

  /** Every text's bytes are UTF-8. */
  lemma {:induction false} EncodedIsText(s: string)
    ensures IsText(TextBytes(s))
  {
    if s != "" {
      RuneOfEncoded(s[0], TextBytes(s[1..]));
      assert TextBytes(s)[|EncodeRune(s[0])|..] == TextBytes(s[1..]);
      EncodedIsText(s[1..]);
    }
  }

  lemma ReadBackStep(b: Bytes)
    requires b != []
    ensures RuneLength(b) > 0 ==> TextBytes(RawText(b)) == b[..RuneLength(b)] + TextBytes(RawText(b[RuneLength(b)..]))
    ensures RuneLength(b) == 0 ==> TextBytes(RawText(b)) == [0xEF, 0xBF, 0xBD] + TextBytes(RawText(b[1..]))
  {
    if RuneLength(b) > 0 {
      EncodeFirst(b);
      TextBytesConcat([FirstRune(b)], RawText(b[RuneLength(b)..]));
      OneRune(FirstRune(b));
    } else {
      TextBytesConcat(['\U{FFFD}'], RawText(b[1..]));
      OneRune('\U{FFFD}');
    }
  }

  lemma OneRune(c: char)
    ensures TextBytes([c]) == EncodeRune(c)
  {
    assert [c][1..] == "";
  }

  /** Bytes come back from JSON as they were exactly when they are UTF-8; otherwise there are
      more of them. */
  lemma {:induction false} ReadBackExactly(b: Bytes)
    ensures TextBytes(RawText(b)) == b <==> IsText(b)
    ensures |TextBytes(RawText(b))| >= |b|
    ensures |TextBytes(RawText(b))| == |b| <==> IsText(b)
  {
    if b != [] {
      var n := if RuneLength(b) == 0 then 1 else RuneLength(b);
      ReadBackExactly(b[n..]);
      ReadBackStep(b);
      assert b == b[..n] + b[n..];
      if RuneLength(b) > 0 && TextBytes(RawText(b)) == b {
        assert TextBytes(RawText(b[n..])) == b[n..];
      }
    }
  }

  function Zeros(b: Bytes): nat
  {
    if b == [] then 0 else (if b[0] == 0 then 1 else 0) + Zeros(b[1..])
  }

  lemma {:induction false} ZerosConcat(a: Bytes, b: Bytes)
    ensures Zeros(a + b) == Zeros(a) + Zeros(b)
  {
    if a == [] {
      assert a + b == b;
    } else {
      assert (a + b)[1..] == a[1..] + b;
      ZerosConcat(a[1..], b);
    }
  }

  /** No zero byte comes or goes. */
  lemma {:induction false} ZerosKept(b: Bytes)
    ensures Zeros(TextBytes(RawText(b))) == Zeros(b)
  {
    if b != [] {
      var n := if RuneLength(b) == 0 then 1 else RuneLength(b);
      ZerosKept(b[n..]);
      ReadBackStep(b);
      ZerosConcat(b[..n], b[n..]);
      assert b == b[..n] + b[n..];
      if RuneLength(b) > 0 {
        ZerosConcat(b[..n], TextBytes(RawText(b[n..])));
      } else {
        ZerosConcat([0xEF, 0xBF, 0xBD], TextBytes(RawText(b[1..])));
        NoZeros(b[..1], [0xEF, 0xBF, 0xBD]);
      }
    }
  }

  lemma NoZeros(b: Bytes, mark: Bytes)
    requires |b| == 1 && b[0] != 0 && mark == [0xEF, 0xBF, 0xBD]
    ensures Zeros(b) == 0 && Zeros(mark) == 0
  {
    assert Zeros(mark) == Zeros(mark[1..]);
    assert Zeros(mark[1..]) == Zeros(mark[1..][1..]);
    assert mark[1..][1..] == [0xBD];
    assert b[1..] == [] && [0xBD][1..] == [];
  }

  /** ... so padding with zeros does not make up for what a replacement adds. */
  lemma PaddingShows(v: Bytes, x: Bytes, pad: nat)
    requires TextBytes(RawText(v)) + x == v + (x + seq(pad, i => 0))
    ensures pad == 0
  {
    var zeros: Bytes := seq(pad, i => 0);
    ZerosKept(v);
    ZerosConcat(TextBytes(RawText(v)), x);
    ZerosConcat(v, x + zeros);
    ZerosConcat(x, zeros);
    PadHasZeros(pad);
  }

  lemma PadHasZeros(pad: nat)
    ensures var zeros: Bytes := seq(pad, i => 0); pad > 0 ==> Zeros(zeros) > 0
  {
  }

  /** ASCII in front does not change whether bytes are UTF-8. */
  lemma {:induction false} AsciiInFront(a: Bytes, b: Bytes)
    requires forall i :: 0 <= i < |a| ==> a[i] < 0x80
    ensures IsText(a + b) <==> IsText(b)
  {
    if a == [] {
      assert a + b == b;
    } else {
      assert (a + b)[1..] == a[1..] + b;
      AsciiInFront(a[1..], b);
    }
  }

  /** An ASCII byte comes back as its character. */
  lemma {:induction false} AsciiKept(b: Bytes, x: byte)
    requires x in b && x < 0x80
    ensures x as char in RawText(b)
  {
    var n := if RuneLength(b) == 0 then 1 else RuneLength(b);
    assert b == b[..n] + b[n..];
    if x in b[n..] {
      AsciiKept(b[n..], x);
    } else {
      assert x in b[..n];
      assert n == 1 && b[0] == x;
    }
  }
}
