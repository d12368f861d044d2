/** Bytes, hexadecimal text and the byte-order reversal of util/util.go. */
module ByteStrings {

  type byte = x: int | 0 <= x < 256
  type Bytes = seq<byte>

  /** What Go's hex.DecodeString returns: the bytes decoded before the first bad
      pair, and whether the whole text was hexadecimal. */
  datatype Decoded = Decoded(bytes: Bytes, ok: bool)

  function HexDigit(n: int): (c: char)
    requires 0 <= n < 16
    ensures HexValue(c) == n && !IsSpace(c)
  {
    if n < 10 then ('0' as int + n) as char else ('a' as int + n - 10) as char
  }

  /** The value of a hexadecimal digit of either case, or -1. */
  function HexValue(c: char): (v: int)
    ensures -1 <= v < 16
  {
    if '0' <= c <= '9' then c as int - '0' as int
    else if 'a' <= c <= 'f' then c as int - 'a' as int + 10
    else if 'A' <= c <= 'F' then c as int - 'A' as int + 10
    else -1
  }

  function HexEncode(b: Bytes): (s: string)
    ensures |s| == 2 * |b|
  {
    if b == [] then "" else [HexDigit(b[0] / 16), HexDigit(b[0] % 16)] + HexEncode(b[1..])
  }

  function HexDecode(s: string): Decoded
  {
    if s == "" then Decoded([], true)
    else if |s| == 1 || HexValue(s[0]) < 0 || HexValue(s[1]) < 0 then Decoded([], false)
    else
      var rest := HexDecode(s[2..]);
      Decoded([16 * HexValue(s[0]) + HexValue(s[1])] + rest.bytes, rest.ok)
  }

  /** Text with a letter that is no digit does not decode. */
  lemma {:induction false} NotHex(s: string, c: char)
    requires c in s && HexValue(c) < 0
    ensures !HexDecode(s).ok
  {
    if |s| > 1 && s[0] != c && s[1] != c {
      assert s == [s[0], s[1]] + s[2..];
      NotHex(s[2..], c);
    }
  }

  lemma HexEncodeStep(b: Bytes)
    requires b != []
    ensures var s := HexEncode(b);
            && s[2..] == HexEncode(b[1..])
            && s[..2] == HexEncode([b[0]])
            && 16 * HexValue(s[0]) + HexValue(s[1]) == b[0]
            && HexValue(s[0]) >= 0 && HexValue(s[1]) >= 0 && !IsSpace(s[0]) && !IsSpace(s[1])
  {
    assert [b[0]][1..] == [];
  }

  lemma {:induction false} HexRoundTrip(b: Bytes)
    ensures HexDecode(HexEncode(b)) == Decoded(b, true)
  {
    if b == [] {
    } else {
      HexRoundTrip(b[1..]);
      HexEncodeStep(b);
      assert [b[0]] + b[1..] == b;
    }
  }

  /** The first digit is the high one; encodings are in lower case, and either case is decoded. */
  lemma HexOfByte(x: byte)
    ensures HexEncode([x]) == [HexDigit(x / 16), HexDigit(x % 16)] && HexDigit(1) == '1' && HexDigit(15) == 'f'
    ensures HexDecode("1f") == Decoded([0x1F], true) && HexDecode("1F") == Decoded([0x1F], true)
  {
    assert [x][1..] == [];
    assert "1f"[2..] == "" && "1F"[2..] == "";
  }

  lemma HexEncodeInjective(a: Bytes, b: Bytes)
    ensures HexEncode(a) == HexEncode(b) <==> a == b
  {
    HexRoundTrip(a);
    HexRoundTrip(b);
  }

  lemma {:induction false} HexEncodeConcat(a: Bytes, b: Bytes)
    ensures HexEncode(a + b) == HexEncode(a) + HexEncode(b)
  {
    if a == [] {
      assert a + b == b;
    } else {
      assert (a + b)[1..] == a[1..] + b;
      HexEncodeConcat(a[1..], b);
    }
  }

  /** Text cut at an even offset decodes piecewise. */
  lemma {:induction false} HexDecodeSplit(a: string, b: string)
    requires |a| % 2 == 0
    ensures HexDecode(a + b).ok <==> HexDecode(a).ok && HexDecode(b).ok
    ensures HexDecode(a + b).ok ==> HexDecode(a + b).bytes == HexDecode(a).bytes + HexDecode(b).bytes
  {
    if a == "" {
      assert a + b == b;
    } else {
      assert (a + b)[2..] == a[2..] + b;
      HexDecodeSplit(a[2..], b);
    }
  }

  lemma {:induction false} HexDecodeLength(s: string)
    requires HexDecode(s).ok
    ensures |s| == 2 * |HexDecode(s).bytes|
  {
    if s == "" {
    } else {
      HexDecodeLength(s[2..]);
    }
  }

  // ---- byte-order reversal -------------------------------------------------

  function Reversed<T>(s: seq<T>): (r: seq<T>)
    ensures |r| == |s|
  {
    if s == [] then [] else Reversed(s[1..]) + [s[0]]
  }

  lemma {:induction false} ReversedAt<T>(s: seq<T>, k: nat)
    requires k < |s|
    ensures Reversed(s)[k] == s[|s| - 1 - k]
  {
    if |s| > 1 && k < |s| - 1 {
      ReversedAt(s[1..], k);
    }
  }

  lemma ReversedTwice<T>(s: seq<T>)
    ensures Reversed(Reversed(s)) == s
  {
    forall k: nat | k < |s| ensures Reversed(Reversed(s))[k] == s[k] {
      ReversedAt(Reversed(s), k);
      ReversedAt(s, |s| - 1 - k);
    }
  }

  /** reverseAny: swaps the ends inwards, in place. */
  method ReverseAny<T>(a: array<T>)
    modifies a
    ensures a[..] == Reversed(old(a[..]))
  {
    var i, j := 0, a.Length - 1;
    while i < j
      invariant 0 <= i <= a.Length && j == a.Length - 1 - i && i <= j + 1
      invariant forall k :: 0 <= k < i ==> a[k] == old(a[a.Length - 1 - k]) && a[a.Length - 1 - k] == old(a[k])
      invariant forall k :: i <= k <= j ==> a[k] == old(a[k])
    {
      a[i], a[j] := a[j], a[i];
      i, j := i + 1, j - 1;
    }
    ghost var was := old(a[..]);
    forall k | 0 <= k < a.Length ensures a[..][k] == Reversed(was)[k] {
      ReversedAt(was, k);
    }
  }

  /** The characters that \S does not match. */
  predicate IsSpace(c: char)
  {
    c == ' ' || c == '\t' || c == '\n' || c == '\r' || c as int == 12
  }

  /** The leftmost, non-overlapping matches of \S{2}. */
  function Pairs(s: string): (ps: seq<string>)
    ensures forall p :: p in ps ==> |p| == 2 && !IsSpace(p[0]) && !IsSpace(p[1])
  {
    if |s| < 2 then []
    else if !IsSpace(s[0]) && !IsSpace(s[1]) then [s[..2]] + Pairs(s[2..])
    else Pairs(s[1..])
  }

  function Joined(ps: seq<string>): string
  {
    if ps == [] then "" else ps[0] + Joined(ps[1..])
  }

  function ReverseTxHex(s: string): string
  {
    Joined(Reversed(Pairs(s)))
  }

  /** ReverseTxHex as the code runs it: collect the pairs, reverse them in place, join. */
  method ReverseTxHexInPlace(s: string) returns (r: string)
    ensures r == ReverseTxHex(s)
  {
    var ps := Pairs(s);
    var a := new string[|ps|](i requires 0 <= i < |ps| => ps[i]);
    assert a[..] == ps;
    ReverseAny(a);
    r := "";
    for i := 0 to a.Length
      invariant a[..] == Reversed(ps)
      invariant r == Joined(a[..i])
    {
      assert a[..i + 1] == a[..i] + [a[i]];
      JoinedOneMore(a[..i], a[i]);
      r := r + a[i];
    }
    assert a[..a.Length] == a[..];
  }

  lemma {:induction false} JoinedAppend(a: seq<string>, b: seq<string>)
    ensures Joined(a + b) == Joined(a) + Joined(b)
  {
    if a == [] {
      assert a + b == b;
    } else {
      assert (a + b)[1..] == a[1..] + b;
      JoinedAppend(a[1..], b);
    }
  }

  lemma JoinedOneMore(a: seq<string>, p: string)
    ensures Joined(a + [p]) == Joined(a) + p
  {
    JoinedAppend(a, [p]);
    assert [p][1..] == [];
  }

  /** A list of space-free pairs is recovered from its concatenation. */
  lemma {:induction false} PairsOfJoined(ps: seq<string>)
    requires forall p :: p in ps ==> |p| == 2 && !IsSpace(p[0]) && !IsSpace(p[1])
    ensures Pairs(Joined(ps)) == ps
  {
    if ps == [] {
    } else {
      PairsOfJoined(ps[1..]);
      assert Joined(ps)[2..] == Joined(ps[1..]);
      assert Joined(ps)[..2] == ps[0];
    }
  }

  predicate PairText(s: string)
  {
    |s| % 2 == 0 && forall i :: 0 <= i < |s| ==> !IsSpace(s[i])
  }

  lemma {:induction false} JoinedIsPairText(ps: seq<string>)
    requires forall p :: p in ps ==> |p| == 2 && !IsSpace(p[0]) && !IsSpace(p[1])
    ensures PairText(Joined(ps))
  {
    if ps == [] {
    } else {
      JoinedIsPairText(ps[1..]);
    }
  }

  lemma {:induction false} JoinedPairs(s: string)
    requires PairText(s)
    ensures Joined(Pairs(s)) == s
  {
    if |s| < 2 {
    } else {
      JoinedPairs(s[2..]);
      assert s[..2] + s[2..] == s;
    }
  }

  lemma ReversedMembers<T>(s: seq<T>)
    ensures forall x :: x in Reversed(s) <==> x in s
  {
    forall k: nat | k < |s| ensures Reversed(s)[k] in s && s[k] in Reversed(s) {
      ReversedAt(s, k);
      ReversedAt(s, |s| - 1 - k);
    }
  }

  /** Reversing twice gives the text back exactly when it is an even number of
      characters without white space: an odd last character and white space are lost. */
  lemma ReverseTxHexInvolution(s: string)
    ensures ReverseTxHex(ReverseTxHex(s)) == s <==> PairText(s)
  {
    var ps := Pairs(s);
    ReversedMembers(ps);
    PairsOfJoined(Reversed(ps));
    ReversedTwice(ps);
    assert ReverseTxHex(ReverseTxHex(s)) == Joined(ps);
    JoinedIsPairText(ps);
    if PairText(s) {
      JoinedPairs(s);
    }
  }

  /** The pairs of a hexadecimal encoding are the encodings of its bytes. */
  lemma {:induction false} PairsOfHex(b: Bytes)
    ensures |Pairs(HexEncode(b))| == |b|
    ensures forall i :: 0 <= i < |b| ==> Pairs(HexEncode(b))[i] == HexEncode([b[i]])
  {
    if b == [] {
    } else {
      HexEncodeStep(b);
      PairsOfHex(b[1..]);
    }
  }

  lemma {:induction false} JoinedHex(b: Bytes, ps: seq<string>)
    requires |ps| == |b|
    requires forall i :: 0 <= i < |b| ==> ps[i] == HexEncode([b[i]])
    ensures Joined(ps) == HexEncode(b)
  {
    if b == [] {
    } else {
      JoinedHex(b[1..], ps[1..]);
      HexEncodeConcat([b[0]], b[1..]);
      assert [b[0]] + b[1..] == b;
    }
  }

  /** Reversal commutes with mapping. */
  lemma ReversedMap<S, T>(b: seq<S>, ps: seq<T>, f: S -> T)
    requires |ps| == |b| && forall i :: 0 <= i < |b| ==> ps[i] == f(b[i])
    ensures forall i :: 0 <= i < |b| ==> Reversed(ps)[i] == f(Reversed(b)[i])
  {
    forall i | 0 <= i < |b| ensures Reversed(ps)[i] == f(Reversed(b)[i]) {
      ReversedAt(ps, i);
      ReversedAt(b, i);
    }
  }

  /** Reversing the display text is encoding the reversed bytes. */
  lemma ReverseTxHexOfEncoding(b: Bytes)
    ensures ReverseTxHex(HexEncode(b)) == HexEncode(Reversed(b))
  {
    PairsOfHex(b);
    var ps := Pairs(HexEncode(b));
    ReversedMap(b, ps, (x: byte) => HexEncode([x]));
    JoinedHex(Reversed(b), Reversed(ps));
  }

  // ---- substrings ----------------------------------------------------------

  predicate ContainsAt<T(==)>(s: seq<T>, sub: seq<T>, i: nat)
  {
    i + |sub| <= |s| && s[i..i + |sub|] == sub
  }

  predicate Contains<T(==)>(s: seq<T>, sub: seq<T>)
  {
    exists i: nat :: i <= |s| && ContainsAt(s, sub, i)
  }

  /** strings.Index: the first occurrence, or -1. */
  function IndexOf<T(==)>(s: seq<T>, sub: seq<T>): (i: int)
    ensures -1 <= i
    ensures i >= 0 ==> ContainsAt(s, sub, i)
    ensures i < 0 ==> !Contains(s, sub)
  {
    IndexFrom(s, sub, 0)
  }

  function IndexFrom<T(==)>(s: seq<T>, sub: seq<T>, from: nat): (i: int)
    requires from <= |s| + 1
    requires forall k: nat :: k < from ==> !ContainsAt(s, sub, k)
    ensures -1 <= i
    ensures i >= 0 ==> ContainsAt(s, sub, i) && forall k: nat :: k < i ==> !ContainsAt(s, sub, k)
    ensures i < 0 ==> !Contains(s, sub)
    decreases |s| + 1 - from
  {
    if from > |s| then -1
    else if ContainsAt(s, sub, from) then from
    else IndexFrom(s, sub, from + 1)
  }
}
