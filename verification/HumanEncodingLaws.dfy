/**
  The exact laws of the encoding, for every alphabet: both round trips, the length, and which prefixes of two
  encodings agree.
 */
module HumanEncodingLaws {
  import opened HumanEncoding

  // ---- the code is a bijection on whole groups ----

  lemma {:induction false} ZerosSplit(m: nat, n: nat)
    ensures Zeros(m + n) == Zeros(m) + Zeros(n)
  {
  }

  lemma IndexOfAlphabet(s: seq<char>, i: nat)
    requires Distinct(s) && i < |s|
    ensures IndexOf(s, s[i]) == i
  {
  }

  lemma {:induction false} CharsSpell(c: Code, x: Bits)
    requires Sized(c)
    ensures Spells(c, Chars(c, x))
    decreases |x|
  {
    if |x| >= c.k {
      CharsSpell(c, x[c.k..]);
    }
  }

  lemma FirstChar(c: Code, group: Bits, rest: Bits)
    requires Sized(c) && |group| == c.k
    ensures Chars(c, group + rest) == [c.alphabet[FromBits(group)]] + Chars(c, rest)
  {
    var x := group + rest;
    assert x[..c.k] == group && x[c.k..] == rest;
  }

  lemma {:induction false} TextBitsOfChars(c: Code, x: Bits, m: nat)
    requires ValidCode(c) && |x| == Times(c.k, m)
    ensures |Chars(c, x)| == m && Spells(c, Chars(c, x)) && TextBits(c, Chars(c, x)) == x
    decreases m
  {
    CharsSpell(c, x);
    if m > 0 {
      var group, rest := x[..c.k], x[c.k..];
      var index := FromBits(group);
      TextBitsOfChars(c, rest, m - 1);
      assert x == group + rest;
      FirstChar(c, group, rest);
      assert IndexOf(c.alphabet, c.alphabet[index]) == index by { IndexOfAlphabet(c.alphabet, index); }
      assert ToBits(index, c.k) == group by { ToFromBits(group); }
      assert Chars(c, x)[1..] == Chars(c, rest);
    }
  }

  lemma {:induction false} TextBitsLength(c: Code, s: string)
    requires Spells(c, s)
    ensures |TextBits(c, s)| == Times(c.k, |s|)
  {
    if s != [] {
      TextBitsLength(c, s[1..]);
    }
  }

  lemma {:induction false} CharsOfTextBits(c: Code, s: string)
    requires ValidCode(c) && Spells(c, s)
    ensures |TextBits(c, s)| == Times(c.k, |s|) && Chars(c, TextBits(c, s)) == s
  {
    TextBitsLength(c, s);
    if s != [] {
      var index := IndexOf(c.alphabet, s[0]);
      var group, rest := ToBits(index, c.k), TextBits(c, s[1..]);
      CharsOfTextBits(c, s[1..]);
      assert FromBits(group) == index by { FromToBits(index, c.k); }
      assert Chars(c, group + rest) == [s[0]] + s[1..] by { FirstChar(c, group, rest); }
      assert TextBits(c, s) == group + rest;
    }
  }

  lemma CharsPrepend(c: Code, group: Bits, rest: Bits, y: Bits)
    requires Sized(c) && |group| == c.k && Chars(c, rest + y) == Chars(c, rest) + Chars(c, y)
    ensures Chars(c, (group + rest) + y) == Chars(c, group + rest) + Chars(c, y)
  {
    var first := [c.alphabet[FromBits(group)]];
    FirstChar(c, group, rest);
    FirstChar(c, group, rest + y);
    Associative(group, rest, y);
    assert first + (Chars(c, rest) + Chars(c, y)) == (first + Chars(c, rest)) + Chars(c, y);
  }

  lemma {:induction false} CharsAppend(c: Code, x: Bits, m: nat, y: Bits)
    requires Sized(c) && |x| == Times(c.k, m)
    ensures Chars(c, x + y) == Chars(c, x) + Chars(c, y)
    decreases m
  {
    if m == 0 {
      assert x == [] && x + y == y;
    } else {
      var group, rest := x[..c.k], x[c.k..];
      CharsAppend(c, rest, m - 1, y);
      CharsPrepend(c, group, rest, y);
      assert x == group + rest;
    }
  }

  function Repeat(a: char, n: nat): (s: string)
    ensures |s| == n
  {
    seq(n, _ => a)
  }

  lemma {:induction false} CharsOfZeros(c: Code, n: nat)
    requires Sized(c)
    ensures Chars(c, Zeros(Times(c.k, n))) == Repeat(c.alphabet[0], n)
    decreases n
  {
    if n > 0 {
      var x := Zeros(Times(c.k, n));
      CharsOfZeros(c, n - 1);
      ZerosAreZero(c.k);
      assert x[..c.k] == Zeros(c.k) && x[c.k..] == Zeros(Times(c.k, n - 1));
    }
  }

  // ---- bytes and bits ----

  function ZeroBytes(n: nat): (b: seq<Byte>)
    ensures |b| == n
  {
    seq(n, _ => 0)
  }

  lemma FirstByte(n: Byte, x: Bits)
    ensures BitsToBytes(ToBits(n, 8) + x) == [n] + BitsToBytes(x)
  {
    assert Pow2(8) == 256;
    FromToBits(n, 8);
    var all := ToBits(n, 8) + x;
    assert all[..8] == ToBits(n, 8) && all[8..] == x;
  }

  lemma {:induction false} BytesOfZeros(q: nat)
    ensures BitsToBytes(Zeros(8 * q)) == ZeroBytes(q)
  {
    if q > 0 {
      BytesOfZeros(q - 1);
      ZerosAreZero(8);
      ToFromBits(Zeros(8));
      FirstByte(0, Zeros(8 * (q - 1)));
      assert Zeros(8 * q) == Zeros(8) + Zeros(8 * (q - 1));
      assert ZeroBytes(q) == [0] + ZeroBytes(q - 1);
    }
  }

  lemma Associative(x: Bits, y: Bits, z: Bits)
    ensures (x + y) + z == x + (y + z)
  {
  }

  lemma BitsOfFirst(b: seq<Byte>, z: Bits)
    requires b != []
    ensures BytesToBits(b) + z == ToBits(b[0], 8) + (BytesToBits(b[1..]) + z)
  {
    Associative(ToBits(b[0], 8), BytesToBits(b[1..]), z);
  }

  lemma {:induction false} BytesOfBits(b: seq<Byte>, q: nat)
    ensures BitsToBytes(BytesToBits(b) + Zeros(8 * q)) == b + ZeroBytes(q)
  {
    var z := Zeros(8 * q);
    if b == [] {
      BytesOfZeros(q);
      assert BytesToBits(b) + z == z;
    } else {
      BytesOfBits(b[1..], q);
      BitsOfFirst(b, z);
      FirstByte(b[0], BytesToBits(b[1..]) + z);
      assert b == [b[0]] + b[1..];
    }
  }

  lemma {:induction false} BitsOfBytes(x: Bits)
    requires |x| % 8 == 0
    ensures BytesToBits(BitsToBytes(x)) == x
    decreases |x|
  {
    if x != [] {
      BitsOfBytes(x[8..]);
      ToFromBits(x[..8]);
      assert BitsToBytes(x)[1..] == BitsToBytes(x[8..]);
      assert x == x[..8] + x[8..];
    }
  }

  lemma OverhangOf(n: nat, overhang: nat)
    requires n % 8 == 0 && overhang < 8
    ensures (n + overhang) % 8 == overhang
  {
  }

  lemma DropZeros(front: Bits, n: nat)
    ensures DecodedFront(front + Zeros(n), |front|) == Ok(BitsToBytes(front))
  {
    var x := front + Zeros(n);
    assert x[|front|..] == Zeros(n) && x[..|front|] == front;
  }

  lemma DropOverhang(whole: Bits, overhang: nat)
    requires |whole| % 8 == 0 && overhang < 8
    ensures DecodedBits(whole + Zeros(overhang)) == Ok(BitsToBytes(whole))
  {
    var x, n := whole + Zeros(overhang), |whole|;
    OverhangOf(n, overhang);
    assert |x| == n + overhang;
    assert |x| - |x| % 8 == n;
    DropZeros(whole, overhang);
    assert DecodedBits(x) == DecodedFront(x, n);
  }

  lemma DecodedBitsOfParts(b: seq<Byte>, q: nat, overhang: nat)
    requires overhang < 8
    ensures DecodedBits(BytesToBits(b) + Zeros(8 * q + overhang)) == Ok(b + ZeroBytes(q))
  {
    var whole := BytesToBits(b) + Zeros(8 * q);
    assert BytesToBits(b) + Zeros(8 * q + overhang) == whole + Zeros(overhang);
    DropOverhang(whole, overhang);
    BytesOfBits(b, q);
  }

  /** Decoding drops the zero bits that make no byte. */
  lemma DecodedBitsOf(b: seq<Byte>, p: nat)
    ensures DecodedBits(BytesToBits(b) + Zeros(p)) == Ok(b + ZeroBytes(p / 8))
  {
    DecodedBitsOfParts(b, p / 8, p % 8);
  }

  /** What decodes is the bits of the bytes it decodes to, and zeros. */
  lemma BitsOfDecoded(x: Bits)
    requires DecodedBits(x).Ok?
    ensures x == BytesToBits(DecodedBits(x).value) + Zeros(|x| % 8)
  {
    var overhang := |x| % 8;
    BitsOfBytes(x[..|x| - overhang]);
    assert x == x[..|x| - overhang] + x[|x| - overhang..];
  }

  // ---- the laws ----

  /** The bits a decoder sees are the bits of the bytes and the padding. */
  lemma EncodedBits(c: Code, b: seq<Byte>)
    requires ValidCode(c)
    ensures |Encoded(c, b)| == Groups(8 * |b|, c.k) && Spells(c, Encoded(c, b))
    ensures TextBits(c, Encoded(c, b)) == BytesToBits(b) + Zeros(Padding(8 * |b|, c.k))
  {
    PaddingCompletes(8 * |b|, c.k);
    TextBitsOfChars(c, Padded(BytesToBits(b), c.k), Groups(8 * |b|, c.k));
  }

  /** n / k, rounded up */
  function CeilDiv(n: nat, k: nat): int
    requires k > 0
  {
    (n + k - 1) / k
  }

  lemma GroupsAreCeil(bits: nat, k: nat)
    requires k > 0
    ensures Groups(bits, k) == CeilDiv(bits, k)
  {
    PaddingAndGroups(bits, k);
  }

  /** The encoding of n bytes has ceil(8n / k) characters. */
  lemma EncodedLength(c: Code, b: seq<Byte>)
    requires ValidCode(c)
    ensures |Encoded(c, b)| == CeilDiv(8 * |b|, c.k)
  {
    EncodedBits(c, b);
    GroupsAreCeil(8 * |b|, c.k);
  }

  /** Decoding an encoding gives the bytes back, followed by as many zero bytes as fit into the padding. */
  lemma RoundTrip(c: Code, b: seq<Byte>)
    requires ValidCode(c)
    ensures Decoded(c, Encoded(c, b)) == Ok(b + ZeroBytes(Padding(8 * |b|, c.k) / 8))
  {
    EncodedBits(c, b);
    DecodedBitsOf(b, Padding(8 * |b|, c.k));
  }

  /** The bytes come back exactly when the padding is shorter than a byte. */
  lemma RoundTripExactlyWhen(c: Code, b: seq<Byte>)
    requires ValidCode(c)
    ensures Decoded(c, Encoded(c, b)) == Ok(b) <==> Padding(8 * |b|, c.k) < 8
    ensures c.k <= 8 ==> Decoded(c, Encoded(c, b)) == Ok(b)
  {
    RoundTrip(c, b);
    var q := Padding(8 * |b|, c.k) / 8;
    assert |b + ZeroBytes(q)| == |b| + q;
    if q == 0 {
      assert b + ZeroBytes(q) == b;
    }
  }

  /** Encodings of different byte strings differ. */
  lemma EncodedInjective(c: Code, b1: seq<Byte>, b2: seq<Byte>)
    requires ValidCode(c) && |b1| == |b2| && Encoded(c, b1) == Encoded(c, b2)
    ensures b1 == b2
  {
    RoundTrip(c, b1);
    RoundTrip(c, b2);
    assert (b1 + ZeroBytes(Padding(8 * |b1|, c.k) / 8))[..|b1|] == b1;
    assert (b2 + ZeroBytes(Padding(8 * |b2|, c.k) / 8))[..|b2|] == b2;
  }

  /** Any overhang is the padding of the decoded bytes and whole zero characters. */
  lemma OverhangIsPadding(bits: nat, overhang: nat, k: nat, chars: nat) returns (extra: nat)
    requires k > 0 && bits + overhang == Times(k, chars)
    ensures extra == overhang / k && overhang == Padding(bits, k) + Times(k, extra)
  {
    PaddingCompletes(bits, k);
    var p, groups := Padding(bits, k), Groups(bits, k);
    TimesIsProduct(k, chars);
    TimesIsProduct(k, groups);
    assert k * (chars - groups) == overhang - p;
    assert k * (groups - chars) == p - overhang;
    if groups > chars {
      AtLeastFactor(k, groups - chars);
    }
    extra := chars - groups;
    TimesIsProduct(k, extra);
    DivModUnique(overhang, k, extra, p);
  }

  lemma CharsThenZeros(c: Code, x: Bits, m: nat, extra: nat)
    requires Sized(c) && |x| == Times(c.k, m)
    ensures Chars(c, x + Zeros(Times(c.k, extra))) == Chars(c, x) + Repeat(c.alphabet[0], extra)
  {
    CharsAppend(c, x, m, Zeros(Times(c.k, extra)));
    CharsOfZeros(c, extra);
  }

  lemma PaddedThenZeros(x: Bits, k: nat, n: nat)
    requires k > 0
    ensures x + Zeros(Padding(|x|, k) + n) == Padded(x, k) + Zeros(n)
  {
    ZerosSplit(Padding(|x|, k), n);
  }

  /** Bits that are the bits of b and some zeros spell the encoding of b and first characters of the alphabet. */
  lemma SpellsEncoding(c: Code, b: seq<Byte>, extra: nat)
    requires Sized(c)
    ensures Chars(c, BytesToBits(b) + Zeros(Padding(8 * |b|, c.k) + Times(c.k, extra))) ==
      Encoded(c, b) + Repeat(c.alphabet[0], extra)
  {
    var bits := BytesToBits(b);
    PaddedThenZeros(bits, c.k, Times(c.k, extra));
    PaddingCompletes(|bits|, c.k);
    CharsThenZeros(c, Padded(bits, c.k), Groups(|bits|, c.k), extra);
  }

  /** The whole zero characters in the overhang of that many characters. */
  function SpareChars(k: nat, chars: nat): nat
    requires k > 0
  {
    ((k * chars) % 8) / k
  }

  lemma SpareCharsAre(k: nat, chars: nat)
    requires k > 0
    ensures SpareChars(k, chars) == (Times(k, chars) % 8) / k
  {
    TimesIsProduct(k, chars);
  }

  /**
    Whatever decodes is the encoding of what it decodes to, followed by as many first characters of the alphabet
    as fit into the overhang. In particular, with at least 8 bits per character nothing follows.
   */
  lemma ReverseRoundTrip(c: Code, s: string)
    requires ValidCode(c) && Decoded(c, s).Ok?
    ensures s == Encoded(c, Decoded(c, s).value) + Repeat(c.alphabet[0], SpareChars(c.k, |s|))
  {
    CharsOfTextBits(c, s);
    SpareCharsAre(c.k, |s|);
    var x, b := TextBits(c, s), Decoded(c, s).value;
    BitsOfDecoded(x);
    var extra := OverhangIsPadding(8 * |b|, |x| % 8, c.k, |s|);
    SpellsEncoding(c, b, extra);
  }

  /** A string that decodes is the encoding of its decoding exactly when no whole zero character is left over. */
  lemma ReverseExactlyWhen(c: Code, s: string)
    requires ValidCode(c) && Decoded(c, s).Ok?
    ensures s == Encoded(c, Decoded(c, s).value) <==> SpareChars(c.k, |s|) == 0
  {
    ReverseRoundTrip(c, s);
    var e, extra := Encoded(c, Decoded(c, s).value), SpareChars(c.k, |s|);
    assert |s| == |e| + extra;
    if extra == 0 {
      assert e + Repeat(c.alphabet[0], extra) == e;
    }
  }

  // ---- prefixes ----

  lemma {:induction false} TimesMonotone(k: nat, j: nat, m: nat)
    requires j <= m
    ensures Times(k, j) <= Times(k, m)
    decreases m
  {
    if j < m {
      TimesMonotone(k, j, m - 1);
    }
  }

  lemma CharsPrefix(c: Code, x: Bits, m: nat, j: nat)
    requires ValidCode(c) && |x| == Times(c.k, m) && j <= m
    ensures Times(c.k, j) <= |x| && |Chars(c, x)| == m
    ensures Chars(c, x)[..j] == Chars(c, x[..Times(c.k, j)])
  {
    TimesMonotone(c.k, j, m);
    var front, back := x[..Times(c.k, j)], x[Times(c.k, j)..];
    assert x == front + back;
    CharsAppend(c, front, j, back);
    TextBitsOfChars(c, front, j);
    TextBitsOfChars(c, x, m);
  }

  function Min(x: nat, y: nat): nat {
    if x <= y then x else y
  }

  /** The bits of n bytes that the first j characters tell. */
  function SharedBits(n: nat, k: nat, j: nat): (bits: nat)
    ensures bits <= 8 * n
  {
    Min(8 * n, k * j)
  }

  lemma SharedBitsAre(n: nat, k: nat, j: nat)
    ensures SharedBits(n, k, j) == Min(8 * n, Times(k, j))
  {
    TimesIsProduct(k, j);
  }

  /** Encodings of equally long inputs share their first j characters exactly when the inputs share those bits. */
  lemma SamePrefixExactlyWhen(c: Code, b1: seq<Byte>, b2: seq<Byte>, j: nat)
    requires ValidCode(c) && |b1| == |b2| && j <= |Encoded(c, b1)|
    ensures |Encoded(c, b2)| == |Encoded(c, b1)|
    ensures var bits := SharedBits(|b1|, c.k, j);
      Encoded(c, b1)[..j] == Encoded(c, b2)[..j] <==> BytesToBits(b1)[..bits] == BytesToBits(b2)[..bits]
  {
    EncodedBits(c, b1);
    EncodedBits(c, b2);
    SharedBitsAre(|b1|, c.k, j);
    SamePrefix(c, BytesToBits(b1), BytesToBits(b2), j);
  }

  lemma SamePrefix(c: Code, x1: Bits, x2: Bits, j: nat)
    requires ValidCode(c) && |x1| == |x2| && j <= Groups(|x1|, c.k)
    requires |Chars(c, Padded(x1, c.k))| == |Chars(c, Padded(x2, c.k))| == Groups(|x1|, c.k)
    ensures var bits := Min(|x1|, Times(c.k, j));
      Chars(c, Padded(x1, c.k))[..j] == Chars(c, Padded(x2, c.k))[..j] <==> x1[..bits] == x2[..bits]
  {
    PaddingCompletes(|x1|, c.k);
    var z := Zeros(Padding(|x1|, c.k));
    PrefixIsPrefixOfBits(c, x1 + z, x2 + z, Groups(|x1|, c.k), j);
    PaddedPrefixes(x1, x2, z, Times(c.k, j));
  }

  lemma PrefixIsPrefixOfBits(c: Code, y1: Bits, y2: Bits, m: nat, j: nat)
    requires ValidCode(c) && |y1| == |y2| == Times(c.k, m) && j <= m
    ensures Times(c.k, j) <= |y1| && |Chars(c, y1)| == |Chars(c, y2)| == m
    ensures Chars(c, y1)[..j] == Chars(c, y2)[..j] <==> y1[..Times(c.k, j)] == y2[..Times(c.k, j)]
  {
    CharsPrefix(c, y1, m, j);
    CharsPrefix(c, y2, m, j);
    TextBitsOfChars(c, y1[..Times(c.k, j)], j);
    TextBitsOfChars(c, y2[..Times(c.k, j)], j);
  }

  lemma PaddedPrefixes(x1: Bits, x2: Bits, z: Bits, n: nat)
    requires |x1| == |x2| && n <= |x1 + z|
    ensures (x1 + z)[..n] == (x2 + z)[..n] <==> x1[..Min(|x1|, n)] == x2[..Min(|x1|, n)]
  {
    if n <= |x1| {
      assert (x1 + z)[..n] == x1[..n] && (x2 + z)[..n] == x2[..n];
    } else {
      assert (x1 + z)[..n] == x1 + z[..n - |x1|] && (x2 + z)[..n] == x2 + z[..n - |x1|];
      assert x1[..|x1|] == x1 && x2[..|x1|] == x2;
      assert (x1 + z[..n - |x1|])[..|x1|] == x1 && (x2 + z[..n - |x1|])[..|x1|] == x2;
    }
  }

  // ---- the numbers that are spelled ----

  /** The number a text spells to the base 2^k, most significant character first, by position in the alphabet. */
  function Value(c: Code, s: string): nat
    requires Spells(c, s)
  {
    if s == [] then 0 else Value(c, s[..|s| - 1]) * Pow2(c.k) + IndexOf(c.alphabet, s[|s| - 1])
  }

  /** The number the bytes make to the base 256, most significant byte first. */
  function Big(b: seq<Byte>): nat {
    if b == [] then 0 else 256 * Big(b[..|b| - 1]) + b[|b| - 1]
  }

  /** v doubled n times. */
  function Shifted(v: nat, n: nat): nat {
    if n == 0 then v else 2 * Shifted(v, n - 1)
  }

  lemma {:induction false} ShiftedIsProduct(v: nat, n: nat)
    ensures Shifted(v, n) == v * Pow2(n)
  {
    if n > 0 {
      ShiftedIsProduct(v, n - 1);
      Doubled(v, Pow2(n - 1));
    }
  }

  lemma Doubled(v: nat, p: nat)
    ensures 2 * (v * p) == v * (2 * p)
  {
  }

  lemma {:induction false} FromBitsAppend(x: Bits, y: Bits)
    ensures FromBits(x + y) == Shifted(FromBits(x), |y|) + FromBits(y)
    decreases |y|
  {
    if y == [] {
      assert x + y == x;
    } else {
      var front := y[..|y| - 1];
      FromBitsAppend(x, front);
      assert (x + y)[..|x + y| - 1] == x + front;
      assert (x + y)[|x + y| - 1] == y[|y| - 1];
    }
  }

  lemma ValueOfBits(x: Bits, n: nat, len: nat)
    requires n < Pow2(len)
    ensures FromBits(x + ToBits(n, len)) == FromBits(x) * Pow2(len) + n
  {
    FromBitsAppend(x, ToBits(n, len));
    FromToBits(n, len);
    ShiftedIsProduct(FromBits(x), len);
  }

  /** A text spells the number its bits make. */
  lemma {:induction false} ValueIsOfBits(c: Code, s: string)
    requires ValidCode(c) && Spells(c, s)
    ensures Value(c, s) == FromBits(TextBits(c, s))
    decreases |s|
  {
    if s != [] {
      var front, a := s[..|s| - 1], s[|s| - 1];
      assert s == front + [a];
      ValueIsOfBits(c, front);
      TextBitsSnoc(c, front, a);
      ValueOfBits(TextBits(c, front), IndexOf(c.alphabet, a), c.k);
    }
  }

  lemma {:induction false} BytesToBitsSnoc(b: seq<Byte>, x: Byte)
    ensures BytesToBits(b + [x]) == BytesToBits(b) + ToBits(x, 8)
  {
    if b == [] {
      assert b + [x] == [x];
      assert BytesToBits([x]) == ToBits(x, 8) + BytesToBits([]);
    } else {
      BytesToBitsSnoc(b[1..], x);
      assert (b + [x])[1..] == b[1..] + [x] && (b + [x])[0] == b[0];
      Associative(ToBits(b[0], 8), BytesToBits(b[1..]), ToBits(x, 8));
    }
  }

  lemma Pow8()
    ensures Pow2(8) == 256
  {
  }

  lemma {:induction false} BigIsOfBits(b: seq<Byte>)
    ensures Big(b) == FromBits(BytesToBits(b))
    decreases |b|
  {
    if b != [] {
      var front, x := b[..|b| - 1], b[|b| - 1];
      assert b == front + [x];
      BigIsOfBits(front);
      BytesToBitsSnoc(front, x);
      Pow8();
      ValueOfBits(BytesToBits(front), x, 8);
    }
  }

  lemma ValueWithZeros(x: Bits, p: nat)
    ensures FromBits(x + Zeros(p)) == FromBits(x) * Pow2(p)
  {
    FromBitsAppend(x, Zeros(p));
    ZerosAreZero(p);
    ShiftedIsProduct(FromBits(x), p);
  }

  /** The padding that makes n bytes whole characters: (-8n) mod k. */
  lemma PaddingIs(n: nat, k: nat)
    requires k > 0
    ensures Padding(8 * n, k) == (-8 * n) % k
  {
    PaddingCompletes(8 * n, k);
    TimesIsProduct(k, Groups(8 * n, k));
    NegativeMod(8 * n, k, Groups(8 * n, k), Padding(8 * n, k));
  }

  lemma NegativeMod(bits: int, k: int, groups: int, p: int)
    requires k > 0 && 0 <= p < k && bits + p == k * groups
    ensures (-bits) % k == p
  {
    var q: int, r: int := (-bits) / k, (-bits) % k;
    assert -bits == k * q + r;
    SameProduct(k, groups, q);
    assert k * (groups + q) == p - r;
    if groups + q > 0 {
      AtLeastFactor(k, groups + q);
    } else if groups + q < 0 {
      SameProduct(k, -groups, -q);
      AtLeastFactor(k, -groups - q);
    }
  }

  lemma SameProduct(k: int, x: int, y: int)
    ensures k * (x + y) == k * x + k * y && k * (-x) == -(k * x)
  {
  }

  /** The encoding spells the number of the bytes, moved up by the padding: most significant first throughout. */
  lemma EncodedValue(c: Code, b: seq<Byte>)
    requires ValidCode(c)
    ensures Spells(c, Encoded(c, b))
    ensures Value(c, Encoded(c, b)) == Big(b) * Pow2((-8 * |b|) % c.k)
  {
    EncodedBits(c, b);
    ValueIsOfBits(c, Encoded(c, b));
    ValueWithZeros(BytesToBits(b), Padding(8 * |b|, c.k));
    BigIsOfBits(b);
    PaddingIs(|b|, c.k);
  }

  /** A text that decodes spells the number of its bytes, moved up by the overhang. */
  lemma DecodedValue(c: Code, s: string)
    requires ValidCode(c) && Decoded(c, s).Ok?
    ensures Spells(c, s)
    ensures Value(c, s) == Big(Decoded(c, s).value) * Pow2((c.k * |s|) % 8)
  {
    var x := TextBits(c, s);
    TextBitsLength(c, s);
    TimesIsProduct(c.k, |s|);
    BitsOfDecoded(x);
    ValueIsOfBits(c, s);
    ValueWithZeros(BytesToBits(DecodedBits(x).value), |x| % 8);
    BigIsOfBits(DecodedBits(x).value);
  }

  /** A text is determined by its length and the number it spells. */
  lemma ValueDetermines(c: Code, s1: string, s2: string)
    requires ValidCode(c) && Spells(c, s1) && Spells(c, s2)
    requires |s1| == |s2| && Value(c, s1) == Value(c, s2)
    ensures s1 == s2
  {
    ValueIsOfBits(c, s1);
    ValueIsOfBits(c, s2);
    CharsOfTextBits(c, s1);
    CharsOfTextBits(c, s2);
    ToFromBits(TextBits(c, s1));
    ToFromBits(TextBits(c, s2));
  }

  // ---- the alphabet in use ----

  const ALPHABET := "abcdefghjklnpqrstvwxyz0123456789"

  /** A shard id is the encoding of a 64-byte digest; with 32 characters it is 103 characters long. */
  lemma ShardIdLength(c: Code, digest: seq<Byte>)
    requires ValidCode(c) && c.alphabet == ALPHABET && |digest| == 64
    ensures c.k == 5 && |Encoded(c, digest)| == 103
    ensures Decoded(c, Encoded(c, digest)) == Ok(digest)
  {
    assert Pow2(5) == 32;
    FiveBits(c.k);
    EncodedLength(c, digest);
    RoundTripExactlyWhen(c, digest);
  }

  lemma FiveBits(k: nat)
    requires Pow2(k) == 32
    ensures k == 5
  {
    assert Pow2(4) == 16 && Pow2(6) == 64;
    if k < 5 {
      PowersGrow(k, 4);
    } else if k > 5 {
      PowersGrow(6, k);
    }
  }

  lemma {:induction false} PowersGrow(k: nat, l: nat)
    requires k <= l
    ensures Pow2(k) <= Pow2(l)
    decreases l
  {
    if k < l {
      PowersGrow(k, l - 1);
    }
  }
}
