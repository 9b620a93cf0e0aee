/**
  The human-readable encoding of byte strings: a base 2^k code over an alphabet, most significant bit first,
  with zero padding at the end.
 */
module HumanEncoding {

  type Bits = seq<bool>

  type Byte = x: int | 0 <= x < 256

  // ---- numbers as bits ----

  function Pow2(n: nat): (p: nat)
    ensures p >= 1
  {
    if n == 0 then 1 else 2 * Pow2(n - 1)
  }

  function ToBits(n: nat, len: nat): (b: Bits)
    ensures |b| == len
    decreases len
  {
    if len == 0 then [] else ToBits(n / 2, len - 1) + [n % 2 == 1]
  }

  function FromBits(b: Bits): (n: nat)
    ensures n < Pow2(|b|)
    decreases |b|
  {
    if b == [] then 0 else 2 * FromBits(b[..|b| - 1]) + if b[|b| - 1] then 1 else 0
  }

  lemma {:induction false} FromToBits(n: nat, len: nat)
    requires n < Pow2(len)
    ensures FromBits(ToBits(n, len)) == n
    decreases len
  {
    if len > 0 {
      FromToBits(n / 2, len - 1);
      assert ToBits(n, len)[..len - 1] == ToBits(n / 2, len - 1);
    }
  }

  lemma {:induction false} ToFromBits(b: Bits)
    ensures ToBits(FromBits(b), |b|) == b
    decreases |b|
  {
    if b != [] {
      ToFromBits(b[..|b| - 1]);
      assert FromBits(b) / 2 == FromBits(b[..|b| - 1]);
    }
  }

  function Zeros(n: nat): (b: Bits)
    ensures |b| == n
  {
    seq(n, _ => false)
  }

  lemma {:induction false} ZerosAreZero(n: nat)
    ensures FromBits(Zeros(n)) == 0
    decreases n
  {
    if n > 0 {
      ZerosAreZero(n - 1);
      assert Zeros(n)[..n - 1] == Zeros(n - 1);
    }
  }

  // ---- bytes as bits ----

  function BytesToBits(b: seq<Byte>): (x: Bits)
    ensures |x| == 8 * |b|
  {
    if b == [] then [] else ToBits(b[0], 8) + BytesToBits(b[1..])
  }

  /** The whole bytes; fewer than 8 bits at the end make no byte. */
  function BitsToBytes(x: Bits): (b: seq<Byte>)
    ensures 8 * |b| <= |x| < 8 * |b| + 8
    decreases |x|
  {
    if |x| < 8 then [] else
      assert Pow2(8) == 256;
      [FromBits(x[..8])] + BitsToBytes(x[8..])
  }

  // ---- the code ----

  /** k bits per character; the alphabet holds exactly the characters in use. */
  datatype Code = Code(k: nat, alphabet: seq<char>)

  ghost predicate Distinct(s: seq<char>) {
    forall i, j :: 0 <= i < j < |s| ==> s[i] != s[j]
  }

  /** There is a character for every group of k bits. */
  predicate Sized(c: Code) {
    c.k > 0 && |c.alphabet| == Pow2(c.k)
  }

  ghost predicate ValidCode(c: Code) {
    Sized(c) && Distinct(c.alphabet)
  }

  function IndexOf(s: seq<char>, c: char): (i: nat)
    requires c in s
    ensures i < |s| && s[i] == c
  {
    if s[0] == c then 0 else 1 + IndexOf(s[1..], c)
  }

  ghost predicate Spells(c: Code, s: string) {
    forall i :: 0 <= i < |s| ==> s[i] in c.alphabet
  }

  /** One character for every k bits; fewer than k bits at the end make no character. */
  function Chars(c: Code, x: Bits): (s: string)
    requires Sized(c)
    decreases |x|
  {
    if |x| < c.k then [] else [c.alphabet[FromBits(x[..c.k])]] + Chars(c, x[c.k..])
  }

  function TextBits(c: Code, s: string): (x: Bits)
    requires forall i :: 0 <= i < |s| ==> s[i] in c.alphabet
  {
    if s == [] then [] else ToBits(IndexOf(c.alphabet, s[0]), c.k) + TextBits(c, s[1..])
  }

  /** The zero bits that fill the last character. */
  function Padding(bits: nat, k: nat): (p: nat)
    requires k > 0
    ensures p < k
    decreases bits
  {
    if bits == 0 then 0 else if bits <= k then k - bits else Padding(bits - k, k)
  }

  /** The characters it takes to spell that many bits. */
  function Groups(bits: nat, k: nat): nat
    requires k > 0
    decreases bits
  {
    if bits == 0 then 0 else if bits <= k then 1 else 1 + Groups(bits - k, k)
  }

  function Padded(x: Bits, k: nat): Bits
    requires k > 0
  {
    x + Zeros(Padding(|x|, k))
  }

  /** The group that starts at the given bit; the last one is filled with zeros. */
  function GroupAt(x: Bits, at: nat, k: nat): (g: Bits)
    requires at < |x|
    ensures |g| == k
  {
    if at + k <= |x| then x[at..at + k] else x[at..] + Zeros(k - (|x| - at))
  }

  function Encoded(c: Code, b: seq<Byte>): string
    requires Sized(c)
  {
    Chars(c, Padded(BytesToBits(b), c.k))
  }

  datatype Error = NotInitialized | NotUnique | AlphabetTooShort | UnknownCharacter | OverhangNotZero

  datatype Result<T> = Ok(value: T) | Err(error: Error)

  /** The first n bits as bytes, if what follows is zero. */
  function DecodedFront(x: Bits, n: nat): Result<seq<Byte>>
    requires n <= |x|
  {
    if x[n..] != Zeros(|x| - n) then Err(OverhangNotZero) else Ok(BitsToBytes(x[..n]))
  }

  function DecodedBits(x: Bits): Result<seq<Byte>> {
    DecodedFront(x, |x| - |x| % 8)
  }

  ghost function Decoded(c: Code, s: string): Result<seq<Byte>> {
    if Spells(c, s) then DecodedBits(TextBits(c, s)) else Err(UnknownCharacter)
  }

  /** floor(log2(n)), which the source computes in floating point. */
  function FloorLog2(n: nat): (k: nat)
    requires n > 0
    ensures Pow2(k) <= n < Pow2(k + 1)
  {
    if n == 1 then 0 else 1 + FloorLog2(n / 2)
  }

  // ---- the tables and the loops of the source ----

  /** The first n characters of the alphabet are entered in both directions, and nothing else is. */
  ghost predicate Tables(c: Code, bitsToChar: map<Bits, char>, charToBits: map<char, Bits>, n: nat)
    requires n <= |c.alphabet|
  {
    && (forall i :: 0 <= i < n ==> Entered(c, bitsToChar, charToBits, i))
    && (forall a :: a in charToBits ==> a in c.alphabet[..n])
  }

  ghost predicate Entered(c: Code, bitsToChar: map<Bits, char>, charToBits: map<char, Bits>, i: nat)
    requires i < |c.alphabet|
  {
    && ToBits(i, c.k) in bitsToChar && bitsToChar[ToBits(i, c.k)] == c.alphabet[i]
    && c.alphabet[i] in charToBits && charToBits[c.alphabet[i]] == ToBits(i, c.k)
  }

  lemma LookupChar(c: Code, bitsToChar: map<Bits, char>, charToBits: map<char, Bits>, group: Bits)
    requires ValidCode(c) && Tables(c, bitsToChar, charToBits, |c.alphabet|)
    requires |group| == c.k
    ensures group in bitsToChar && bitsToChar[group] == c.alphabet[FromBits(group)]
  {
    ToFromBits(group);
    assert Entered(c, bitsToChar, charToBits, FromBits(group));
  }

  lemma LookupBits(c: Code, bitsToChar: map<Bits, char>, charToBits: map<char, Bits>, a: char)
    requires ValidCode(c) && Tables(c, bitsToChar, charToBits, |c.alphabet|)
    ensures a in charToBits <==> a in c.alphabet
    ensures a in c.alphabet ==> charToBits[a] == ToBits(IndexOf(c.alphabet, a), c.k)
  {
    assert c.alphabet[..|c.alphabet|] == c.alphabet;
    if a in c.alphabet {
      assert Entered(c, bitsToChar, charToBits, IndexOf(c.alphabet, a));
    }
  }

  /** A new entry leaves the older ones alone: it has another group and another character. */
  lemma EnteredKept(c: Code, bitsToChar: map<Bits, char>, charToBits: map<char, Bits>, i: nat, n: nat)
    requires ValidCode(c) && i < n < |c.alphabet| && Entered(c, bitsToChar, charToBits, i)
    ensures Entered(c, bitsToChar[ToBits(n, c.k) := c.alphabet[n]], charToBits[c.alphabet[n] := ToBits(n, c.k)], i)
  {
    FromToBits(i, c.k);
    FromToBits(n, c.k);
    assert c.alphabet[i] != c.alphabet[n];
  }

  lemma EnterNext(c: Code, bitsToChar: map<Bits, char>, charToBits: map<char, Bits>, n: nat)
    requires ValidCode(c) && n < |c.alphabet| && Tables(c, bitsToChar, charToBits, n)
    ensures Tables(c, bitsToChar[ToBits(n, c.k) := c.alphabet[n]], charToBits[c.alphabet[n] := ToBits(n, c.k)], n + 1)
  {
    var b2c, c2b := bitsToChar[ToBits(n, c.k) := c.alphabet[n]], charToBits[c.alphabet[n] := ToBits(n, c.k)];
    assert c.alphabet[..n + 1] == c.alphabet[..n] + [c.alphabet[n]];
    forall i | 0 <= i < n + 1 ensures Entered(c, b2c, c2b, i) {
      if i < n {
        EnteredKept(c, bitsToChar, charToBits, i, n);
      }
    }
  }

  class Encoding {
    var bitsToChar: map<Bits, char>
    var charToBits: map<char, Bits>
    var bitsPerChar: nat
    ghost var code: Code

    /** The tables are the two directions of the code; before initialization they are empty. */
    ghost predicate Valid()
      reads this
    {
      && bitsPerChar == code.k
      && (bitsPerChar > 0 ==> ValidCode(code) && Tables(code, bitsToChar, charToBits, |code.alphabet|))
    }

    constructor ()
      ensures Valid() && bitsPerChar == 0
    {
      bitsToChar, charToBits, bitsPerChar := map[], map[], 0;
      code := Code(0, []);
    }

    method Reset()
      modifies this
      ensures Valid() && bitsPerChar == 0 && bitsToChar == map[] && charToBits == map[]
    {
      bitsToChar, charToBits, bitsPerChar := map[], map[], 0;
      code := Code(0, []);
    }

    /**
      A repeated character is refused before anything changes. An alphabet of one character or none fails after
      the reset, so it leaves the encoding uninitialized. Otherwise the first 2^k characters are used.
     */
    method Init(characters: string) returns (r: Result<nat>)
      requires Valid()
      modifies this
      ensures Valid()
      ensures !Distinct(characters) ==>
        r == Err(NotUnique) && bitsToChar == old(bitsToChar) && charToBits == old(charToBits)
        && bitsPerChar == old(bitsPerChar) && code == old(code)
      ensures Distinct(characters) && |characters| < 2 ==> r == Err(AlphabetTooShort) && bitsPerChar == 0
      ensures Distinct(characters) && |characters| >= 2 ==>
        && r == Ok(FloorLog2(|characters|)) && ValidCode(code)
        && code == Code(FloorLog2(|characters|), characters[..Pow2(FloorLog2(|characters|))])
    {
      var unique := AllDistinct(characters);
      if !unique {
        return Err(NotUnique);
      }
      Reset();
      if |characters| < 2 {
        return Err(AlphabetTooShort);
      }
      bitsPerChar := FloorLog2(|characters|);
      var usable := characters[..Pow2(bitsPerChar)];
      code := Code(bitsPerChar, usable);
      EnoughForOneBit(|characters|);
      for number := 0 to |usable|
        invariant code == Code(bitsPerChar, usable) && ValidCode(code)
        invariant bitsPerChar == FloorLog2(|characters|)
        invariant Tables(code, bitsToChar, charToBits, number)
      {
        EnterNext(code, bitsToChar, charToBits, number);
        var bits := ToBits(number, bitsPerChar);
        bitsToChar := bitsToChar[bits := usable[number]];
        charToBits := charToBits[usable[number] := bits];
      }
      r := Ok(bitsPerChar);
    }

    /** One character per group of bits; the last group is filled with zeros. */
    method Encode(b: seq<Byte>) returns (r: Result<string>)
      requires Valid()
      ensures r == if bitsPerChar == 0 then Err(NotInitialized) else Ok(Encoded(code, b))
    {
      if bitsPerChar == 0 {
        return Err(NotInitialized);
      }
      var k := bitsPerChar;
      var bits := BytesToBits(b);
      var out := "";
      var at := 0;
      StartOfGroups(code, bits);
      while at < |bits|
        invariant Progress(code, bits, at, out)
        decreases |bits| - at
      {
        var group := GroupAt(bits, at, k);
        NextGroup(code, bits, at, out);
        LookupChar(code, bitsToChar, charToBits, group);
        out := out + [bitsToChar[group]];
        at := at + k;
      }
      EndOfGroups(code, bits, at, out);
      r := Ok(out);
    }

    /** The bits of all characters; whole bytes of them, provided the overhang is zero. */
    method Decode(s: string) returns (r: Result<seq<Byte>>)
      requires Valid()
      ensures r == if bitsPerChar == 0 then Err(NotInitialized) else Decoded(code, s)
    {
      if bitsPerChar == 0 {
        return Err(NotInitialized);
      }
      var bits: Bits := [];
      for i := 0 to |s|
        invariant Spells(code, s[..i]) && bits == TextBits(code, s[..i])
      {
        LookupBits(code, bitsToChar, charToBits, s[i]);
        if s[i] !in charToBits {
          return Err(UnknownCharacter);
        }
        TextBitsSnoc(code, s[..i], s[i]);
        assert s[..i + 1] == s[..i] + [s[i]];
        bits := bits + charToBits[s[i]];
      }
      assert s[..|s|] == s;
      r := DecodeBits(bits);
    }
  }

  /** The overhang must be zero; what precedes it is whole bytes. */
  method DecodeBits(bits: Bits) returns (r: Result<seq<Byte>>)
    ensures r == DecodedBits(bits)
  {
    var overhang := |bits| % 8;
    if overhang > 0 {
      var zero := AllZero(bits[|bits| - overhang..]);
      if !zero {
        return Err(OverhangNotZero);
      }
      r := Ok(BitsToBytes(bits[..|bits| - overhang]));
    } else {
      assert bits[..|bits|] == bits;
      r := Ok(BitsToBytes(bits));
    }
  }

  method AllZero(bits: Bits) returns (zero: bool)
    ensures zero <==> bits == Zeros(|bits|)
  {
    zero := true;
    for i := 0 to |bits|
      invariant zero <==> bits[..i] == Zeros(i)
    {
      assert bits[..i + 1] == bits[..i] + [bits[i]];
      assert Zeros(i + 1) == Zeros(i) + [false];
      if bits[i] {
        assert bits[..i + 1][i] != Zeros(i + 1)[i];
        zero := false;
      } else if !zero {
        assert bits[..i + 1][..i] == bits[..i] && Zeros(i + 1)[..i] == Zeros(i);
      }
    }
    assert bits[..|bits|] == bits;
  }

  /** len(characters) == len(set(characters)) */
  method AllDistinct(s: string) returns (d: bool)
    ensures d <==> Distinct(s)
  {
    var seen: set<char> := {};
    d := true;
    for i := 0 to |s|
      invariant d <==> Distinct(s[..i])
      invariant forall c :: c in seen <==> c in s[..i]
    {
      if s[i] in seen {
        d := false;
      }
      assert s[..i + 1] == s[..i] + [s[i]];
      seen := seen + {s[i]};
    }
    assert s[..|s|] == s;
  }

  // ---- arithmetic of the padding ----

  /** m groups of k, by addition. */
  function Times(k: nat, m: nat): nat {
    if m == 0 then 0 else k + Times(k, m - 1)
  }

  lemma {:induction false} TimesIsProduct(k: nat, m: nat)
    ensures Times(k, m) == k * m
  {
    if m > 0 {
      TimesIsProduct(k, m - 1);
      assert k * m == k * (m - 1) + k;
    }
  }

  /** Padding completes the last group. */
  lemma {:induction false} PaddingCompletes(bits: nat, k: nat)
    requires k > 0
    ensures bits + Padding(bits, k) == Times(k, Groups(bits, k))
    decreases bits
  {
    if bits > k {
      PaddingCompletes(bits - k, k);
    } else if bits > 0 {
      assert Times(k, 1) == k + Times(k, 0);
    }
  }

  lemma AtLeastFactor(k: nat, d: nat)
    requires d >= 1
    ensures k * d >= k
  {
  }

  lemma DivModUnique(x: nat, k: nat, q: nat, r: nat)
    requires k > 0 && r < k && x == k * q + r
    ensures x / k == q && x % k == r
  {
    var q', r' := x / k, x % k;
    assert x == k * q' + r';
    assert k * (q - q') == r' - r;
    assert k * (q' - q) == r - r';
    if q > q' {
      AtLeastFactor(k, q - q');
    } else if q < q' {
      AtLeastFactor(k, q' - q);
    }
  }

  lemma DivModStep(x: nat, k: nat)
    requires k > 0 && x >= k
    ensures x / k == 1 + (x - k) / k && x % k == (x - k) % k
  {
    var q, r := (x - k) / k, (x - k) % k;
    assert x - k == k * q + r;
    assert k * (1 + q) == k + k * q;
    DivModUnique(x, k, 1 + q, r);
  }

  /** The padding is -bits modulo k, and the groups are bits / k rounded up. */
  lemma {:induction false} PaddingAndGroups(bits: nat, k: nat)
    requires k > 0
    ensures Padding(bits, k) == (k - bits % k) % k && Groups(bits, k) == (bits + k - 1) / k
    decreases bits
  {
    if bits == 0 {
      DivModUnique(0, k, 0, 0);
      DivModUnique(k, k, 1, 0);
      DivModUnique(k - 1, k, 0, k - 1);
    } else if bits < k {
      DivModUnique(bits, k, 0, bits);
      DivModUnique(k - bits, k, 0, k - bits);
      DivModUnique(bits + k - 1, k, 1, bits - 1);
    } else if bits == k {
      DivModUnique(k, k, 1, 0);
      DivModUnique(bits + k - 1, k, 1, k - 1);
    } else {
      PaddingAndGroups(bits - k, k);
      DivModStep(bits, k);
      DivModStep(bits + k - 1, k);
    }
  }

  lemma EnoughForOneBit(n: nat)
    requires n >= 2
    ensures FloorLog2(n) > 0
  {
    assert Pow2(1) == 2;
  }

  /** The characters so far, and those the padded bits from here on still make, are the whole encoding. */
  ghost predicate Progress(c: Code, bits: Bits, at: nat, out: string)
    requires Sized(c)
  {
    var padded := Padded(bits, c.k);
    && at <= |padded|
    && (if at <= |bits| then Padding(|bits| - at, c.k) == Padding(|bits|, c.k) else at == |padded|)
    && out + Chars(c, padded[at..]) == Chars(c, padded)
  }

  lemma StartOfGroups(c: Code, bits: Bits)
    requires ValidCode(c)
    ensures Progress(c, bits, 0, "")
  {
    assert Padded(bits, c.k)[0..] == Padded(bits, c.k);
  }

  /** The next group of the padded bits becomes the next character. */
  lemma NextGroup(c: Code, bits: Bits, at: nat, out: string)
    requires ValidCode(c) && at < |bits| && Progress(c, bits, at, out)
    ensures Progress(c, bits, at + c.k, out + [c.alphabet[FromBits(GroupAt(bits, at, c.k))]])
  {
    var padded, group := Padded(bits, c.k), GroupAt(bits, at, c.k);
    assert group == padded[at..][..c.k];
    assert padded[at..][c.k..] == padded[at + c.k..];
    var rest := Chars(c, padded[at + c.k..]);
    assert Chars(c, padded[at..]) == [c.alphabet[FromBits(group)]] + rest;
    assert (out + [c.alphabet[FromBits(group)]]) + rest == out + ([c.alphabet[FromBits(group)]] + rest);
  }

  lemma EndOfGroups(c: Code, bits: Bits, at: nat, out: string)
    requires ValidCode(c) && at >= |bits| && Progress(c, bits, at, out)
    ensures out == Chars(c, Padded(bits, c.k))
  {
    assert Padded(bits, c.k)[at..] == [] && out + [] == out;
  }

  lemma {:induction false} TextBitsSnoc(c: Code, s: string, a: char)
    requires Spells(c, s) && a in c.alphabet
    ensures Spells(c, s + [a])
    ensures TextBits(c, s + [a]) == TextBits(c, s) + ToBits(IndexOf(c.alphabet, a), c.k)
  {
    if s == [] {
      assert s + [a] == [a];
    } else {
      assert (s + [a])[1..] == s[1..] + [a];
      TextBitsSnoc(c, s[1..], a);
    }
  }
}
