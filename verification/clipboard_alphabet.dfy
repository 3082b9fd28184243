/**
 The base64 texts of native_clipboard.rs against RFC 4648 itself: its alphabet, the number that a
 group of symbols stands for, its test vectors, and what a PNG on the clipboard is.
 */
module ClipboardAlphabet {
  import opened Wrappers
  import opened ClipboardBase64

  const UPPER: string := "ABCDEFGHIJKLMNOPQRSTUVWXYZ"

  const LOWER: string := "abcdefghijklmnopqrstuvwxyz"

  const DIGITS: string := "0123456789"

  /** Table 1 of section 4 of RFC 4648. */
  const ALPHABET: string := UPPER + LOWER + DIGITS + "+/"

  lemma UpperLetter(n: nat)
    requires n < 26
    ensures UPPER[n] as int == 65 + n
  {
  }

  lemma LowerLetter(n: nat)
    requires n < 26
    ensures LOWER[n] as int == 97 + n
  {
  }

  lemma Digit(n: nat)
    requires n < 10
    ensures DIGITS[n] as int == 48 + n
  {
  }

  /** Every symbol prints as its letter in the table. */
  lemma PrintsTheTable(s: Symbol)
    ensures |ALPHABET| == 64 && Print(s) as int == ALPHABET[s as int] as int
  {
    var n := s as int;
    if n < 26 {
      UpperLetter(n);
    } else if n < 52 {
      LowerLetter(n - 26);
    } else if n < 62 {
      Digit(n - 52);
    }
  }

  /** A byte is looked up at its place in the table, and refused exactly when it is not there. */
  lemma LooksUpTheTable(c: Byte)
    ensures |ALPHABET| == 64
    ensures SymbolOf(c).Some? ==> ALPHABET[SymbolOf(c).value as int] as int == c as int
    ensures SymbolOf(c).None? <==> forall i | 0 <= i < 64 :: ALPHABET[i] as int != c as int
  {
    forall i | 0 <= i < 64
      ensures Print(i as Symbol) as int == ALPHABET[i] as int
    {
      PrintsTheTable(i as Symbol);
    }
    if SymbolOf(c).Some? {
      PrintsTheTable(SymbolOf(c).value);
    } else {
      forall i | 0 <= i < 64
        ensures ALPHABET[i] as int != c as int
      {
        assert Print(i as Symbol) != c;
      }
    }
  }

  function Value(symbols: seq<Symbol>): nat {
    if symbols == [] then 0
    else Value(symbols[..|symbols| - 1]) * 64 + symbols[|symbols| - 1] as int
  }

  function Number(bytes: seq<Byte>): nat {
    if bytes == [] then 0
    else Number(bytes[..|bytes| - 1]) * 256 + bytes[|bytes| - 1] as int
  }

  /** How many bytes of group `q` there are. */
  function GroupSize(bytes: seq<Byte>, q: nat): nat {
    if |bytes| < 3 * q then 0 else if |bytes| - 3 * q < 3 then |bytes| - 3 * q else 3
  }

  lemma SliceIs<T>(s: seq<T>, k: nat, t: seq<T>, n: nat)
    requires k + n <= |s| && n <= |t| && forall r {:trigger t[r]} | 0 <= r < n :: s[k + r] == t[r]
    ensures s[k..k + n] == t[..n]
  {
  }

  /** The four symbols of three bytes. */
  function Quartet(a: Byte, b: Byte, c: Byte): (symbols: seq<Symbol>)
    ensures |symbols| == 4 && forall r | 0 <= r < 4 :: symbols[r] == Split(r, a, b, c)
  {
    [Split(0, a, b, c), Split(1, a, b, c), Split(2, a, b, c), Split(3, a, b, c)]
  }

  lemma GroupBytes(bytes: seq<Byte>, q: nat)
    requires 3 * q < |bytes|
    ensures var n := GroupSize(bytes, q);
            && bytes[3 * q..3 * q + n] == [At(bytes, 3 * q), At(bytes, 3 * q + 1), At(bytes, 3 * q + 2)][..n]
            && (n < 3 ==> At(bytes, 3 * q + 2) == 0) && (n < 2 ==> At(bytes, 3 * q + 1) == 0)
  {
  }

  lemma GroupSymbols(bytes: seq<Byte>, q: nat)
    requires 3 * q < |bytes|
    ensures var n := GroupSize(bytes, q);
            && 4 * q + n + 1 <= |Pack(bytes)| && (n < 3 ==> |Pack(bytes)| == 4 * q + n + 1)
            && Pack(bytes)[4 * q..4 * q + n + 1] ==
               Quartet(At(bytes, 3 * q), At(bytes, 3 * q + 1), At(bytes, 3 * q + 2))[..n + 1]
  {
    var n, t := GroupSize(bytes, q), Quartet(At(bytes, 3 * q), At(bytes, 3 * q + 1), At(bytes, 3 * q + 2));
    PackedLength(|bytes|, q);
    forall r | 0 <= r < n + 1
      ensures Pack(bytes)[4 * q + r] == t[r]
    {
      PackedAt(bytes, q, r);
    }
    SliceIs(Pack(bytes), 4 * q, t, n + 1);
  }

  /** What is left out of the last group: 4 or 2 zero bits after one or two bytes. */
  function Fill(n: nat): nat {
    if n == 1 then 16 else if n == 2 then 4 else 1
  }

  lemma GroupValue(n: nat, a: Byte, b: Byte, c: Byte)
    requires 1 <= n <= 3 && (n < 3 ==> c == 0) && (n < 2 ==> b == 0)
    ensures Value(Quartet(a, b, c)[..n + 1]) == Number([a, b, c][..n]) * Fill(n)
  {
    var w, x, y, z := Split(0, a, b, c), Split(1, a, b, c), Split(2, a, b, c), Split(3, a, b, c);
    SplitIsOneNumber(a, b, c);
    if n == 1 {
      assert Quartet(a, b, c)[..2] == [w, x] && [a, b, c][..1] == [a];
      TwoSymbols(w, x, a);
    } else if n == 2 {
      assert Quartet(a, b, c)[..3] == [w, x, y] && [a, b, c][..2] == [a, b];
      ThreeSymbols(w, x, y, a, b);
    } else {
      assert Quartet(a, b, c)[..4] == [w, x, y, z] && [a, b, c][..3] == [a, b, c];
      FourSymbols(w, x, y, z, a, b, c);
    }
  }

  /**
   The most significant byte and symbol come first: a whole group spells the same number in both, and
   the symbols of a shorter last group spell it followed by zeros.
   */
  lemma GroupIsOneNumber(bytes: seq<Byte>, q: nat)
    requires 3 * q < |bytes|
    ensures var n := GroupSize(bytes, q);
            && 4 * q + n + 1 <= |Pack(bytes)| && (n < 3 ==> |Pack(bytes)| == 4 * q + n + 1)
            && Value(Pack(bytes)[4 * q..4 * q + n + 1]) == Number(bytes[3 * q..3 * q + n]) * Fill(n)
  {
    GroupBytes(bytes, q);
    GroupSymbols(bytes, q);
    GroupValue(GroupSize(bytes, q), At(bytes, 3 * q), At(bytes, 3 * q + 1), At(bytes, 3 * q + 2));
  }

  lemma TwoSymbols(w: Symbol, x: Symbol, a: Byte)
    ensures Value([w, x]) == w as int * 64 + x as int && Number([a]) == a as int
  {
    assert [w, x][..1] == [w] && [w][..0] == [] && [a][..0] == [];
    assert Value([w]) == w as int;
  }

  lemma ThreeSymbols(w: Symbol, x: Symbol, y: Symbol, a: Byte, b: Byte)
    ensures Value([w, x, y]) == (w as int * 64 + x as int) * 64 + y as int
    ensures Number([a, b]) == a as int * 256 + b as int
  {
    TwoSymbols(w, x, a);
    assert [w, x, y][..2] == [w, x] && [a, b][..1] == [a];
  }

  lemma FourSymbols(w: Symbol, x: Symbol, y: Symbol, z: Symbol, a: Byte, b: Byte, c: Byte)
    ensures Value([w, x, y, z]) == ((w as int * 64 + x as int) * 64 + y as int) * 64 + z as int
    ensures Number([a, b, c]) == (a as int * 256 + b as int) * 256 + c as int
  {
    ThreeSymbols(w, x, y, a, b);
    assert [w, x, y, z][..3] == [w, x, y] && [a, b, c][..2] == [a, b];
  }

  lemma PackedLength(size: nat, q: nat)
    requires 3 * q < size
    ensures var symbols := (4 * size + 2) / 3;
            && (size - 3 * q == 1 ==> symbols == 4 * q + 2)
            && (size - 3 * q == 2 ==> symbols == 4 * q + 3)
            && (size - 3 * q >= 3 ==> symbols >= 4 * q + 4)
  {
  }

  lemma SplitIsOneNumber(a: Byte, b: Byte, c: Byte)
    ensures var w, x, y, z := Split(0, a, b, c) as int, Split(1, a, b, c) as int, Split(2, a, b, c) as int,
                              Split(3, a, b, c) as int;
            && ((w * 64 + x) * 64 + y) * 64 + z == (a as int * 256 + b as int) * 256 + c as int
            && (b == 0 ==> w * 64 + x == a as int * 16)
            && (c == 0 ==> (w * 64 + x) * 64 + y == (a as int * 256 + b as int) * 4)
  {
  }

  /** Test vectors of section 10 of RFC 4648: "f", "fo", "foo". */
  lemma TestVectors()
    ensures Base64([]) == []
    ensures Base64([102]) == [90, 103, PAD, PAD]
    ensures Base64([102, 111]) == [90, 109, 56, PAD]
    ensures Base64([102, 111, 111]) == [90, 109, 57, 118]
  {
    Vector([102]);
    Vector([102, 111]);
    Vector([102, 111, 111]);
  }

  lemma Vector(bytes: seq<Byte>)
    requires 1 <= |bytes| <= 3
    ensures Base64(bytes) == Group(bytes, 0)
  {
    Base64At(bytes, 0, 0);
    Base64At(bytes, 0, 1);
    Base64At(bytes, 0, 2);
    Base64At(bytes, 0, 3);
    assert |Base64(bytes)| == 4;
  }

  /** Up to half a mebibyte, and the signature of section 5.2 of the PNG specification at the start. */
  lemma PngShape(bytes: seq<Byte>)
    ensures PngBytes(bytes) <==>
            && 8 <= |bytes| <= 0x8_0000
            && bytes[0] == 0x89
            && bytes[1] as int == 'P' as int && bytes[2] as int == 'N' as int && bytes[3] as int == 'G' as int
            && bytes[4] as int == '\r' as int && bytes[5] as int == '\n' as int
            && bytes[6] == 0x1A && bytes[7] as int == '\n' as int
  {
    assert PNG[0] == 0x89 && PNG[1] == 80 && PNG[2] == 78 && PNG[3] == 71;
    assert PNG[4] == 13 && PNG[5] == 10 && PNG[6] == 0x1A && PNG[7] == 10;
  }
}
