/**
 The base64 printer and the recogniser of native_clipboard.rs. The printer works on chunks of
 three bytes, the recogniser on a bit accumulator that stops after the PNG signature. They are
 proved to describe the same strings (sections 4 and 3.5 of RFC 4648). Text is its bytes.
 */
module ClipboardBase64 {
  import opened Wrappers

  newtype Symbol = x: int | 0 <= x < 64

  const MAX_BYTES: nat := 512 * 1024

  const PNG: seq<Byte> := [137, 80, 78, 71, 13, 10, 26, 10]

  const PAD: Byte := 61

  // ---------------------------------------------------------------- the alphabet

  /** The byte that prints a symbol: A-Z, a-z, 0-9, + and /. */
  function Print(s: Symbol): (c: Byte)
    ensures c != PAD
  {
    var n := s as int;
    if n < 26 then (65 + n) as Byte
    else if n < 52 then (97 + n - 26) as Byte
    else if n < 62 then (48 + n - 52) as Byte
    else if n == 62 then 43
    else 47
  }

  /** The position of a byte in the alphabet. */
  function SymbolOf(c: Byte): (s: Option<Symbol>)
    ensures s.Some? ==> Print(s.value) == c
    ensures s.None? ==> forall x :: Print(x) != c
  {
    var n := c as int;
    if 65 <= n < 91 then Some((n - 65) as Symbol)
    else if 97 <= n < 123 then Some((n - 97 + 26) as Symbol)
    else if 48 <= n < 58 then Some((n - 48 + 52) as Symbol)
    else if n == 43 then Some(62)
    else if n == 47 then Some(63)
    else None
  }

  lemma PrintedOnce(s: Symbol)
    ensures SymbolOf(Print(s)) == Some(s)
  {
  }

  // ---------------------------------------------------------------- bytes as symbols of six bits

  function At(bytes: seq<Byte>, i: nat): Byte {
    if i < |bytes| then bytes[i] else 0
  }

  /** Symbol `r` of a group of three bytes. */
  function Split(r: nat, a: Byte, b: Byte, c: Byte): Symbol
    requires r < 4
  {
    if r == 0 then (a as int / 4) as Symbol
    else if r == 1 then (a as int % 4 * 16 + b as int / 16) as Symbol
    else if r == 2 then (b as int % 16 * 4 + c as int / 64) as Symbol
    else (c as int % 64) as Symbol
  }

  /** Symbol `r` of the group that starts at byte `i`; missing bytes read as zero. */
  function Piece(bytes: seq<Byte>, i: nat, r: nat): Symbol
    requires r < 4
  {
    Split(r, At(bytes, i), At(bytes, i + 1), At(bytes, i + 2))
  }

  function Pack(bytes: seq<Byte>): (symbols: seq<Symbol>)
    ensures |symbols| == (4 * |bytes| + 2) / 3
  {
    seq((4 * |bytes| + 2) / 3, k requires 0 <= k => Piece(bytes, k / 4 * 3, k % 4))
  }

  /** The byte that two neighbouring symbols of a group hold, the first of them at position `r`. */
  function Read(r: nat, x: Symbol, y: Symbol): Byte
    requires r < 3
  {
    if r == 0 then (x as int * 4 + y as int / 16) as Byte
    else if r == 1 then (x as int % 16 * 16 + y as int / 4) as Byte
    else (x as int % 4 * 64 + y as int) as Byte
  }

  function ByteAt(symbols: seq<Symbol>, j: nat): Byte
    requires j < 3 * |symbols| / 4
  {
    Read(j % 3, symbols[j / 3 * 4 + j % 3], symbols[j / 3 * 4 + j % 3 + 1])
  }

  function Unpack(symbols: seq<Symbol>): (bytes: seq<Byte>)
    ensures |bytes| == 3 * |symbols| / 4
  {
    seq(3 * |symbols| / 4, j requires 0 <= j < 3 * |symbols| / 4 => ByteAt(symbols, j))
  }

  /** A number of symbols that some bytes need, with the bits beyond the last byte zero. */
  predicate Clean(symbols: seq<Symbol>) {
    && |symbols| % 4 != 1
    && (|symbols| % 4 == 2 ==> symbols[|symbols| - 1] as int % 16 == 0)
    && (|symbols| % 4 == 3 ==> symbols[|symbols| - 1] as int % 4 == 0)
  }

  lemma ReadSplit(a: Byte, b: Byte, c: Byte)
    ensures Read(0, Split(0, a, b, c), Split(1, a, b, c)) == a
    ensures Read(1, Split(1, a, b, c), Split(2, a, b, c)) == b
    ensures Read(2, Split(2, a, b, c), Split(3, a, b, c)) == c
    ensures Split(1, a, 0, c) as int % 16 == 0 && Split(2, a, b, 0) as int % 4 == 0
  {
  }

  lemma SplitRead(w: Symbol, x: Symbol, y: Symbol, z: Symbol)
    ensures var a, b, c := Read(0, w, x), Read(1, x, y), Read(2, y, z);
            && Split(0, a, b, c) == w && Split(1, a, b, c) == x && Split(2, a, b, c) == y && Split(3, a, b, c) == z
            && (x as int % 16 == 0 ==> Split(0, a, 0, 0) == w && Split(1, a, 0, 0) == x)
            && (y as int % 4 == 0 ==> Split(0, a, b, 0) == w && Split(1, a, b, 0) == x && Split(2, a, b, 0) == y)
  {
  }

  lemma PackedAt(bytes: seq<Byte>, q: nat, r: nat)
    requires r < 4 && 4 * q + r < |Pack(bytes)|
    ensures Pack(bytes)[4 * q + r] == Piece(bytes, 3 * q, r)
  {
    assert (4 * q + r) / 4 == q && (4 * q + r) % 4 == r;
  }

  lemma UnpackedAt(symbols: seq<Symbol>, q: nat, r: nat)
    requires r < 3 && 4 * q + r + 1 < |symbols|
    ensures 3 * q + r < |Unpack(symbols)|
    ensures Unpack(symbols)[3 * q + r] == Read(r, symbols[4 * q + r], symbols[4 * q + r + 1])
  {
    assert (3 * q + r) / 3 == q && (3 * q + r) % 3 == r;
  }

  lemma PackIsClean(bytes: seq<Byte>)
    ensures Clean(Pack(bytes))
  {
    var q := |bytes| / 3;
    ReadSplit(At(bytes, 3 * q), At(bytes, 3 * q + 1), 0);
    if |bytes| % 3 == 1 {
      PackedAt(bytes, q, 1);
    } else if |bytes| % 3 == 2 {
      PackedAt(bytes, q, 2);
    }
  }

  /** `ReadSplit` for a position that is not a constant. */
  lemma ReadSplitAt(r: nat, a: Byte, b: Byte, c: Byte)
    requires r < 3
    ensures Read(r, Split(r, a, b, c), Split(r + 1, a, b, c)) == if r == 0 then a else if r == 1 then b else c
  {
    ReadSplit(a, b, c);
    if r == 0 {
    } else if r == 1 {
    } else {
      assert r == 2;
    }
  }

  lemma ReadPieces(bytes: seq<Byte>, i: nat, r: nat)
    requires r < 3
    ensures Read(r, Piece(bytes, i, r), Piece(bytes, i, r + 1)) == At(bytes, i + r)
  {
    ReadSplitAt(r, At(bytes, i), At(bytes, i + 1), At(bytes, i + 2));
  }

  lemma UnpackPackAt(bytes: seq<Byte>, q: nat, r: nat)
    requires r < 3 && 3 * q + r < |bytes|
    ensures Unpack(Pack(bytes))[3 * q + r] == bytes[3 * q + r]
  {
    PackedAt(bytes, q, r);
    PackedAt(bytes, q, r + 1);
    UnpackedAt(Pack(bytes), q, r);
    ReadPieces(bytes, 3 * q, r);
  }

  lemma UnpackPack(bytes: seq<Byte>)
    ensures Unpack(Pack(bytes)) == bytes
  {
    forall j | 0 <= j < |bytes|
      ensures Unpack(Pack(bytes))[j] == bytes[j]
    {
      UnpackPackAt(bytes, j / 3, j % 3);
    }
  }

  lemma PackUnpack(symbols: seq<Symbol>)
    requires Clean(symbols)
    ensures Pack(Unpack(symbols)) == symbols
  {
    var bytes := Unpack(symbols);
    forall k | 0 <= k < |symbols|
      ensures Pack(bytes)[k] == symbols[k]
    {
      var q, r := k / 4, k % 4;
      assert k == 4 * q + r;
      PackedAt(bytes, q, r);
      PieceOfUnpacked(symbols, q, r);
    }
  }

  /** `SplitRead` for the first `n` symbols of a group and the bytes they hold, the others zero. */
  lemma SplitReadAt(n: nat, r: nat, w: Symbol, x: Symbol, y: Symbol, z: Symbol, a: Byte, b: Byte, c: Byte)
    requires r < n && 2 <= n
    requires a == Read(0, w, x)
    requires if n > 2 then b == Read(1, x, y) else b == 0 && x as int % 16 == 0
    requires if n > 3 then c == Read(2, y, z) else c == 0 && (n == 3 ==> y as int % 4 == 0)
    ensures r < 4 ==> Split(r, a, b, c) == if r == 0 then w else if r == 1 then x else if r == 2 then y else z
  {
    SplitRead(w, x, y, z);
    if r == 0 {
    } else if r == 1 {
    } else if r == 2 {
    } else if r == 3 {
    }
  }

  lemma PieceOfUnpacked(symbols: seq<Symbol>, q: nat, r: nat)
    requires Clean(symbols) && r < 4 && 4 * q + r < |symbols|
    ensures Piece(Unpack(symbols), 3 * q, r) == symbols[4 * q + r]
  {
    var bytes, n := Unpack(symbols), |symbols| - 4 * q;
    var y := if n > 2 then symbols[4 * q + 2] else 0;
    var z := if n > 3 then symbols[4 * q + 3] else 0;
    UnpackedAt(symbols, q, 0);
    if n > 2 {
      UnpackedAt(symbols, q, 1);
    }
    if n > 3 {
      UnpackedAt(symbols, q, 2);
    }
    SplitReadAt(n, r, symbols[4 * q], symbols[4 * q + 1], y, z,
                At(bytes, 3 * q), At(bytes, 3 * q + 1), At(bytes, 3 * q + 2));
  }

  // ---------------------------------------------------------------- texts

  /** Symbols printed, and padded to whole groups. */
  function Printed(symbols: seq<Symbol>): (text: seq<Byte>)
    ensures |text| == (|symbols| + 3) / 4 * 4
    ensures forall k | |symbols| <= k < |text| :: text[k] == PAD
  {
    seq((|symbols| + 3) / 4 * 4, k requires 0 <= k => if k < |symbols| then Print(symbols[k]) else PAD)
  }

  /** The base64 text of some bytes (section 4 of RFC 4648). */
  function Base64(bytes: seq<Byte>): (text: seq<Byte>)
    ensures |text| == (|bytes| + 2) / 3 * 4
  {
    Printed(Pack(bytes))
  }

  /** How many bytes at the end are padding. */
  function Padding(text: seq<Byte>): (n: nat)
    ensures n <= |text|
  {
    if text == [] || text[|text| - 1] != PAD then 0 else 1 + Padding(text[..|text| - 1])
  }

  function Content(text: seq<Byte>): seq<Byte> {
    text[..|text| - Padding(text)]
  }

  predicate AllSymbols(text: seq<Byte>) {
    forall i | 0 <= i < |text| :: SymbolOf(text[i]).Some?
  }

  function Symbols(text: seq<Byte>): (symbols: seq<Symbol>)
    requires AllSymbols(text)
    ensures |symbols| == |text|
  {
    seq(|text|, i requires 0 <= i < |text| => SymbolOf(text[i]).value)
  }

  /** Padding, alphabet and unused bits as section 3.5 of RFC 4648 wants them. */
  predicate WellFormed(text: seq<Byte>) {
    && |text| % 4 == 0 && Padding(text) <= 2 && Content(text) != []
    && AllSymbols(Content(text)) && Clean(Symbols(Content(text)))
  }

  lemma {:induction false} PaddingCounts(text: seq<Byte>, n: nat)
    requires n < |text| && text[|text| - n - 1] != PAD
    requires forall i | |text| - n <= i < |text| :: text[i] == PAD
    ensures Padding(text) == n
  {
    if n > 0 {
      PaddingCounts(text[..|text| - 1], n - 1);
    }
  }

  lemma {:induction false} PaddingIsPad(text: seq<Byte>)
    ensures forall i | |text| - Padding(text) <= i < |text| :: text[i] == PAD
  {
    if text != [] && text[|text| - 1] == PAD {
      PaddingIsPad(text[..|text| - 1]);
      assert forall i | 0 <= i < |text| - 1 :: text[i] == text[..|text| - 1][i];
    }
  }

  lemma PrintedContent(symbols: seq<Symbol>)
    requires symbols != [] && |symbols| % 4 != 1
    ensures var text := Printed(symbols);
            && Padding(text) == |text| - |symbols| <= 2 && AllSymbols(Content(text))
            && Symbols(Content(text)) == symbols
            && (Clean(symbols) ==> WellFormed(text))
  {
    var text := Printed(symbols);
    PaddingCounts(text, |text| - |symbols|);
    forall i | 0 <= i < |symbols|
      ensures SymbolOf(Content(text)[i]) == Some(symbols[i])
    {
      PrintedOnce(symbols[i]);
    }
  }

  lemma PaddedLength(n: nat, p: nat)
    requires n % 4 == 0 && p <= 2 && p <= n
    ensures (n - p + 3) / 4 * 4 == n
  {
  }

  lemma PrintedSymbols(text: seq<Byte>)
    requires |text| % 4 == 0 && Padding(text) <= 2 && AllSymbols(Content(text))
    ensures text == Printed(Symbols(Content(text)))
  {
    PaddingIsPad(text);
    var symbols := Symbols(Content(text));
    PaddedLength(|text|, Padding(text));
    forall k | 0 <= k < |text|
      ensures Printed(symbols)[k] == text[k]
    {
      if k < |symbols| {
        assert Print(symbols[k]) == Content(text)[k];
      }
    }
  }

  lemma Base64IsWellFormed(bytes: seq<Byte>)
    requires bytes != []
    ensures WellFormed(Base64(bytes)) && Symbols(Content(Base64(bytes))) == Pack(bytes)
  {
    PackIsClean(bytes);
    PrintedContent(Pack(bytes));
  }

  lemma WellFormedIsBase64(text: seq<Byte>)
    requires WellFormed(text)
    ensures var bytes := Unpack(Symbols(Content(text)));
            text == Base64(bytes) && |bytes| == |text| / 4 * 3 - Padding(text)
  {
    PackUnpack(Symbols(Content(text)));
    PrintedSymbols(text);
  }

  /** The well-formed texts are exactly the printed ones, each the text of one byte string only. */
  lemma PrintedExactlyWellFormed(text: seq<Byte>, bytes: seq<Byte>)
    requires bytes != []
    ensures text == Base64(bytes) <==> WellFormed(text) && Unpack(Symbols(Content(text))) == bytes
  {
    if text == Base64(bytes) {
      Base64IsWellFormed(bytes);
      UnpackPack(bytes);
    }
    if WellFormed(text) {
      WellFormedIsBase64(text);
    }
  }

  lemma Base64Injective(a: seq<Byte>, b: seq<Byte>)
    requires Base64(a) == Base64(b)
    ensures a == b
  {
    if a == [] {
      assert |Base64(b)| == 0;
    } else {
      PrintedExactlyWellFormed(Base64(a), a);
      PrintedExactlyWellFormed(Base64(a), b);
    }
  }

  // ---------------------------------------------------------------- the program

  method Encode(bytes: seq<Byte>) returns (output: seq<Byte>)
    ensures output == Base64(bytes)
  {
    output := [];
    var i := 0;
    ghost var q := 0;
    while i < |bytes|
      invariant i == 3 * q < |bytes| + 3 && |output| == 4 * q <= |Base64(bytes)|
      invariant output == Base64(bytes)[..4 * q]
    {
      var chunk := bytes[i..if i + 3 < |bytes| then i + 3 else |bytes|];
      var a := chunk[0];
      var b := if |chunk| > 1 then chunk[1] else 0;
      var c := if |chunk| > 2 then chunk[2] else 0;
      output := output + [
        Print((a as int / 4) as Symbol),
        Print((a as int % 4 * 16 + b as int / 16) as Symbol),
        if |chunk| > 1 then Print((b as int % 16 * 4 + c as int / 64) as Symbol) else PAD,
        if |chunk| > 2 then Print((c as int % 64) as Symbol) else PAD
      ];
      NextGroup(bytes, q);
      q := q + 1;
      i := i + 3;
    }
    assert Base64(bytes)[..4 * q] == Base64(bytes);
  }

  /** The group that the printer appends for one chunk. */
  ghost function Group(bytes: seq<Byte>, i: nat): seq<Byte> {
    var a, b, c := At(bytes, i), At(bytes, i + 1), At(bytes, i + 2);
    [
      Print(Split(0, a, b, c)),
      Print(Split(1, a, b, c)),
      if i + 1 < |bytes| then Print(Split(2, a, b, c)) else PAD,
      if i + 2 < |bytes| then Print(Split(3, a, b, c)) else PAD
    ]
  }

  lemma SymbolCount(n: nat, q: nat, r: nat)
    requires 3 * q < n && r < 4
    ensures 4 * q + 4 <= (n + 2) / 3 * 4
    ensures 4 * q + r < (4 * n + 2) / 3 <==> r == 0 || 3 * q + r - 1 < n
  {
  }

  lemma Base64At(bytes: seq<Byte>, q: nat, r: nat)
    requires 3 * q < |bytes| && r < 4
    ensures 4 * q + 4 <= |Base64(bytes)|
    ensures Base64(bytes)[4 * q + r] ==
            if r == 0 || 3 * q + r - 1 < |bytes| then Print(Piece(bytes, 3 * q, r)) else PAD
  {
    SymbolCount(|bytes|, q, r);
    if r == 0 || 3 * q + r - 1 < |bytes| {
      PackedAt(bytes, q, r);
    }
  }

  lemma NextGroup(bytes: seq<Byte>, q: nat)
    requires 3 * q < |bytes|
    ensures 4 * q + 4 <= |Base64(bytes)|
    ensures Base64(bytes)[..4 * q + 4] == Base64(bytes)[..4 * q] + Group(bytes, 3 * q)
  {
    Base64At(bytes, q, 0);
    Base64At(bytes, q, 1);
    Base64At(bytes, q, 2);
    Base64At(bytes, q, 3);
    GroupAppended(Base64(bytes), 4 * q, Group(bytes, 3 * q));
  }

  lemma GroupAppended(text: seq<Byte>, k: nat, group: seq<Byte>)
    requires k + 4 <= |text| && |group| == 4
    requires text[k] == group[0] && text[k + 1] == group[1] && text[k + 2] == group[2] && text[k + 3] == group[3]
    ensures text[..k + 4] == text[..k] + group
  {
  }

  /** A PNG small enough for the clipboard. */
  ghost predicate PngBytes(bytes: seq<Byte>) {
    |PNG| <= |bytes| <= MAX_BYTES && forall j {:trigger PNG[j]} | 0 <= j < |PNG| :: bytes[j] == PNG[j]
  }

  function Pow2(n: nat): (p: nat)
    ensures p > 0
  {
    if n == 0 then 1 else 2 * Pow2(n - 1)
  }

  /** The bits of symbol `r` of a group that no byte has used when the next symbol comes; `x` is symbol `r - 1`. */
  function Carry(r: nat, x: Symbol): nat {
    if r == 0 then 0 else if r == 1 then x as int else if r == 2 then x as int % 16 else x as int % 4
  }

  /** Six bits in, `n` of them and all the earlier ones out again; `p` is the weight of what stays. */
  lemma ShiftOut(high: nat, y: Symbol, p: nat)
    requires p == 16 || p == 4
    ensures (high * 64 + y as int) / p == high * (64 / p) + y as int / p
    ensures (high * 64 + y as int) % p == y as int % p
  {
    if p == 16 {
      assert high * 64 + y as int == 16 * (high * 4 + y as int / 16) + y as int % 16;
    } else {
      assert high * 64 + y as int == 4 * (high * 16 + y as int / 4) + y as int % 4;
    }
  }

  lemma ReadBits(x: Symbol, y: Symbol)
    ensures (x as int * 64 + y as int) / 16 % 256 == Read(0, x, y) as int
    ensures (x as int % 16 * 64 + y as int) / 4 % 256 == Read(1, x, y) as int
    ensures (x as int % 4 * 64 + y as int) % 256 == Read(2, x, y) as int
    ensures (x as int * 64 + y as int) % 16 == y as int % 16
    ensures (x as int % 16 * 64 + y as int) % 4 == y as int % 4
  {
    ShiftOut(x as int, y, 16);
    ShiftOut(x as int % 16, y, 4);
  }

  /** Every symbol but the first of a group completes a byte; the accumulator stays within twelve bits. */
  lemma CarryOn(r: nat, x: Symbol, y: Symbol)
    requires r < 4
    ensures var accumulator := Carry(r, x) * 64 + y as int;
            && accumulator < 4096
            && (r == 0 ==> accumulator == Carry(1, y))
            && (r > 0 ==>
                  && accumulator / Pow2(6 - 2 * r) % 256 == Read(r - 1, x, y) as int
                  && accumulator % Pow2(6 - 2 * r) == Carry(if r == 3 then 0 else r + 1, y))
  {
    ReadBits(x, y);
    assert Pow2(4) == 16 && Pow2(2) == 4 && Pow2(0) == 1;
    if r == 0 {
    } else if r == 1 {
    } else if r == 2 {
    } else {
      assert r == 3;
    }
  }

  /** The printed form of a PNG, told by its shape and its bytes. */
  lemma PrintedPng(data: seq<Byte>)
    ensures (exists bytes :: PngBytes(bytes) && data == Base64(bytes)) <==>
            WellFormed(data) && PngBytes(Unpack(Symbols(Content(data))))
  {
    if bytes :| PngBytes(bytes) && data == Base64(bytes) {
      PrintedExactlyWellFormed(data, bytes);
    }
    if WellFormed(data) && PngBytes(Unpack(Symbols(Content(data)))) {
      PrintedExactlyWellFormed(data, Unpack(Symbols(Content(data))));
    }
  }

  lemma ContentLength(n: nat, p: nat)
    requires n % 4 == 0 && p <= 2 && p <= n
    ensures (n - p) % 4 == if p == 0 then 0 else if p == 1 then 3 else 2
  {
  }

  /** The padding tells which bits of the last symbol must be zero. */
  lemma PaddingTells(data: seq<Byte>)
    requires |data| % 4 == 0 && Padding(data) <= 2 && Content(data) != [] && AllSymbols(Content(data))
    ensures var last := SymbolOf(Content(data)[|Content(data)| - 1]).value as int;
            WellFormed(data) <==> !(Padding(data) == 2 && last % 16 != 0) && !(Padding(data) == 1 && last % 4 != 0)
  {
    ContentLength(|data|, Padding(data));
  }

  lemma TextLength(n: nat, p: nat)
    requires n % 4 == 0 && p <= 2 && n / 4 * 3 - p <= MAX_BYTES
    ensures n <= 4 * ((MAX_BYTES + 2) / 3)
  {
  }

  /**
   `canonical_png`: true exactly for the printed form of a PNG within the size limit. The
   accumulator never needs more than twelve bits and the walk never runs out of symbols.
   */
  method CanonicalPng(value: Option<seq<Byte>>) returns (ok: bool)
    ensures ok <==> value.Some? && exists bytes :: PngBytes(bytes) && value.value == Base64(bytes)
  {
    if value.None? { return false; }
    PrintedPng(value.value);
    ok := CanonicalPngText(value.value);
  }

  method CanonicalPngText(data: seq<Byte>) returns (ok: bool)
    ensures ok <==> WellFormed(data) && PngBytes(Unpack(Symbols(Content(data))))
  {
    if WellFormed(data) {
      WellFormedIsBase64(data);
      if PngBytes(Unpack(Symbols(Content(data)))) {
        TextLength(|data|, Padding(data));
      }
    }
    if data == [] || |data| > 4 * ((MAX_BYTES + 2) / 3) || |data| % 4 != 0 { return false; }
    var padding := Padding(data);
    if padding > 2 { return false; }
    var content := Content(data);
    if content == [] || !AllSymbols(content) { return false; }
    PaddingTells(data);
    var last := SymbolOf(content[|content| - 1]).value as int;
    if (padding == 2 && last % 16 != 0) || (padding == 1 && last % 4 != 0) { return false; }
    var size := |data| / 4 * 3 - padding;
    if size < |PNG| || size > MAX_BYTES { return false; }
    ok := StartsWith(content, PNG);
  }

  /** All symbols of a text together hold the bytes it stands for. */
  lemma AllRead(symbols: seq<Symbol>, q: nat, r: nat)
    requires |symbols| == 4 * q + r && r < 4
    ensures |Unpack(symbols)| == 3 * q + if r == 0 then 0 else r - 1
  {
  }

  /** One symbol more for the accumulator, and the byte it completes; `x` is the symbol before it. */
  method Feed(ghost r: nat, ghost x: Symbol, y: Symbol, bits: nat, accumulator: nat)
    returns (more: nat, rest: nat, byte: Option<Byte>)
    requires r < 4 && bits == (if r == 0 then 0 else 8 - 2 * r) && accumulator == Carry(r, x)
    ensures r == 0 ==> byte.None? && more == 6 && rest == Carry(1, y)
    ensures r > 0 ==> byte == Some(Read(r - 1, x, y)) && more == 6 - 2 * r
    ensures r > 0 ==> rest == Carry(if r == 3 then 0 else r + 1, y)
  {
    CarryOn(r, x, y);
    rest := accumulator * 64 + y as int;
    more := bits + 6;
    byte := None;
    if more >= 8 {
      more := more - 8;
      byte := Some((rest / Pow2(more) % 256) as Byte);
      rest := rest % Pow2(more);
    }
  }

  lemma NextByte(symbols: seq<Symbol>, q: nat, r: nat)
    requires r < 4 && 4 * q + r < |symbols|
    ensures r > 0 ==>
              && 3 * q + r - 1 < |Unpack(symbols)|
              && Unpack(symbols)[3 * q + r - 1] == Read(r - 1, symbols[4 * q + r - 1], symbols[4 * q + r])
  {
    if r > 0 {
      UnpackedAt(symbols, q, r - 1);
    }
  }

  /** The bit walk of `canonical_png`; `q` and `r` count the whole groups and the symbols after them. */
  method StartsWith(content: seq<Byte>, signature: seq<Byte>) returns (ok: bool)
    requires AllSymbols(content) && |Unpack(Symbols(content))| >= |signature| > 0
    ensures ok <==>
            forall j {:trigger signature[j]} | 0 <= j < |signature| :: Unpack(Symbols(content))[j] == signature[j]
  {
    ghost var symbols := Symbols(content);
    ghost var bytes := Unpack(symbols);
    ghost var q: nat, r: nat, last: Symbol := 0, 0, 0;
    var bits, accumulator, index := 0, 0, 0;
    for k := 0 to |content|
      invariant k == 4 * q + r && r < 4
      invariant index == 3 * q + (if r == 0 then 0 else r - 1) < |signature|
      invariant bits == if r == 0 then 0 else 8 - 2 * r
      invariant k > 0 ==> last == symbols[k - 1]
      invariant accumulator == Carry(r, last)
      invariant forall j {:trigger signature[j]} | 0 <= j < index :: bytes[j] == signature[j]
    {
      NextByte(symbols, q, r);
      var byte;
      var symbol := SymbolOf(content[k]).value;
      bits, accumulator, byte := Feed(r, last, symbol, bits, accumulator);
      last := symbol;
      if byte.Some? {
        if byte.value != signature[index] {
          return false;
        }
        index := index + 1;
        if index == |signature| { return true; }
      }
      if r == 3 {
        q, r := q + 1, 0;
      } else {
        r := r + 1;
      }
    }
    AllRead(symbols, q, r);
    assert false;
  }
}
