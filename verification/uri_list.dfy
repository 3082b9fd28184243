/**
 `uri_list` of native_artifact_clipboard.rs: the URI list that hands one file to the clipboard
 (sections 2.1 and 2.3 of RFC 3986, section 5 of RFC 2483). Text is its bytes.
 */
module UriList {
  import opened Wrappers

  datatype UriError = InvalidArguments

  const MAX_PATH: nat := 4096

  /** "file://" */
  const SCHEME: seq<Byte> := [102, 105, 108, 101, 58, 47, 47]

  const SLASH: Byte := 47

  const PERCENT: Byte := 37

  const CRLF: seq<Byte> := [13, 10]

  /** Letters, digits, and the slash, hyphen, underscore, dot and tilde. */
  predicate Plain(b: Byte) {
    48 <= b < 58 || 65 <= b < 91 || 97 <= b < 123 || b in {47, 45, 95, 46, 126}
  }

  function HexDigit(n: nat): (c: Byte)
    requires n < 16
    ensures Plain(c)
  {
    if n < 10 then (48 + n) as Byte else (65 + n - 10) as Byte
  }

  function HexValue(c: Byte): Option<nat> {
    if 48 <= c < 58 then Some(c as int - 48)
    else if 65 <= c < 71 then Some(c as int - 55)
    else if 97 <= c < 103 then Some(c as int - 87)
    else None
  }

  function Escape(b: Byte): (e: seq<Byte>)
    ensures 1 <= |e| <= 3
  {
    if Plain(b) then [b] else [PERCENT, HexDigit(b as int / 16), HexDigit(b as int % 16)]
  }

  function EscapeAll(path: seq<Byte>): seq<Byte> {
    if path == [] then [] else Escape(path[0]) + EscapeAll(path[1..])
  }

  /** Percent-decoding (section 2.1 of RFC 3986); a percent sign without two digits is refused. */
  function Unescape(text: seq<Byte>): Option<seq<Byte>> {
    if text == [] then Some([])
    else if text[0] != PERCENT then
      var rest := Unescape(text[1..]);
      if rest.None? then None else Some([text[0]] + rest.value)
    else if |text| < 3 || HexValue(text[1]).None? || HexValue(text[2]).None? then None
    else
      var rest := Unescape(text[3..]);
      if rest.None? then None
      else Some([(HexValue(text[1]).value * 16 + HexValue(text[2]).value) as Byte] + rest.value)
  }

  /** The reader of a one-entry URI list: strip the scheme and the line end, then decode. */
  function ReadUri(text: seq<Byte>): Option<seq<Byte>> {
    if |text| >= |SCHEME| + |CRLF| && text[..|SCHEME|] == SCHEME && text[|text| - |CRLF|..] == CRLF
    then Unescape(text[|SCHEME|..|text| - |CRLF|])
    else None
  }

  /** `isText` says which paths `Path::to_str` can give as UTF-8. */
  predicate Accepted(path: seq<Byte>, isText: seq<Byte> -> bool) {
    isText(path) && |path| > 0 && path[0] == SLASH && |path| <= MAX_PATH && 0 !in path
  }

  function UriText(path: seq<Byte>): seq<Byte> {
    SCHEME + EscapeAll(path) + CRLF
  }

  lemma EscapeStep(path: seq<Byte>, i: nat, text: seq<Byte>)
    requires i < |path|
    ensures text + EscapeAll(path[i..]) == text + Escape(path[i]) + EscapeAll(path[i + 1..])
  {
    assert path[i..][1..] == path[i + 1..];
  }

  method UriList(path: seq<Byte>, isText: seq<Byte> -> bool) returns (result: Result<seq<Byte>, UriError>)
    ensures result == if Accepted(path, isText) then Success(UriText(path)) else Failure(InvalidArguments)
  {
    if !Accepted(path, isText) { return Failure(InvalidArguments); }
    var text := SCHEME;
    for i := 0 to |path|
      invariant text + EscapeAll(path[i..]) == SCHEME + EscapeAll(path)
    {
      EscapeStep(path, i, text);
      var b := path[i];
      if Plain(b) {
        text := text + [b];
      } else {
        text := text + [PERCENT, HexDigit(b as int / 16), HexDigit(b as int % 16)];
      }
    }
    assert text == SCHEME + EscapeAll(path);
    return Success(text + CRLF);
  }

  lemma HexRoundTrip(n: nat)
    requires n < 16
    ensures HexValue(HexDigit(n)) == Some(n)
  {
  }

  lemma UnescapeOne(b: Byte, rest: seq<Byte>)
    requires Unescape(rest).Some?
    ensures Unescape(Escape(b) + rest) == Some([b] + Unescape(rest).value)
  {
    var text := Escape(b) + rest;
    if Plain(b) {
      assert text[1..] == rest;
    } else {
      HexRoundTrip(b as int / 16);
      HexRoundTrip(b as int % 16);
      assert text[0] == PERCENT && text[3..] == rest;
      assert (b as int / 16 * 16 + b as int % 16) as Byte == b;
    }
  }

  lemma {:induction false} UnescapeEscape(path: seq<Byte>)
    ensures Unescape(EscapeAll(path)) == Some(path)
  {
    if path != [] {
      UnescapeEscape(path[1..]);
      UnescapeOne(path[0], EscapeAll(path[1..]));
      assert [path[0]] + path[1..] == path;
    }
  }

  lemma {:induction false} EscapedBytes(path: seq<Byte>)
    ensures |EscapeAll(path)| <= 3 * |path|
    ensures forall b | b in EscapeAll(path) :: Plain(b) || b == PERCENT
  {
    if path != [] {
      EscapedBytes(path[1..]);
    }
  }

  /** Reading the list back gives exactly the bytes of the path. */
  lemma UriRoundTrip(path: seq<Byte>)
    ensures ReadUri(UriText(path)) == Some(path)
  {
    var text := UriText(path);
    UnescapeEscape(path);
    assert text[|SCHEME|..|text| - |CRLF|] == EscapeAll(path);
  }

  lemma UriInjective(p: seq<Byte>, q: seq<Byte>)
    requires UriText(p) == UriText(q)
    ensures p == q
  {
    UriRoundTrip(p);
    UriRoundTrip(q);
  }

  /** One line only, of bounded length, whatever bytes the accepted path has. */
  lemma UriIsOneLine(path: seq<Byte>, isText: seq<Byte> -> bool)
    requires Accepted(path, isText)
    ensures var text := UriText(path);
            && |text| <= 7 + 3 * MAX_PATH + 2
            && text[..|SCHEME| + 1] == SCHEME + [SLASH]
            && (forall i | 0 <= i < |text| - 2 :: text[i] !in CRLF)
            && text[|text| - 2..] == CRLF
  {
    EscapedBytes(path);
    var text := UriText(path);
    forall i | 0 <= i < |text| - 2
      ensures text[i] !in CRLF
    {
      if i >= |SCHEME| {
        assert text[i] == EscapeAll(path)[i - |SCHEME|];
        assert text[i] in EscapeAll(path);
      }
    }
  }

  // ---------------------------------------------------------------- the characters themselves

  /** Section 2.3 of RFC 3986, and the slash between the segments of the path. */
  const UNESCAPED: seq<string> :=
    ["ABCDEFGHIJKLMNOPQRSTUVWXYZ", "abcdefghijklmnopqrstuvwxyz", "0123456789", "-._~", "/"]

  const HEX: string := "0123456789ABCDEF"

  /** The byte is one of these characters. */
  predicate Among(b: Byte, s: string) {
    exists i :: 0 <= i < |s| && s[i] as int == b as int
  }

  lemma AmongUpper(b: Byte)
    ensures Among(b, UNESCAPED[0]) <==> 65 <= b <= 90
  {
    if 65 <= b <= 90 {
      assert UNESCAPED[0][b as int - 65] as int == b as int;
    }
  }

  lemma AmongLower(b: Byte)
    ensures Among(b, UNESCAPED[1]) <==> 97 <= b <= 122
  {
    if 97 <= b <= 122 {
      assert UNESCAPED[1][b as int - 97] as int == b as int;
    }
  }

  lemma AmongRest(b: Byte)
    ensures Among(b, UNESCAPED[2]) <==> 48 <= b <= 57
    ensures Among(b, UNESCAPED[3]) <==> b == 45 || b == 46 || b == 95 || b == 126
    ensures Among(b, UNESCAPED[4]) <==> b == 47
  {
    if 48 <= b <= 57 {
      assert UNESCAPED[2][b as int - 48] as int == b as int;
    }
    assert UNESCAPED[3][0] as int == 45 && UNESCAPED[3][1] as int == 46;
    assert UNESCAPED[3][2] as int == 95 && UNESCAPED[3][3] as int == 126;
    assert UNESCAPED[4][0] as int == 47;
  }

  /**
   A byte of the path stands for itself exactly when it is unreserved or a slash; any other becomes a
   percent sign and its two upper-case hexadecimal digits.
   */
  lemma EscapeDecides(b: Byte)
    ensures Escape(b) == [b] <==> exists k :: 0 <= k < |UNESCAPED| && Among(b, UNESCAPED[k])
    ensures Escape(b) != [b] ==>
              && |Escape(b)| == 3 && Escape(b)[0] as int == '%' as int
              && Escape(b)[1] as int == HEX[b as int / 16] as int
              && Escape(b)[2] as int == HEX[b as int % 16] as int
  {
    AmongUpper(b);
    AmongLower(b);
    AmongRest(b);
    HexTable(b as int / 16);
    HexTable(b as int % 16);
  }

  lemma HexTable(n: nat)
    requires n < 16
    ensures HexDigit(n) as int == HEX[n] as int
  {
  }

  /** The bytes of the path are escaped one by one, in order. */
  lemma {:induction false} EscapedInOrder(path: seq<Byte>, more: seq<Byte>)
    ensures EscapeAll(path + more) == EscapeAll(path) + EscapeAll(more)
  {
    if path == [] {
      assert path + more == more;
    } else {
      EscapedInOrder(path[1..], more);
      assert (path + more)[0] == path[0] && (path + more)[1..] == path[1..] + more;
      EscapeFirst(path + more);
      EscapeFirst(path);
      AppendAssociates(Escape(path[0]), EscapeAll(path[1..]), EscapeAll(more));
    }
  }

  lemma AppendAssociates(a: seq<Byte>, b: seq<Byte>, c: seq<Byte>)
    ensures a + b + c == a + (b + c)
  {
  }

  lemma EscapeFirst(path: seq<Byte>)
    requires path != []
    ensures EscapeAll(path) == Escape(path[0]) + EscapeAll(path[1..])
    ensures |path| == 1 ==> EscapeAll(path) == Escape(path[0])
  {
  }

  /** What is accepted, text of 1 to 4096 bytes after a slash and without a zero byte, and what goes around it. */
  lemma UriDecides(path: seq<Byte>, isText: seq<Byte> -> bool)
    ensures Accepted(path, isText) <==>
            && isText(path) && 1 <= |path| <= 4096 && path[0] as int == '/' as int
            && forall i | 0 <= i < |path| :: path[i] != 0
    ensures UriText(path)[7..|UriText(path)| - 2] == EscapeAll(path)
    ensures forall i | 0 <= i < 7 :: UriText(path)[i] as int == "file://"[i] as int
    ensures UriText(path)[|UriText(path)| - 2..] == [13, 10]
  {
    var text := UriText(path);
    assert text == SCHEME + EscapeAll(path) + CRLF && |SCHEME| == 7;
    forall i | 0 <= i < 7
      ensures text[i] as int == "file://"[i] as int
    {
      assert text[i] == SCHEME[i];
    }
  }
}
