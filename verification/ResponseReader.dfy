/** Reading a response line back (host_v1.py, `_send`): UTF-8, JSON strings and the three members of a response,
    written without the printer. What the Host writes reads back as the response it meant, or as the replacement
    for one that is too long. */
module ResponseReader {
  import opened Commons
  import opened Transport

  // ---- UTF-8 -------------------------------------------------------------

  predicate IsTail(b: Byte) { 0x80 <= b < 0xC0 }

  function Low(b: Byte): int { b as int - 0x80 }

  /** The code point at the head of the bytes and how many of them it takes; RFC 3629, section 3, without the checks
      for overlong forms and surrogates. */
  function FirstChar(bytes: Bytes): Option<(CodePoint, nat)>
    ensures FirstChar(bytes).Some? ==> 1 <= FirstChar(bytes).value.1 <= |bytes|
  {
    if bytes == [] then None
    else if bytes[0] < 0x80 then Some((bytes[0], 1))
    else if 0xC0 <= bytes[0] < 0xE0 && |bytes| >= 2 && IsTail(bytes[1]) then
      Some(((bytes[0] as int - 0xC0) * 64 + Low(bytes[1]), 2))
    else if 0xE0 <= bytes[0] < 0xF0 && |bytes| >= 3 && IsTail(bytes[1]) && IsTail(bytes[2]) then
      Some(((bytes[0] as int - 0xE0) * 4096 + Low(bytes[1]) * 64 + Low(bytes[2]), 3))
    else if 0xF0 <= bytes[0] < 0xF4 && |bytes| >= 4 && IsTail(bytes[1]) && IsTail(bytes[2]) && IsTail(bytes[3]) then
      Some(((bytes[0] as int - 0xF0) * 262144 + Low(bytes[1]) * 4096 + Low(bytes[2]) * 64 + Low(bytes[3]), 4))
    else if bytes[0] == 0xF4 && |bytes| >= 4 && 0x80 <= bytes[1] < 0x90 && IsTail(bytes[2]) && IsTail(bytes[3]) then
      Some((0x10_0000 + Low(bytes[1]) * 4096 + Low(bytes[2]) * 64 + Low(bytes[3]), 4))
    else None
  }

  function FromUtf8(bytes: Bytes): Option<Text> {
    if bytes == [] then Some([])
    else
      var first := FirstChar(bytes);
      if first.None? then None
      else
        var rest := FromUtf8(bytes[first.value.1..]);
        if rest.None? then None else Some([first.value.0] + rest.value)
  }

  lemma CharReadsBack(c: CodePoint, rest: Bytes)
    ensures FirstChar(Utf8Char(c) + rest) == Some((c, |Utf8Char(c)|))
  {
    var bytes := Utf8Char(c);
    assert (bytes + rest)[0] == bytes[0];
    assert forall i | 0 <= i < |bytes| :: (bytes + rest)[i] == bytes[i];
    if c >= 0x1_0000 {
      FourParts(c);
    } else if c >= 0x800 {
      ThreeParts(c);
    }
  }

  lemma ThreeParts(c: int)
    requires 0 <= c < 0x1_0000
    ensures c == c / 4096 * 4096 + c / 64 % 64 * 64 + c % 64 && 0 <= c / 4096 < 16
  {
    assert c / 64 == c / 64 / 64 * 64 + c / 64 % 64;
    assert c / 64 / 64 == c / 4096;
  }

  lemma FourParts(c: int)
    requires 0 <= c < 0x11_0000
    ensures c == c / 262144 * 262144 + c / 4096 % 64 * 4096 + c / 64 % 64 * 64 + c % 64
    ensures 0 <= c / 262144 <= 4 && (c / 262144 == 4 ==> c / 4096 % 64 < 16)
  {
    assert c / 64 / 64 == c / 4096;
    assert c / 4096 / 64 == c / 262144;
  }

  /** A decoder written apart from the encoder reads back what it encodes. */
  lemma {:induction false} Utf8ReadsBack(t: Text)
    requires Utf8(t).Some?
    ensures FromUtf8(Utf8(t).value) == Some(t)
  {
    if t != [] {
      assert t == [t[0]] + t[1..];
      var rest := Utf8(t[1..]).value;
      var bytes := Utf8Char(t[0]) + rest;
      Utf8ReadsBack(t[1..]);
      CharReadsBack(t[0], rest);
      assert bytes[|Utf8Char(t[0])|..] == rest;
    }
  }

  // ---- JSON strings ------------------------------------------------------

  function HexValue(c: CodePoint): Option<int> {
    if '0' as int <= c <= '9' as int then Some(c - '0' as int)
    else if 'a' as int <= c <= 'f' as int then Some(c - 'a' as int + 10)
    else if 'A' as int <= c <= 'F' as int then Some(c - 'A' as int + 10)
    else None
  }

  /** The number behind `\u` at the head of the text. */
  function Escaped(t: Text): (n: Option<int>)
    ensures n.Some? ==> |t| >= 6 && 0 <= n.value < 0x1_0000
  {
    if |t| < 6 || t[0] != 0x5C || t[1] != 'u' as int then None
    else
      var a, b, c, d := HexValue(t[2]), HexValue(t[3]), HexValue(t[4]), HexValue(t[5]);
      if a.None? || b.None? || c.None? || d.None? then None
      else Some(a.value * 4096 + b.value * 256 + c.value * 16 + d.value)
  }

  /** What a short escape stands for. */
  function ShortEscape(c: CodePoint): Option<CodePoint> {
    if c == '"' as int || c == 0x5C || c == '/' as int then Some(c)
    else if c == 'b' as int then Some(8)
    else if c == 't' as int then Some(9)
    else if c == 'n' as int then Some(10)
    else if c == 'f' as int then Some(12)
    else if c == 'r' as int then Some(13)
    else None
  }

  /** The character at the head of a JSON string's inside and how much of the text it takes. Two escaped halves of a
      surrogate pair are one character. */
  function FirstInString(t: Text): Option<(CodePoint, nat)>
    ensures FirstInString(t).Some? ==> 1 <= FirstInString(t).value.1 <= |t|
  {
    if t == [] || t[0] == '"' as int then None
    else if t[0] != 0x5C then Some((t[0], 1))
    else
      var high := Escaped(t);
      if high.None? then
        if |t| >= 2 && ShortEscape(t[1]).Some? then Some((ShortEscape(t[1]).value, 2)) else None
      else
        var low := Escaped(t[6..]);
        if 0xD800 <= high.value < 0xDC00 && low.Some? && 0xDC00 <= low.value < 0xE000
        then Some((0x1_0000 + (high.value - 0xD800) * 1024 + low.value - 0xDC00, 12))
        else Some((high.value, 6))
  }

  /** The inside of a JSON string up to its closing quote, and what follows the quote. */
  function ReadChars(t: Text): Option<(Text, Text)>
    decreases |t|
  {
    if t != [] && t[0] == '"' as int then Some(([], t[1..]))
    else
      var first := FirstInString(t);
      if first.None? then None
      else
        var more := ReadChars(t[first.value.1..]);
        if more.None? then None else Some(([first.value.0] + more.value.0, more.value.1))
  }

  function ReadString(t: Text): Option<(Text, Text)> {
    if t != [] && t[0] == '"' as int then ReadChars(t[1..]) else None
  }

  lemma HexReadsBack(n: int)
    requires 0 <= n < 16
    ensures HexValue(HexDigit(n)) == Some(n)
  {
  }

  lemma EscapeReadsBack(n: int, rest: Text)
    requires 0 <= n < 0x1_0000
    ensures Escaped(UnicodeEscape(n) + rest) == Some(n) && (UnicodeEscape(n) + rest)[6..] == rest
  {
    hide HexDigit, HexValue;
    var t := UnicodeEscape(n) + rest;
    assert forall i | 0 <= i < 6 :: t[i] == UnicodeEscape(n)[i];
    HexReadsBack(n / 4096);
    HexReadsBack(n / 256 % 16);
    HexReadsBack(n / 16 % 16);
    HexReadsBack(n % 16);
    assert n / 16 / 16 == n / 256 && n / 256 / 16 == n / 4096;
  }

  lemma EscapedIsFirst(n: CodePoint, rest: Text)
    requires 0 <= n < 0x1_0000 && !IsSurrogate(n)
    ensures FirstInString(UnicodeEscape(n) + rest) == Some((n, 6)) && (UnicodeEscape(n) + rest)[0] == 0x5C
  {
    hide Escaped;
    EscapeReadsBack(n, rest);
  }

  lemma PairIsFirst(c: CodePoint, rest: Text)
    requires c >= 0x1_0000
    ensures FirstInString(JsonChar(c, true) + rest) == Some((c, 12)) && (JsonChar(c, true) + rest)[0] == 0x5C
    ensures |JsonChar(c, true)| == 12
  {
    hide Escaped;
    var high, low := 0xD800 + (c - 0x1_0000) / 1024, 0xDC00 + (c - 0x1_0000) % 1024;
    assert JsonChar(c, true) + rest == UnicodeEscape(high) + (UnicodeEscape(low) + rest);
    EscapeReadsBack(high, UnicodeEscape(low) + rest);
    EscapeReadsBack(low, rest);
  }

  lemma ShortIsFirst(short: CodePoint, rest: Text)
    requires ShortEscape(short).Some?
    ensures FirstInString([0x5C, short] + rest) == Some((ShortEscape(short).value, 2))
  {
    var t: Text := [0x5C, short] + rest;
    assert t[1] == short && Escaped(t) == None;
  }

  /** A character is read back; under `ensure_ascii` one that is no surrogate. */
  lemma FirstReadsBack(c: CodePoint, ascii: bool, rest: Text)
    requires ascii ==> !IsSurrogate(c)
    ensures FirstInString(JsonChar(c, ascii) + rest) == Some((c, |JsonChar(c, ascii)|))
    ensures JsonChar(c, ascii) != [] && (JsonChar(c, ascii) + rest)[0] != '"' as int
  {
    hide Escaped, UnicodeEscape;
    if c >= 0x1_0000 && ascii {
      PairIsFirst(c, rest);
    } else if |JsonChar(c, ascii)| == 6 {
      EscapedIsFirst(c, rest);
    } else if |JsonChar(c, ascii)| == 2 {
      ShortIsFirst(JsonChar(c, ascii)[1], rest);
      assert JsonChar(c, ascii) == [0x5C, JsonChar(c, ascii)[1]];
    } else {
      assert (JsonChar(c, ascii) + rest)[0] == c;
    }
  }

  lemma {:induction false} CharsReadBack(s: Text, ascii: bool, rest: Text)
    requires ascii ==> Clean(s)
    ensures ReadChars(JsonChars(s, ascii) + QUOTE + rest) == Some((s, rest))
  {
    hide JsonChar, FirstInString;
    var t := JsonChars(s, ascii) + QUOTE + rest;
    if s == [] {
      assert t == QUOTE + rest;
    } else {
      var printed := JsonChar(s[0], ascii);
      var more := JsonChars(s[1..], ascii) + QUOTE + rest;
      assert t == printed + more;
      assert s[0] in s && forall c | c in s[1..] :: c in s;
      FirstReadsBack(s[0], ascii, more);
      CharsReadBack(s[1..], ascii, rest);
      assert t[|printed|..] == more;
      assert s == [s[0]] + s[1..];
    }
  }

  /** A JSON string reads back as the text it was printed from. */
  lemma StringReadsBack(s: Text, ascii: bool, rest: Text)
    requires ascii ==> Clean(s)
    ensures ReadString(JsonString(s, ascii) + rest) == Some((s, rest))
  {
    var t := JsonString(s, ascii) + rest;
    CharsReadBack(s, ascii, rest);
    assert t[1..] == JsonChars(s, ascii) + QUOTE + rest;
  }

  // ---- responses ---------------------------------------------------------

  function After(prefix: Text, t: Text): Option<Text> {
    if prefix <= t then Some(t[|prefix|..]) else None
  }

  function ReadId(t: Text): Option<(Option<Text>, Text)> {
    var none := After(T("null"), t);
    if none.Some? then Some((None, none.value))
    else
      var some := ReadString(t);
      if some.None? then None else Some((Some(some.value.0), some.value.1))
  }

  function ReadSuccess(id: Option<Text>, t: Text): Option<Response> {
    var result := After(T(",\"ok\":true,\"result\":"), t);
    if result.None? || result.value == [] || result.value[|result.value| - 1] != '}' as int then None
    else Some(Success(id, result.value[..|result.value| - 1]))
  }

  function ReadFailure(id: Option<Text>, t: Text): Option<Response> {
    var error := After(T(",\"ok\":false,\"error\":{\"code\":"), t);
    var code := if error.None? then None else ReadString(error.value);
    var rest := if code.None? then None else After(T(",\"message\":"), code.value.1);
    var message := if rest.None? then None else ReadString(rest.value);
    if message.None? || message.value.1 != T("}}") then None
    else Some(Failure(id, code.value.0, message.value.0))
  }

  /** A response: `id`, then `ok`, then `result` or an `error` with `code` and `message`. */
  function ReadResponse(t: Text): Option<Response> {
    var body := After(T("{\"id\":"), t);
    var id := if body.None? then None else ReadId(body.value);
    if id.None? then None
    else
      var success := ReadSuccess(id.value.0, id.value.1);
      if success.Some? then success else ReadFailure(id.value.0, id.value.1)
  }

  lemma AfterIt(prefix: Text, rest: Text)
    ensures After(prefix, prefix + rest) == Some(rest)
  {
  }

  lemma IdReadsBack(id: Option<Text>, ascii: bool, rest: Text)
    requires ascii && id.Some? ==> Clean(id.value)
    ensures ReadId(IdText(id, ascii) + rest) == Some((id, rest))
  {
    hide ReadString;
    if id.None? {
      assert T("null") == [110, 117, 108, 108];
      AfterIt(T("null"), rest);
    } else {
      StringReadsBack(id.value, ascii, rest);
      assert (IdText(id, ascii) + rest)[0] == '"' as int;
      assert T("null")[0] == 'n' as int;
    }
  }

  lemma SuccessReadsBack(id: Option<Text>, result: Text)
    ensures ReadSuccess(id, T(",\"ok\":true,\"result\":") + result + T("}")) == Some(Success(id, result))
  {
    hide T;
    AfterIt(T(",\"ok\":true,\"result\":"), result + T("}"));
    assert T(",\"ok\":true,\"result\":") + result + T("}") == T(",\"ok\":true,\"result\":") + (result + T("}"));
    assert |T("}")| == 1 && T("}")[0] == '}' as int;
    assert (result + T("}"))[..|result|] == result;
  }

  lemma FailureReadsBack(id: Option<Text>, code: Text, message: Text, ascii: bool)
    requires ascii ==> Clean(code) && Clean(message)
    ensures var t := T(",\"ok\":false,\"error\":{\"code\":") + JsonString(code, ascii) + T(",\"message\":")
                     + JsonString(message, ascii) + T("}}");
            ReadSuccess(id, t) == None && ReadFailure(id, t) == Some(Failure(id, code, message))
  {
    hide JsonString, ReadString, T, Clean;
    var opening, between, end := T(",\"ok\":false,\"error\":{\"code\":"), T(",\"message\":"), T("}}");
    var third := JsonString(message, ascii) + end;
    var second := JsonString(code, ascii) + (between + third);
    var t := opening + JsonString(code, ascii) + between + JsonString(message, ascii) + end;
    assert t == opening + second;
    AfterIt(opening, second);
    StringReadsBack(code, ascii, between + third);
    AfterIt(between, third);
    StringReadsBack(message, ascii, end);
    assert t[6] == 'f' as int && T(",\"ok\":true,\"result\":")[6] == 't' as int;
  }

  /** What `_send` prints reads back as the response it was given: the id, `ok`, and the result or the error. */
  lemma ResponseReadsBack(r: Response, ascii: bool)
    requires ascii ==> Encodable(r) && r.Failure?
    ensures ReadResponse(ResponseText(r, ascii)) == Some(r)
  {
    hide JsonString, IdText, ReadId, ReadSuccess, ReadFailure, T;
    var head := T("{\"id\":");
    match r
    case Success(id, result) =>
      var tail := T(",\"ok\":true,\"result\":") + result + T("}");
      assert ResponseText(r, ascii) == head + (IdText(id, ascii) + tail);
      AfterIt(head, IdText(id, ascii) + tail);
      IdReadsBack(id, ascii, tail);
      SuccessReadsBack(id, result);
    case Failure(id, code, message) =>
      var tail := T(",\"ok\":false,\"error\":{\"code\":") + JsonString(code, ascii) + T(",\"message\":")
                  + JsonString(message, ascii) + T("}}");
      assert ResponseText(r, ascii) == head + (IdText(id, ascii) + tail);
      AfterIt(head, IdText(id, ascii) + tail);
      IdReadsBack(id, ascii, tail);
      FailureReadsBack(id, code, message, ascii);
  }

  // ---- the line that goes out --------------------------------------------

  /** The response on a line. */
  function ReadFrame(frame: Bytes): Option<Response> {
    if frame == [] || frame[|frame| - 1] != LF then None
    else
      var text := FromUtf8(frame[..|frame| - 1]);
      if text.None? then None else ReadResponse(text.value)
  }

  /** How many bytes the response takes on its line. */
  function LineLength(r: Response): nat
    requires Encodable(r)
  {
    TextEncodes(r);
    |Utf8(ResponseText(r, false)).value| + 1
  }

  /** The line that goes out is the response if it fits, and otherwise, only then, the replacement under its id. */
  lemma FrameReadsBack(r: Response)
    requires Encodable(r)
    ensures Frame(r).Some?
    ensures ReadFrame(Frame(r).value)
            == Some(if LineLength(r) <= MAX_FRAME_BYTES then r
                    else Failure(r.id, T("response_too_large"), T("response exceeds 32 KiB")))
  {
    hide Utf8, FromUtf8, ReadResponse, ResponseText;
    TextEncodes(r);
    ResponseReadsBack(r, false);
    LineReadsBack(r, false);
    if LineLength(r) > MAX_FRAME_BYTES {
      OversizeEncodes(r);
      LineReadsBack(Oversize(r.id), true);
    }
  }

  lemma LineReadsBack(r: Response, ascii: bool)
    requires Utf8(ResponseText(r, ascii)).Some? && ReadResponse(ResponseText(r, ascii)) == Some(r)
    ensures ReadFrame(Utf8(ResponseText(r, ascii)).value + [LF]) == Some(r)
  {
    hide Utf8, FromUtf8, ReadResponse, ResponseText;
    var bytes := Utf8(ResponseText(r, ascii)).value;
    Utf8ReadsBack(ResponseText(r, ascii));
    assert (bytes + [LF])[..|bytes|] == bytes;
  }

  lemma OversizeEncodes(r: Response)
    requires Encodable(r)
    ensures Utf8(ResponseText(Oversize(r.id), true)).Some?
    ensures ReadResponse(ResponseText(Oversize(r.id), true)) == Some(Oversize(r.id))
  {
    hide ReadResponse, ResponseText, Utf8, IsSurrogate;
    var small := Oversize(r.id);
    OwnTextIsClean();
    assert Encodable(small);
    ResponseReadsBack(small, true);
    assert forall c | c in ResponseText(small, true) :: !IsSurrogate(c) by { SmallIsAscii(r.id); }
  }

  lemma SmallIsAscii(id: Option<Text>)
    ensures Clean(ResponseText(Oversize(id), true))
  {
    hide JsonString, IdText;
    OwnTextIsClean();
  }
}
