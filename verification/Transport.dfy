/** The Host's line transport (host_v1.py): the byte-at-a-time reader, the request checks, the response writer
    and the loop between them, in a run without signals. JSON decoding, the commands' work and the regular
    expressions are parameters; a Python string is a sequence of code points, surrogates included. */
module Transport {
  import opened Commons

  type Byte = b: int | 0 <= b < 256
  type Bytes = seq<Byte>
  type CodePoint = c: int | 0 <= c < 0x11_0000
  type Text = seq<CodePoint>

  const MAX_FRAME_BYTES: nat := 32768
  const LF: Byte := 10

  // ---- the reader --------------------------------------------------------

  datatype Item = Line(raw: Bytes) | TooLarge | Eof

  /** The lines, each followed by its LF. */
  ghost function Joined(lines: seq<Bytes>): Bytes {
    if lines == [] then [] else Joined(lines[..|lines| - 1]) + lines[|lines| - 1] + [LF]
  }

  /** `stream` is these LF-free lines, each ended by LF, and then an unterminated tail. */
  ghost predicate Splits(stream: Bytes, lines: seq<Bytes>, tail: Bytes) {
    stream == Joined(lines) + tail && (forall line | line in lines :: LF !in line) && LF !in tail
  }

  /** There is one way to split a stream on LF. */
  lemma {:induction false} SplitUnique(stream: Bytes, lines: seq<Bytes>, tail: Bytes, others: seq<Bytes>, end: Bytes)
    requires Splits(stream, lines, tail) && Splits(stream, others, end)
    ensures lines == others && tail == end
    decreases |lines|
  {
    TailIsLongest(stream, lines, tail, others, end);
    TailIsLongest(stream, others, end, lines, tail);
    assert tail == stream[|stream| - |tail|..] == end;
    assert Joined(lines) == stream[..|stream| - |tail|] == Joined(others);
    if lines == [] || others == [] {
      assert lines == others;
    } else {
      var last, final := lines[|lines| - 1], others[|others| - 1];
      var before, earlier := lines[..|lines| - 1], others[..|others| - 1];
      var shorter := stream[..|stream| - |tail| - 1];
      assert shorter == Joined(before) + last;
      assert shorter == Joined(earlier) + final;
      SplitUnique(shorter, before, last, earlier, final);
      assert lines == before + [last] && others == earlier + [final];
    }
  }

  lemma TailIsLongest(stream: Bytes, lines: seq<Bytes>, tail: Bytes, others: seq<Bytes>, end: Bytes)
    requires Splits(stream, lines, tail) && Splits(stream, others, end)
    ensures |end| <= |tail|
  {
    if lines != [] {
      assert Joined(lines)[|Joined(lines)| - 1] == LF;
      assert stream[|stream| - |tail| - 1] == LF;
    }
    forall i | |stream| - |end| <= i < |stream|
      ensures stream[i] != LF
    {
      assert stream[i] == end[i - (|stream| - |end|)];
    }
  }

  function Mark(line: Bytes): Item {
    if |line| > MAX_FRAME_BYTES then TooLarge else Line(line)
  }

  function Marks(lines: seq<Bytes>): (items: seq<Item>)
    ensures |items| == |lines| && forall i | 0 <= i < |lines| :: items[i] == Mark(lines[i])
  {
    seq(|lines|, i requires 0 <= i < |lines| => Mark(lines[i]))
  }

  lemma LineEnds(lines: seq<Bytes>, line: Bytes)
    ensures Joined(lines + [line]) + [] == Joined(lines) + line + [LF]
    ensures Marks(lines + [line]) == Marks(lines) + [Mark(line)]
  {
    assert (lines + [line])[..|lines|] == lines;
  }

  /** What a sequence of reads delivers; an empty read is the end of the stream. */
  function Stream(chunks: seq<Bytes>): Bytes {
    if chunks == [] || chunks[0] == [] then [] else chunks[0] + Stream(chunks[1..])
  }

  /** `reader` */
  class Reader {
    var buf: Bytes
    var tooLarge: bool
    var queue: seq<Item>
    ghost var lines: seq<Bytes>
    ghost var tail: Bytes

    ghost predicate Valid()
      reads this
    {
      && (forall line | line in lines :: LF !in line) && LF !in tail
      && queue == Marks(lines)
      && (tooLarge <==> |tail| > MAX_FRAME_BYTES)
      && buf == if tooLarge then tail[..MAX_FRAME_BYTES] else tail
    }

    ghost function Received(): Bytes
      reads this
    {
      Joined(lines) + tail
    }

    constructor ()
      ensures Valid() && Received() == []
    {
      buf, tooLarge, queue, lines, tail := [], false, [], [], [];
    }

    /** One byte. However long the line, no more than MAX_FRAME_BYTES of it are held. */
    method Accept(byte: Byte)
      requires Valid()
      modifies this
      ensures Valid() && |buf| <= MAX_FRAME_BYTES
      ensures Received() == old(Received()) + [byte]
    {
      hide Joined;
      LineEnds(lines, tail);
      if byte == LF {
        queue := queue + [if tooLarge then TooLarge else Line(buf)];
        buf, tooLarge := [], false;
        lines, tail := lines + [tail], [];
      } else {
        if !tooLarge {
          if |buf| < MAX_FRAME_BYTES {
            buf := buf + [byte];
          } else {
            tooLarge := true;
          }
        }
        tail := tail + [byte];
      }
    }

    method AcceptAll(chunk: Bytes)
      requires Valid()
      modifies this
      ensures Valid() && Received() == old(Received()) + chunk
    {
      hide Valid, Received;
      ghost var before := Received();
      var k := 0;
      while k < |chunk|
        invariant 0 <= k <= |chunk| && Valid()
        invariant Received() == before + chunk[..k]
      {
        Accept(chunk[k]);
        assert chunk[..k] + [chunk[k]] == chunk[..k + 1];
        k := k + 1;
      }
      assert chunk[..k] == chunk;
    }

    /** The whole run of the reader thread, for every way the stream is cut into reads. */
    method Run(chunks: seq<Bytes>)
      requires Valid() && Received() == []
      modifies this
      ensures Splits(Stream(chunks), lines, tail) && queue == Marks(lines) + [Eof]
      ensures forall other, end | Splits(Stream(chunks), other, end) :: queue == Marks(other) + [Eof]
    {
      hide Valid, Received, Splits;
      var i := 0;
      while i < |chunks|
        invariant 0 <= i <= |chunks| && Valid()
        invariant Stream(chunks) == Received() + Stream(chunks[i..])
      {
        var chunk := chunks[i];
        if chunk == [] { break; }
        assert chunks[i..][1..] == chunks[i + 1..];
        AcceptAll(chunk);
        i := i + 1;
      }
      assert Stream(chunks) == Received();
      AllReceived();
      queue := queue + [Eof];
      forall other, end | Splits(Stream(chunks), other, end)
        ensures other == lines
      {
        SplitUnique(Stream(chunks), other, end, lines, tail);
      }
    }

    lemma AllReceived()
      requires Valid()
      ensures Splits(Received(), lines, tail) && queue == Marks(lines)
    {
    }
  }

  // ---- text and bytes ----------------------------------------------------

  function T(s: string): (t: Text)
    ensures |t| == |s| && forall i | 0 <= i < |s| :: t[i] == s[i] as int
  {
    seq(|s|, i requires 0 <= i < |s| => s[i] as int)
  }

  predicate IsSurrogate(c: CodePoint) { 0xD800 <= c < 0xE000 }

  function Utf8Char(c: CodePoint): (bytes: Bytes)
    ensures 1 <= |bytes| <= 4 && (LF in bytes ==> c == LF)
  {
    if c < 0x80 then [c]
    else if c < 0x800 then [0xC0 + c / 64, 0x80 + c % 64]
    else if c < 0x1_0000 then [0xE0 + c / 4096, 0x80 + c / 64 % 64, 0x80 + c % 64]
    else [0xF0 + c / 262144, 0x80 + c / 4096 % 64, 0x80 + c / 64 % 64, 0x80 + c % 64]
  }

  /** Strict UTF-8: a surrogate cannot be encoded, whatever stands around it. */
  function Utf8(t: Text): (bytes: Option<Bytes>)
    ensures bytes.Some? <==> forall c | c in t :: !IsSurrogate(c)
    ensures bytes.Some? && LF !in t ==> LF !in bytes.value
    ensures bytes.Some? ==> |bytes.value| <= 4 * |t|
  {
    if t == [] then Some([])
    else
      var rest := Utf8(t[1..]);
      assert t == [t[0]] + t[1..];
      if IsSurrogate(t[0]) || rest.None? then None else Some(Utf8Char(t[0]) + rest.value)
  }

  function HexDigit(n: int): (c: CodePoint)
    requires 0 <= n < 16
    ensures c != LF && c < 0x80
  {
    if n < 10 then '0' as int + n else 'a' as int + n - 10
  }

  function UnicodeEscape(n: int): (t: Text)
    requires 0 <= n < 0x1_0000
    ensures |t| == 6 && forall c | c in t :: c != LF && c < 0x80
  {
    [0x5C, 'u' as int, HexDigit(n / 4096), HexDigit(n / 256 % 16), HexDigit(n / 16 % 16), HexDigit(n % 16)]
  }

  /** One character of a JSON string, printed with or without `ensure_ascii`. */
  function JsonChar(c: CodePoint, ascii: bool): (t: Text)
    ensures LF !in t && |t| <= 12
    ensures ascii ==> forall d | d in t :: d < 0x80
    ensures !ascii ==> forall d | IsSurrogate(d) :: d in t <==> d == c
  {
    if c == '"' as int || c == 0x5C then [0x5C, c]
    else if c == 8 then [0x5C, 'b' as int]
    else if c == 9 then [0x5C, 't' as int]
    else if c == 10 then [0x5C, 'n' as int]
    else if c == 12 then [0x5C, 'f' as int]
    else if c == 13 then [0x5C, 'r' as int]
    else if c < 0x20 then UnicodeEscape(c)
    else if c < 0x7F || !ascii then [c]
    else if c < 0x1_0000 then UnicodeEscape(c)
    else UnicodeEscape(0xD800 + (c - 0x1_0000) / 1024) + UnicodeEscape(0xDC00 + (c - 0x1_0000) % 1024)
  }

  function JsonChars(s: Text, ascii: bool): (t: Text)
    ensures LF !in t && |t| <= 12 * |s|
    ensures ascii ==> forall d | d in t :: d < 0x80
    ensures !ascii ==> forall d | IsSurrogate(d) :: d in t <==> d in s
  {
    if s == [] then []
    else
      assert s == [s[0]] + s[1..];
      JsonChar(s[0], ascii) + JsonChars(s[1..], ascii)
  }

  const QUOTE: Text := ['"' as int]

  function JsonString(s: Text, ascii: bool): (t: Text)
    ensures LF !in t && |t| <= 12 * |s| + 2
    ensures ascii ==> forall d | d in t :: d < 0x80
    ensures !ascii ==> forall d | IsSurrogate(d) :: d in t <==> d in s
  {
    QUOTE + JsonChars(s, ascii) + QUOTE
  }

  // ---- responses ---------------------------------------------------------

  /** `result` is the JSON text of the command's result. */
  datatype Response =
    | Success(id: Option<Text>, result: Text)
    | Failure(id: Option<Text>, code: Text, message: Text)

  function IdText(id: Option<Text>, ascii: bool): (t: Text)
    ensures LF !in t && (id.Some? ==> |t| <= 12 * |id.value| + 2) && (id.None? ==> |t| == 4)
    ensures ascii ==> forall d | d in t :: d < 0x80
    ensures !ascii ==> forall d | IsSurrogate(d) :: d in t <==> id.Some? && d in id.value
  {
    match id
    case None => [110, 117, 108, 108]
    case Some(value) => JsonString(value, ascii)
  }

  function ResponseText(r: Response, ascii: bool): Text {
    T("{\"id\":") + IdText(r.id, ascii) +
    match r
    case Success(_, result) => T(",\"ok\":true,\"result\":") + result + T("}")
    case Failure(_, code, message) =>
      T(",\"ok\":false,\"error\":{\"code\":") + JsonString(code, ascii) + T(",\"message\":") + JsonString(message, ascii) + T("}}")
  }

  /** No surrogate anywhere in what the response would print. */
  predicate Encodable(r: Response) {
    && (r.id.Some? ==> forall c | c in r.id.value :: !IsSurrogate(c))
    && match r
       case Success(_, result) => forall c | c in result :: !IsSurrogate(c)
       case Failure(_, code, message) => forall c | c in code + message :: !IsSurrogate(c)
  }

  function Oversize(id: Option<Text>): Response {
    Failure(id, T("response_too_large"), T("response exceeds 32 KiB"))
  }

  /** The bytes `_send` writes, or None where `encode` raises. */
  function Frame(r: Response): Option<Bytes> {
    match Utf8(ResponseText(r, false))
    case None => None
    case Some(bytes) =>
      if |bytes| + 1 <= MAX_FRAME_BYTES then Some(bytes + [LF])
      else
        match Utf8(ResponseText(Oversize(r.id), true))
        case None => None
        case Some(small) => Some(small + [LF])
  }

  lemma TextEncodes(r: Response)
    ensures Utf8(ResponseText(r, false)).Some? <==> Encodable(r)
  {
    var text := ResponseText(r, false);
    if Encodable(r) {
      forall c | c in text
        ensures !IsSurrogate(c)
      {
        if IsSurrogate(c) { SurrogateFrom(r, c); }
      }
    } else if r.id.Some? && exists c | c in r.id.value :: IsSurrogate(c) {
      var c :| c in r.id.value && IsSurrogate(c);
      SurrogateFrom(r, c);
    } else {
      match r
      case Success(_, result) =>
        var c :| c in result && IsSurrogate(c);
        SurrogateFrom(r, c);
      case Failure(_, code, message) =>
        var c :| c in code + message && IsSurrogate(c);
        SurrogateFrom(r, c);
    }
  }

  lemma SurrogateFrom(r: Response, c: CodePoint)
    requires IsSurrogate(c)
    ensures c in ResponseText(r, false) <==>
              || (r.id.Some? && c in r.id.value)
              || (match r case Success(_, result) => c in result case Failure(_, code, message) => c in code + message)
  {
    hide IdText, JsonString;
    match r
    case Success(_, result) =>
      assert c !in T("{\"id\":") && c !in T(",\"ok\":true,\"result\":") && c !in T("}");
    case Failure(_, code, message) =>
      assert c !in T("{\"id\":") && c !in T(",\"ok\":false,\"error\":{\"code\":");
      assert c !in T(",\"message\":") && c !in T("}}");
  }

  /** What the JSON printer guarantees of a result, and the request check of an id. */
  predicate Printable(r: Response) {
    (r.id.Some? ==> |r.id.value| <= 128) && (r.Success? ==> LF !in r.result)
  }

  lemma TextIsOneLine(r: Response, ascii: bool)
    requires Printable(r)
    ensures LF !in ResponseText(r, ascii)
  {
    hide IdText, JsonString;
    assert LF !in T("{\"id\":");
    match r
    case Success(_, result) =>
      assert LF !in T(",\"ok\":true,\"result\":") && LF !in T("}");
    case Failure(_, code, message) =>
      assert LF !in T(",\"ok\":false,\"error\":{\"code\":") && LF !in T(",\"message\":") && LF !in T("}}");
  }

  lemma OversizeIsSmall(id: Option<Text>)
    requires id.Some? ==> |id.value| <= 128
    ensures |ResponseText(Oversize(id), true)| <= 4096
    ensures forall c | c in ResponseText(Oversize(id), true) :: c < 0x80
  {
    hide IdText, JsonString, Utf8, T;
    LiteralText("{\"id\":");
    LiteralText(",\"ok\":false,\"error\":{\"code\":");
    LiteralText(",\"message\":");
    LiteralText("}}");
    assert |T("response_too_large")| == 18 && |T("response exceeds 32 KiB")| == 23;
  }

  lemma LiteralText(s: string)
    requires forall c | c in s :: c as int < 0x80
    ensures |T(s)| == |s| && forall c | c in T(s) :: c < 0x80
  {
    forall c | c in T(s)
      ensures c < 0x80
    {
      var i :| 0 <= i < |T(s)| && T(s)[i] == c;
      assert s[i] in s;
    }
  }

  /** Every response that can be encoded goes out as one line of at most MAX_FRAME_BYTES bytes, the replacement for
      an oversized one included; a response holding a surrogate raises before anything is written. */
  lemma FrameShape(r: Response)
    requires Printable(r)
    ensures Frame(r).Some? <==> Encodable(r)
    ensures Frame(r).Some? ==>
              var frame := Frame(r).value;
              0 < |frame| <= MAX_FRAME_BYTES && frame[|frame| - 1] == LF && LF !in frame[..|frame| - 1]
  {
    hide ResponseText, Utf8, Encodable;
    TextEncodes(r);
    TextIsOneLine(r, false);
    TextIsOneLine(Oversize(r.id), true);
    OversizeIsSmall(r.id);
  }

  // ---- the writer --------------------------------------------------------

  /** The protocol descriptor. `accepts` says how many bytes each successive `os.write` takes, at most what it is
      given; nothing, or a negative count, is the failed write. */
  class Pipe {
    const accepts: nat -> int
    var calls: nat
    var out: Bytes

    constructor (accepts: nat -> int)
      ensures out == []
    {
      this.accepts := accepts;
      calls, out := 0, [];
    }

    /** Every write made in these calls took something. */
    ghost predicate Progressed(from: nat, to: nat) { forall n | from <= n < to :: accepts(n) > 0 }

    /** Every write the descriptor will ever be asked for takes something. */
    ghost predicate Willing() { forall n: nat :: accepts(n) > 0 }

    method Write(view: Bytes) returns (written: int)
      modifies this
      ensures calls == old(calls) + 1 && written == if accepts(old(calls)) > |view| then |view| else accepts(old(calls))
      ensures out == old(out) + if written > 0 then view[..written] else []
    {
      written := accepts(calls);
      calls := calls + 1;
      if written > |view| { written := |view|; }
      if written > 0 { out := out + view[..written]; }
    }

    /** The loop of `_send`: the pieces that get through are always a prefix of the frame, and the whole of it
        exactly when every write that was made took something. It gives up at the first one that does not. */
    method WriteAll(frame: Bytes) returns (sent: bool)
      modifies this
      ensures old(out) <= out <= old(out) + frame
      ensures sent <==> out == old(out) + frame
      ensures old(calls) <= calls && (sent <==> Progressed(old(calls), calls))
      ensures calls > old(calls) ==> Progressed(old(calls), calls - 1)
    {
      var view := frame;
      ghost var done := 0;
      while |view| > 0
        invariant 0 <= done <= |frame| && view == frame[done..]
        invariant out == old(out) + frame[..done]
        invariant old(calls) <= calls && Progressed(old(calls), calls)
      {
        var written := Write(view);
        if written <= 0 {
          assert |out| < |old(out) + frame|;
          return false;
        }
        assert frame[..done] + view[..written] == frame[..done + written];
        view := view[written..];
        done := done + written;
      }
      sent := true;
    }

    /** `_send` */
    method Send(r: Response) returns (sent: bool)
      modifies this
      ensures Frame(r).None? ==> !sent && out == old(out)
      ensures Frame(r).Some? ==> old(out) <= out <= old(out) + Frame(r).value
      ensures Frame(r).Some? ==> (sent <==> out == old(out) + Frame(r).value)
      ensures old(calls) <= calls && (sent <==> Frame(r).Some? && Progressed(old(calls), calls))
    {
      var frame := Frame(r);
      if frame.None? { return false; }
      sent := WriteAll(frame.value);
    }
  }

  // ---- requests ----------------------------------------------------------

  datatype Json =
    | Null
    | Bool(truth: bool)
    | Number(text: Text)
    | Str(text: Text)
    | List(items: seq<Json>)
    | Object(fields: map<Text, Json>)

  /** What decoding a frame gives. `json.loads` raises more than the handler catches: a number with too many
      digits, or nesting too deep. */
  datatype Decoded = Value(json: Json) | Malformed(code: Text, message: Text) | Raised

  datatype UrlKind = HttpUrl | OtherUrl | UnparsableUrl

  /** Regular expressions, `urlparse` and the joined list of field names. */
  datatype Rules = Rules(
    isArtifactId: Text -> bool, isProfileId: Text -> bool, isHex64: Text -> bool, isProxy: Json -> bool,
    urlKind: Text -> UrlKind, joined: set<Text> -> Text)

  datatype Request = Request(id: Text, command: Text, params: map<Text, Json>)

  datatype Checked = Valid(request: Request) | Invalid(code: Text, message: Text) | CheckRaises

  function Field(fields: map<Text, Json>, name: string): Json {
    if T(name) in fields then fields[T(name)] else Null
  }

  predicate IsId(json: Json) { json.Str? && 1 <= |json.text| <= 128 }

  function Names(names: set<string>): set<Text> {
    set n | n in names :: T(n)
  }

  const COMMANDS := {"hello", "launch", "status", "page", "reobserve_identity", "close", "shutdown"}
  const PAGE_ACTIONS := {"snapshot", "goto", "click", "fill", "press", "evaluate", "screenshot", "windows"}
  const PAGE_INPUT_LIMIT := 16_000

  function ParamsFields(command: Text): set<Text> {
    if command == T("launch") then Names({"artifactId", "profileId", "expectedArtifactFileSha256", "browserProxyServer"})
    else if command == T("status") then Names({"sessionId"})
    else if command == T("page") then Names({"sessionId", "action", "url", "selector", "value", "key", "script"})
    else if command == T("reobserve_identity") then Names({"sessionId"})
    else if command == T("close") then Names({"sessionId"})
    else {}
  }

  /** `validate_request` up to the checks of one command's parameters. */
  function ValidateRequest(fields: map<Text, Json>, rules: Rules): Checked {
    var unknown := fields.Keys - Names({"id", "command", "params"});
    var id, command := Field(fields, "id"), Field(fields, "command");
    var params := if T("params") in fields then fields[T("params")] else Object(map[]);
    if unknown != {} then Invalid(T("unknown_field"), T("unknown request fields: ") + rules.joined(unknown))
    else if !IsId(id) then Invalid(T("bad_type"), T("id must be a string of 1..128 chars"))
    else if !command.Str? || command.text !in Names(COMMANDS) then Invalid(T("unknown_command"), T("unknown command"))
    else if !params.Object? then Invalid(T("bad_type"), T("params must be an object"))
    else
      var extra := params.fields.Keys - ParamsFields(command.text);
      if extra != {} then
        Invalid(T("unknown_field"), T("unknown params for ") + command.text + T(": ") + rules.joined(extra))
      else ValidateCommand(Request(id.text, command.text, params.fields), rules)
  }

  /** A ProtocolError with a text of the Host's own. */
  function Refusal(code: string, message: string): (refused: Checked)
    ensures refused.Invalid? && Clean(refused.code) && Clean(refused.message)
  {
    OwnTextIsClean();
    Invalid(T(code), T(message))
  }

  function BadType(message: string): (refused: Checked)
    ensures refused.Invalid? && Clean(refused.code) && Clean(refused.message)
  {
    Refusal("bad_type", message)
  }

  function ValidateCommand(request: Request, rules: Rules): Checked {
    var params, command := request.params, request.command;
    if command == T("launch") then
      if !(Field(params, "artifactId").Str? && rules.isArtifactId(Field(params, "artifactId").text)) then
        BadType("artifactId must match identity-* pattern")
      else if !(Field(params, "profileId").Str? && rules.isProfileId(Field(params, "profileId").text)) then
        BadType("profileId has invalid format")
      else if !(Field(params, "expectedArtifactFileSha256").Str? && rules.isHex64(Field(params, "expectedArtifactFileSha256").text)) then
        BadType("expectedArtifactFileSha256 must be 64 hex chars")
      else if T("browserProxyServer") in params && !rules.isProxy(params[T("browserProxyServer")]) then
        BadType("browserProxyServer must be socks5://127.0.0.1:<1..65535>")
      else Valid(request)
    else if command == T("close") || command == T("reobserve_identity") then
      if Field(params, "sessionId").Str? then Valid(request) else BadType("sessionId must be a string")
    else if command == T("status") then
      if T("sessionId") in params && !params[T("sessionId")].Str? then BadType("sessionId must be a string") else Valid(request)
    else if command == T("page") then ValidatePage(request, rules)
    else Valid(request)
  }

  /** The parameter an action cannot do without. */
  function RequiredField(action: Text): Option<string> {
    if action == T("goto") then Some("url")
    else if action == T("click") || action == T("fill") then Some("selector")
    else if action == T("press") then Some("key")
    else if action == T("evaluate") then Some("script")
    else None
  }

  predicate BoundedInput(json: Json) {
    json.Null? || (json.Str? && |json.text| <= PAGE_INPUT_LIMIT)
  }

  predicate InputsBounded(params: map<Text, Json>) {
    && BoundedInput(Field(params, "url")) && BoundedInput(Field(params, "selector")) && BoundedInput(Field(params, "value"))
    && BoundedInput(Field(params, "key")) && BoundedInput(Field(params, "script"))
  }

  /** `validate_page_params`. Testing a list or an object for membership of a set raises TypeError; `urlparse`
      raises ValueError for some strings. The request check catches neither. */
  function ValidatePage(request: Request, rules: Rules): Checked {
    var params := request.params;
    var session, action := Field(params, "sessionId"), Field(params, "action");
    if !session.Str? || session.text == [] then BadType("page sessionId must be a non-empty string")
    else if action.List? || action.Object? then CheckRaises
    else if !action.Str? || action.text !in Names(PAGE_ACTIONS) then BadType("page action is unsupported")
    else
      var required := RequiredField(action.text);
      if required.Some? && !Field(params, required.value).Str? then BadType("page action requires a field")
      else if !InputsBounded(params) then BadType("page input must be a bounded string")
      else if action.text == T("goto") && rules.urlKind(Field(params, "url").text).UnparsableUrl? then CheckRaises
      else if action.text == T("goto") && rules.urlKind(Field(params, "url").text).OtherUrl? then
        Refusal("bad_url", "page goto only accepts absolute HTTP(S) URLs")
      else if action.text == T("fill") && !Field(params, "value").Str? then BadType("page fill requires value")
      else Valid(request)
  }

  /** The page requests whose check raises: an action that cannot be hashed, or a URL that cannot be parsed. */
  predicate PageRaises(params: map<Text, Json>, rules: Rules) {
    && Field(params, "sessionId").Str? && Field(params, "sessionId").text != []
    && (|| Field(params, "action").List?
        || Field(params, "action").Object?
        || (&& Field(params, "action") == Str(T("goto")) && Field(params, "url").Str? && InputsBounded(params)
            && rules.urlKind(Field(params, "url").text).UnparsableUrl?))
  }

  lemma SameText(a: string, b: string)
    ensures T(a) == T(b) <==> a == b
  {
    if T(a) == T(b) {
      forall i | 0 <= i < |a|
        ensures a[i] == b[i]
      {
        assert T(a)[i] == T(b)[i];
      }
    }
  }

  lemma PageIsNoOther()
    ensures forall c | c in {"launch", "close", "reobserve_identity", "status"} :: T("page") != T(c)
    ensures T("page") in Names(COMMANDS)
  {
    assert "page" in COMMANDS;
  }

  lemma GotoIsAnAction()
    ensures T("goto") in Names(PAGE_ACTIONS) && RequiredField(T("goto")) == Some("url") && T("goto") != T("fill")
  {
    assert "goto" in PAGE_ACTIONS;
    SameText("goto", "fill");
  }

  lemma PageRaisesIff(request: Request, rules: Rules)
    ensures ValidatePage(request, rules).CheckRaises? <==> PageRaises(request.params, rules)
  {
    hide Names, InputsBounded, T;
    GotoIsAnAction();
  }

  lemma CommandRaisesIff(request: Request, rules: Rules)
    ensures ValidateCommand(request, rules).CheckRaises? <==>
              request.command == T("page") && PageRaises(request.params, rules)
  {
    hide ValidatePage, PageRaises, Names;
    PageIsNoOther();
    PageRaisesIff(request, rules);
  }

  /** A well-formed page request whose parameters raise. */
  predicate RequestRaises(fields: map<Text, Json>, rules: Rules) {
    && fields.Keys <= Names({"id", "command", "params"})
    && IsId(Field(fields, "id")) && Field(fields, "command") == Str(T("page"))
    && Field(fields, "params").Object? && Field(fields, "params").fields.Keys <= ParamsFields(T("page"))
    && PageRaises(Field(fields, "params").fields, rules)
  }

  /** The check of a request answers with a verdict except for the page requests above. */
  lemma CheckRaisesIff(fields: map<Text, Json>, rules: Rules)
    ensures ValidateRequest(fields, rules).CheckRaises? <==> RequestRaises(fields, rules)
  {
    hide Names, ParamsFields, ValidateCommand, PageRaises, T;
    PageIsNoOther();
    var command := Field(fields, "command");
    var params := if T("params") in fields then fields[T("params")] else Object(map[]);
    if command.Str? && params.Object? && IsId(Field(fields, "id")) {
      CommandRaisesIff(Request(Field(fields, "id").text, command.text, params.fields), rules);
    }
    if T("params") !in fields {
      NothingToRaise(rules);
    } else {
      assert Field(fields, "params") == params;
    }
    NoExtras(fields.Keys, Names({"id", "command", "params"}));
    if params.Object? && command.Str? { NoExtras(params.fields.Keys, ParamsFields(command.text)); }
  }

  lemma NoExtras(found: set<Text>, known: set<Text>)
    ensures found <= known <==> found - known == {}
  {
    if found - known == {} {
      forall x | x in found
        ensures x in known
      {
        assert x in found - known || x in known;
      }
    }
  }

  lemma NothingToRaise(rules: Rules)
    ensures !PageRaises(map[], rules)
  {
  }

  predicate TextField(params: map<Text, Json>, name: string) { Field(params, name).Str? }

  /** What a page request must bring. */
  predicate PageFits(params: map<Text, Json>, rules: Rules) {
    && TextField(params, "sessionId") && Field(params, "sessionId").text != []
    && TextField(params, "action") && Field(params, "action").text in Names(PAGE_ACTIONS)
    && InputsBounded(params)
    && (RequiredField(Field(params, "action").text).Some? ==>
          TextField(params, RequiredField(Field(params, "action").text).value))
    && (Field(params, "action").text == T("goto") ==> rules.urlKind(Field(params, "url").text).HttpUrl?)
    && (Field(params, "action").text == T("fill") ==> TextField(params, "value"))
  }

  /** What each command must bring. */
  predicate ParamsFit(command: Text, params: map<Text, Json>, rules: Rules) {
    && (command == T("launch") ==>
          && TextField(params, "artifactId") && rules.isArtifactId(Field(params, "artifactId").text)
          && TextField(params, "profileId") && rules.isProfileId(Field(params, "profileId").text)
          && TextField(params, "expectedArtifactFileSha256") && rules.isHex64(Field(params, "expectedArtifactFileSha256").text)
          && (T("browserProxyServer") in params ==> rules.isProxy(params[T("browserProxyServer")])))
    && (command == T("close") || command == T("reobserve_identity") ==> TextField(params, "sessionId"))
    && (command == T("status") ==> (T("sessionId") in params ==> params[T("sessionId")].Str?))
    && (command == T("page") ==> PageFits(params, rules))
  }

  /** A request passes the check exactly when it has no field too many, a valid id, a known command, and the
      parameters its command needs and no others. */
  lemma RequestPassesIff(fields: map<Text, Json>, rules: Rules)
    ensures var params := if T("params") in fields then fields[T("params")] else Object(map[]);
            ValidateRequest(fields, rules).Valid? <==>
              && fields.Keys <= Names({"id", "command", "params"})
              && IsId(Field(fields, "id"))
              && Field(fields, "command").Str? && Field(fields, "command").text in Names(COMMANDS)
              && params.Object? && params.fields.Keys <= ParamsFields(Field(fields, "command").text)
              && ParamsFit(Field(fields, "command").text, params.fields, rules)
  {
    hide Names, ParamsFields, ValidateCommand, ParamsFit, T;
    var command := Field(fields, "command");
    var params := if T("params") in fields then fields[T("params")] else Object(map[]);
    NoExtras(fields.Keys, Names({"id", "command", "params"}));
    if params.Object? && command.Str? && IsId(Field(fields, "id")) {
      NoExtras(params.fields.Keys, ParamsFields(command.text));
      CommandPassesIff(Request(Field(fields, "id").text, command.text, params.fields), rules);
    }
  }

  lemma CommandPassesIff(request: Request, rules: Rules)
    ensures ValidateCommand(request, rules).Valid? <==> ParamsFit(request.command, request.params, rules)
  {
    hide Names, PageFits, ValidatePage;
    CommandsApart();
    PagePassesIff(request, rules);
  }

  lemma CommandsApart()
    ensures T("launch") != T("close") && T("launch") != T("reobserve_identity") && T("launch") != T("status") && T("launch") != T("page")
    ensures T("close") != T("status") && T("close") != T("page") && T("reobserve_identity") != T("status")
    ensures T("reobserve_identity") != T("page") && T("status") != T("page")
  {
    SameText("launch", "status");
  }

  lemma PagePassesIff(request: Request, rules: Rules)
    ensures ValidatePage(request, rules).Valid? <==> PageFits(request.params, rules)
  {
    hide Names, InputsBounded, T;
    GotoIsAnAction();
  }

  // ---- one frame ---------------------------------------------------------

  /** What a command's work ends with. `result` is its JSON text. */
  datatype Outcome =
    | Done(result: Text)
    | ProtocolFailure(code: Text, message: Text)
    | SchemaFailure(message: Text)
    | IntegrityFailure(message: Text)
    | OtherFailure(message: Text)

  type Work = (nat, Request) -> Outcome
  type Decoder = Bytes -> Decoded

  /** A response and whether the Host stops after it, or an exception that leaves the loop. */
  datatype Handled = Answer(response: Response, stop: bool) | Escapes

  function ParseFrame(raw: Bytes, decode: Decoder): Decoded {
    if |raw| > MAX_FRAME_BYTES then Malformed(T("frame_too_large"), T("frame exceeds 32768 bytes")) else
    match decode(raw)
    case Value(json) =>
      if json.Object? then Value(json) else Malformed(T("frame_not_object"), T("frame must be a JSON object"))
    case other => other
  }

  /** The id an error response may echo. */
  function TrustedId(parsed: Decoded): Option<Text> {
    if parsed.Value? && parsed.json.Object? && IsId(Field(parsed.json.fields, "id"))
    then Some(Field(parsed.json.fields, "id").text) else None
  }

  /** `handle_frame`, for the n-th frame dequeued, up to the call of `_send`. */
  function HandleFrame(n: nat, raw: Bytes, decode: Decoder, rules: Rules, work: Work): Handled {
    match ParseFrame(raw, decode)
    case Raised => Escapes
    case Malformed(code, message) => Answer(Failure(None, code, message), false)
    case Value(json) =>
      if !json.Object? then Escapes
      else
        match ValidateRequest(json.fields, rules)
        case CheckRaises => Escapes
        case Invalid(code, message) => Answer(Failure(TrustedId(Value(json)), code, message), false)
        case Valid(request) =>
          var id := Some(request.id);
          match work(n, request)
          case Done(result) => Answer(Success(id, result), request.command == T("shutdown"))
          case ProtocolFailure(code, message) => Answer(Failure(id, code, message), request.command == T("shutdown"))
          case SchemaFailure(message) => Answer(Failure(id, T("unsupported_schema_version"), message), false)
          case IntegrityFailure(message) => Answer(Failure(id, T("integrity_rejected"), message), false)
          case OtherFailure(message) => Answer(Failure(id, T("internal_error"), message), false)
  }

  /** One turn of the loop in `run_host` for an item that is not the end of the stream. */
  function Handle(n: nat, item: Item, decode: Decoder, rules: Rules, work: Work): Handled
    requires !item.Eof?
  {
    match item
    case TooLarge => Answer(Failure(None, T("frame_too_large"), T("frame exceeds 32768 bytes")), false)
    case Line(raw) => HandleFrame(n, raw, decode, rules, work)
  }

  /** The reader's marker for a line that is too long is answered as the line itself would have been. */
  lemma MarkIsAnsweredAsTheLine(n: nat, line: Bytes, decode: Decoder, rules: Rules, work: Work)
    ensures Handle(n, Mark(line), decode, rules, work) == HandleFrame(n, line, decode, rules, work)
  {
    hide T, ValidateRequest;
  }

  /** The failure has the outcome's own words, and its code where it brings one. */
  predicate Reports(o: Outcome, code: Text, message: Text) {
    match o
    case Done(_) => false
    case ProtocolFailure(c, m) => c == code && m == message
    case SchemaFailure(m) => m == message && code == T("unsupported_schema_version")
    case IntegrityFailure(m) => m == message && code == T("integrity_rejected")
    case OtherFailure(m) => m == message && code == T("internal_error")
  }

  /** A response tells what came of the frame: the result of the work, or the words of the first that failed. */
  lemma ResponsesTellTheOutcome(n: nat, raw: Bytes, decode: Decoder, rules: Rules, work: Work)
    ensures var parsed, handled := ParseFrame(raw, decode), HandleFrame(n, raw, decode, rules, work);
            var request := if parsed.Value? && parsed.json.Object? then ValidateRequest(parsed.json.fields, rules) else CheckRaises;
            handled.Answer? ==>
              match handled.response
              case Success(_, result) => request.Valid? && work(n, request.request) == Done(result)
              case Failure(_, code, message) =>
                || parsed == Malformed(code, message)
                || request == Invalid(code, message)
                || (request.Valid? && Reports(work(n, request.request), code, message))
  {
    hide ValidateRequest, T;
  }

  /** Every response carries the id of the request whenever the frame decoded to an object with a valid one, and
      null otherwise; so does every success. */
  lemma ResponsesEchoTheId(n: nat, raw: Bytes, decode: Decoder, rules: Rules, work: Work)
    ensures var handled := HandleFrame(n, raw, decode, rules, work);
            handled.Answer? ==> && handled.response.id == TrustedId(ParseFrame(raw, decode))
                                && (handled.response.Success? ==> handled.response.id.Some?)
  {
    hide ValidatePage, Names, ParamsFields;
    var parsed := ParseFrame(raw, decode);
    if parsed.Value? && parsed.json.Object? { ValidKeepsTheId(parsed.json.fields, rules); }
  }

  /** The Host stops after a frame exactly when it was a valid shutdown whose work ended, or failed with a protocol
      error; any other failure of the shutdown is answered and the loop goes on. Success is answered only to work done. */
  lemma OnlyShutdownStops(n: nat, raw: Bytes, decode: Decoder, rules: Rules, work: Work)
    ensures var parsed, handled := ParseFrame(raw, decode), HandleFrame(n, raw, decode, rules, work);
            var request := if parsed.Value? && parsed.json.Object? then ValidateRequest(parsed.json.fields, rules) else CheckRaises;
            && (handled.Answer? && handled.stop <==>
                  && request.Valid? && Field(parsed.json.fields, "command") == Str(T("shutdown"))
                  && (work(n, request.request).Done? || work(n, request.request).ProtocolFailure?))
            && (handled.Answer? && handled.response.Success? <==> request.Valid? && work(n, request.request).Done?)
  {
    hide ValidateRequest, Field, T;
    var parsed := ParseFrame(raw, decode);
    if parsed.Value? && parsed.json.Object? { ValidKeepsTheId(parsed.json.fields, rules); }
  }

  lemma ValidKeepsTheId(fields: map<Text, Json>, rules: Rules)
    ensures var checked := ValidateRequest(fields, rules);
            checked.Valid? ==> IsId(Field(fields, "id")) && checked.request.id == Field(fields, "id").text
                               && Str(checked.request.command) == Field(fields, "command")
  {
    hide Names, ParamsFields, ValidateCommand, T;
    var command := Field(fields, "command");
    var params := if T("params") in fields then fields[T("params")] else Object(map[]);
    if command.Str? && params.Object? && IsId(Field(fields, "id")) {
      CommandKeepsTheRequest(Request(Field(fields, "id").text, command.text, params.fields), rules);
    }
  }

  lemma CommandKeepsTheRequest(request: Request, rules: Rules)
    ensures ValidateCommand(request, rules).Valid? ==> ValidateCommand(request, rules).request == request
  {
    hide Names, InputsBounded, T, RequiredField;
  }

  // ---- the loop ----------------------------------------------------------

  /** JSON printed without indentation holds no line break. */
  ghost predicate PrintsOneLine(work: Work) {
    forall n, request :: work(n, request).Done? ==> LF !in work(n, request).result
  }

  lemma AnswersArePrintable(n: nat, item: Item, decode: Decoder, rules: Rules, work: Work)
    requires !item.Eof? && PrintsOneLine(work)
    ensures var handled := Handle(n, item, decode, rules, work);
            handled.Answer? ==> Printable(handled.response)
  {
    hide ParseFrame, ValidateRequest;
    if item.Line? { ResponsesEchoTheId(n, item.raw, decode, rules, work); }
  }

  // ---- what keeps a response from being encoded -----------------------------

  predicate Clean(t: Text) { forall c | c in t :: !IsSurrogate(c) }

  /** Field names are joined as they are: a surrogate in the list is one in a name. */
  ghost predicate JoinsNames(rules: Rules) {
    forall names: set<Text> :: Clean(rules.joined(names)) <==> forall n | n in names :: Clean(n)
  }

  /** The names that the answer to a refused request repeats. */
  function NamesRepeated(fields: map<Text, Json>): set<Text> {
    var unknown := fields.Keys - Names({"id", "command", "params"});
    var command := Field(fields, "command");
    var params := if T("params") in fields then fields[T("params")] else Object(map[]);
    if unknown != {} then unknown
    else if IsId(Field(fields, "id")) && command.Str? && command.text in Names(COMMANDS) && params.Object?
    then params.fields.Keys - ParamsFields(command.text)
    else {}
  }

  predicate OutcomeClean(o: Outcome) {
    match o
    case Done(result) => Clean(result)
    case ProtocolFailure(code, message) => Clean(code) && Clean(message)
    case SchemaFailure(message) => Clean(message)
    case IntegrityFailure(message) => Clean(message)
    case OtherFailure(message) => Clean(message)
  }

  /** No surrogate in what an answer repeats: the trusted id, the names of fields too many, what the decoder says of a
      frame it refuses, and what the work of a request that passes ends with. */
  ghost predicate RepeatsClean(n: nat, parsed: Decoded, rules: Rules, work: Work) {
    match parsed
    case Raised => true
    case Malformed(code, message) => Clean(code) && Clean(message)
    case Value(json) =>
      && (TrustedId(parsed).Some? ==> Clean(TrustedId(parsed).value))
      && (json.Object? ==>
            && (forall name | name in NamesRepeated(json.fields) :: Clean(name))
            && (ValidateRequest(json.fields, rules).Valid? ==> OutcomeClean(work(n, ValidateRequest(json.fields, rules).request))))
  }

  /** A text of the Host's own has no surrogate. */
  lemma OwnTextIsClean()
    ensures forall s: string {:trigger T(s)} :: Clean(T(s))
  {
    forall s: string
      ensures Clean(T(s))
    {
      forall c | c in T(s)
        ensures !IsSurrogate(c)
      {
        var i :| 0 <= i < |T(s)| && T(s)[i] == c;
        assert s[i] as int == c;
      }
    }
  }

  lemma CleanBoth(a: Text, b: Text)
    ensures Clean(a + b) <==> Clean(a) && Clean(b)
  {
    if Clean(a + b) {
      forall c | c in a || c in b
        ensures !IsSurrogate(c)
      {
        assert c in a + b;
      }
    }
  }

  lemma CommandRefusalIsClean(request: Request, rules: Rules)
    ensures var checked := ValidateCommand(request, rules); checked.Invalid? ==> Clean(checked.code) && Clean(checked.message)
  {
    hide Clean, Names, InputsBounded, T, RequiredField, Field, BadType, Refusal;
  }

  lemma CommandIsClean(command: Text)
    requires command in Names(COMMANDS)
    ensures Clean(command)
  {
    OwnTextIsClean();
    hide Clean, T;
    var name :| name in COMMANDS && T(name) == command;
  }

  lemma RefusalIsClean(fields: map<Text, Json>, rules: Rules)
    requires JoinsNames(rules)
    ensures var checked := ValidateRequest(fields, rules);
            checked.Invalid? ==>
              (Clean(checked.code) && Clean(checked.message) <==> forall name | name in NamesRepeated(fields) :: Clean(name))
  {
    hide Clean, Names, ParamsFields, ValidateCommand, T;
    OwnTextIsClean();
    var unknown := fields.Keys - Names({"id", "command", "params"});
    var id, command := Field(fields, "id"), Field(fields, "command");
    var params := if T("params") in fields then fields[T("params")] else Object(map[]);
    if unknown != {} {
      CleanBoth(T("unknown request fields: "), rules.joined(unknown));
    } else if IsId(id) && command.Str? && command.text in Names(COMMANDS) && params.Object? {
      var extra := params.fields.Keys - ParamsFields(command.text);
      CommandIsClean(command.text);
      CleanBoth(T("unknown params for "), command.text);
      CleanBoth(T("unknown params for ") + command.text, T(": "));
      CleanBoth(T("unknown params for ") + command.text + T(": "), rules.joined(extra));
      CommandRefusalIsClean(Request(id.text, command.text, params.fields), rules);
    }
  }

  /** Whether the answer to a frame can be encoded is a matter of what it repeats. */
  lemma EncodableIff(n: nat, raw: Bytes, decode: Decoder, rules: Rules, work: Work)
    requires JoinsNames(rules)
    ensures var handled := HandleFrame(n, raw, decode, rules, work);
            handled.Answer? ==> (Encodable(handled.response) <==> RepeatsClean(n, ParseFrame(raw, decode), rules, work))
  {
    hide ValidateRequest, NamesRepeated, TrustedId, ParseFrame, IsSurrogate, Encodable, T, Clean, JoinsNames;
    var parsed, handled := ParseFrame(raw, decode), HandleFrame(n, raw, decode, rules, work);
    ResponsesEchoTheId(n, raw, decode, rules, work);
    if parsed.Value? && parsed.json.Object? {
      RefusalIsClean(parsed.json.fields, rules);
      NothingRepeated(parsed.json.fields, rules);
    }
    FailureCodesAreClean();
    if handled.Answer? { EncodableParts(handled.response); }
  }

  lemma FailureCodesAreClean()
    ensures Clean(T("unsupported_schema_version")) && Clean(T("integrity_rejected")) && Clean(T("internal_error"))
  {
    OwnTextIsClean();
    hide Clean, T;
  }

  lemma EncodableParts(r: Response)
    ensures Encodable(r) <==>
              && (r.id.Some? ==> Clean(r.id.value))
              && match r
                 case Success(_, result) => Clean(result)
                 case Failure(_, code, message) => Clean(code) && Clean(message)
  {
    hide IsSurrogate;
    if r.Failure? { CleanBoth(r.code, r.message); }
  }

  /** A request that passes has no field too many. */
  lemma NothingRepeated(fields: map<Text, Json>, rules: Rules)
    ensures ValidateRequest(fields, rules).Valid? ==> NamesRepeated(fields) == {}
  {
    hide Names, ParamsFields, ValidateCommand, T;
  }

  /** A frame is left without a response, however willing the pipe, exactly when decoding it raises something
      uncaught, it is one of the page requests above, or there is a surrogate in what the answer would repeat; one in
      the id is enough. */
  lemma AnsweredIff(n: nat, raw: Bytes, decode: Decoder, rules: Rules, work: Work)
    requires PrintsOneLine(work) && JoinsNames(rules)
    ensures var parsed, handled := ParseFrame(raw, decode), HandleFrame(n, raw, decode, rules, work);
            && (handled.Answer? && Frame(handled.response).Some? <==>
                  && !parsed.Raised? && !(parsed.Value? && RequestRaises(parsed.json.fields, rules))
                  && RepeatsClean(n, parsed, rules, work))
            && (TrustedId(parsed).Some? && !Clean(TrustedId(parsed).value) ==> !RepeatsClean(n, parsed, rules, work))
  {
    hide Frame, RequestRaises, Encodable, JoinsNames, ValidateRequest, NamesRepeated, HandleFrame, PrintsOneLine, Clean;
    AnsweredIfEncodable(n, raw, decode, rules, work);
    EncodableIff(n, raw, decode, rules, work);
  }

  /** The same, of the response itself. */
  lemma AnsweredIfEncodable(n: nat, raw: Bytes, decode: Decoder, rules: Rules, work: Work)
    requires PrintsOneLine(work)
    ensures var parsed, handled := ParseFrame(raw, decode), HandleFrame(n, raw, decode, rules, work);
            && (handled.Answer? <==> !parsed.Raised? && !(parsed.Value? && RequestRaises(parsed.json.fields, rules)))
            && (handled.Answer? ==> (Frame(handled.response).Some? <==> Encodable(handled.response)))
            && (handled.Answer? && TrustedId(parsed).Some? && !Clean(TrustedId(parsed).value) ==> !Encodable(handled.response))
  {
    hide Frame, Printable, ValidateRequest, RequestRaises;
    var parsed, handled := ParseFrame(raw, decode), HandleFrame(n, raw, decode, rules, work);
    ResponsesEchoTheId(n, raw, decode, rules, work);
    AnswersArePrintable(n, Line(raw), decode, rules, work);
    if parsed.Value? && parsed.json.Object? { CheckRaisesIff(parsed.json.fields, rules); }
    if handled.Answer? { FrameShape(handled.response); }
  }

  /** A frame the Host gives no answer. */
  predicate Unanswered(n: nat, raw: Bytes, decode: Decoder, rules: Rules, work: Work) {
    var handled := HandleFrame(n, raw, decode, rules, work);
    handled.Answer? ==> Frame(handled.response).None?
  }

  predicate Decodes(decode: Decoder, raw: Bytes, fields: map<Text, Json>) {
    |raw| <= MAX_FRAME_BYTES && decode(raw) == Value(Object(fields))
  }

  function PageFrame(params: map<Text, Json>): map<Text, Json> {
    map[T("id") := Str(T("r1")), T("command") := Str(T("page")), T("params") := Object(params)]
  }

  /** `{"id":"r1","command":"page","params":{"sessionId":"s","action":[]}}` */
  function ListAction(): map<Text, Json> {
    PageFrame(map[T("sessionId") := Str(T("s")), T("action") := List([])])
  }

  /** The same with `"action":"goto","url":"http://["`, which `urlparse` refuses. */
  function BadUrl(): map<Text, Json> {
    PageFrame(map[T("sessionId") := Str(T("s")), T("action") := Str(T("goto")), T("url") := Str(T("http://["))])
  }

  /** `{"id":"\ud800","command":"hello"}` */
  function SurrogateId(): map<Text, Json> {
    map[T("id") := Str([0xD800]), T("command") := Str(T("hello"))]
  }

  /** A page frame raises when its parameters do. */
  lemma PageFrameRaises(params: map<Text, Json>, rules: Rules)
    requires PageRaises(params, rules) && params.Keys <= ParamsFields(T("page"))
    ensures RequestRaises(PageFrame(params), rules)
  {
    hide PageRaises, ParamsFields;
    SameText("id", "command");
    SameText("id", "params");
    SameText("command", "params");
    FrameNames();
    assert |T("r1")| == 2;
    hide T, Names;
    var fields := PageFrame(params);
    assert fields.Keys == {T("id"), T("command"), T("params")};
  }

  lemma FrameNames()
    ensures Names({"id", "command", "params"}) == {T("id"), T("command"), T("params")}
  {
    hide T;
    var names := {"id", "command", "params"};
    assert "id" in names && "command" in names && "params" in names;
  }

  lemma PageNames()
    ensures T("sessionId") in ParamsFields(T("page")) && T("action") in ParamsFields(T("page")) && T("url") in ParamsFields(T("page"))
  {
    CommandsApart();
    hide T;
    var names := {"sessionId", "action", "url", "selector", "value", "key", "script"};
    assert "sessionId" in names && "action" in names && "url" in names;
    assert T("sessionId") in Names(names) && T("action") in Names(names) && T("url") in Names(names);
  }

  lemma ListActionRaises(rules: Rules)
    ensures RequestRaises(ListAction(), rules)
  {
    var params := map[T("sessionId") := Str(T("s")), T("action") := List([])];
    SameText("sessionId", "action");
    assert |T("s")| == 1;
    PageNames();
    hide ParamsFields, T;
    PageFrameRaises(params, rules);
  }

  lemma BadUrlRaises(rules: Rules)
    requires rules.urlKind(T("http://[")).UnparsableUrl?
    ensures RequestRaises(BadUrl(), rules)
  {
    var params := map[T("sessionId") := Str(T("s")), T("action") := Str(T("goto")), T("url") := Str(T("http://["))];
    BadUrlInputs(params);
    assert |T("s")| == 1;
    PageNames();
    hide ParamsFields, T, InputsBounded;
    PageFrameRaises(params, rules);
  }

  lemma BadUrlInputs(params: map<Text, Json>)
    requires params == map[T("sessionId") := Str(T("s")), T("action") := Str(T("goto")), T("url") := Str(T("http://["))]
    ensures InputsBounded(params) && Field(params, "sessionId") == Str(T("s"))
    ensures Field(params, "action") == Str(T("goto")) && Field(params, "url") == Str(T("http://["))
  {
    SameText("sessionId", "action");
    SameText("sessionId", "url");
    SameText("action", "url");
    assert |T("http://[")| == 8;
    OtherField(params, "selector");
    OtherField(params, "value");
    OtherField(params, "key");
    OtherField(params, "script");
    hide T;
  }

  lemma OtherField(params: map<Text, Json>, name: string)
    requires params.Keys == {T("sessionId"), T("action"), T("url")}
    requires name !in {"sessionId", "action", "url"}
    ensures Field(params, name) == Null
  {
    SameText("sessionId", name);
    SameText("action", name);
    SameText("url", name);
    hide T;
  }

  /** Three frames that get no answer, whatever the state of the Host. */
  lemma UnansweredFrames(n: nat, raw: Bytes, decode: Decoder, rules: Rules, work: Work)
    requires PrintsOneLine(work)
    ensures Decodes(decode, raw, ListAction()) ==> Unanswered(n, raw, decode, rules, work)
    ensures Decodes(decode, raw, BadUrl()) && rules.urlKind(T("http://[")).UnparsableUrl? ==>
              Unanswered(n, raw, decode, rules, work)
    ensures Decodes(decode, raw, SurrogateId()) ==> Unanswered(n, raw, decode, rules, work)
  {
    hide RequestRaises, ListAction, BadUrl, SurrogateId, HandleFrame, Frame, Encodable, PrintsOneLine, TrustedId, Field, IsId, Clean;
    ListActionRaises(rules);
    if rules.urlKind(T("http://[")).UnparsableUrl? { BadUrlRaises(rules); }
    SurrogateIdIsTrusted();
    hide T;
    AnsweredIfEncodable(n, raw, decode, rules, work);
  }

  lemma SurrogateIdIsTrusted()
    ensures TrustedId(Value(Object(SurrogateId()))) == Some([0xD800])
    ensures !Clean([0xD800])
  {
    SameText("id", "command");
    assert 0xD800 in [0xD800];
  }

  function Payload(r: Response): Bytes {
    match Frame(r)
    case None => []
    case Some(frame) => if frame == [] then [] else frame[..|frame| - 1]
  }

  function Payloads(sent: seq<Response>): (payloads: seq<Bytes>)
    ensures |payloads| == |sent| && forall i | 0 <= i < |sent| :: payloads[i] == Payload(sent[i])
  {
    seq(|sent|, i requires 0 <= i < |sent| => Payload(sent[i]))
  }

  /** Why the loop ended: the stream did, a shutdown was answered, or an exception left it. */
  datatype End = StreamEnded | ShutDown | Crashed

  /** The responses sent are the answers to the first items dequeued, one each and in order, and only the last of
      them may stop the loop. */
  ghost predicate InOrder(queue: seq<Item>, sent: seq<Response>, stopped: bool, decode: Decoder, rules: Rules, work: Work) {
    && |sent| <= |queue|
    && (forall i | 0 <= i < |sent| ::
          && !queue[i].Eof? && Frame(sent[i]).Some?
          && Handle(i, queue[i], decode, rules, work) == Answer(sent[i], stopped && i == |sent| - 1))
    && (stopped ==> sent != [])
  }

  lemma InOrderNext(queue: seq<Item>, sent: seq<Response>, next: Handled, decode: Decoder, rules: Rules, work: Work)
    requires InOrder(queue, sent, false, decode, rules, work) && |sent| < |queue| && !queue[|sent|].Eof?
    requires next == Handle(|sent|, queue[|sent|], decode, rules, work) && next.Answer? && Frame(next.response).Some?
    ensures InOrder(queue, sent + [next.response], next.stop, decode, rules, work)
    ensures Payloads(sent + [next.response]) == Payloads(sent) + [Payload(next.response)]
  {
    hide Handle, Frame, Payload;
  }

  /** What went out is one line per response, so a reader like the Host's own takes every response back whole. */
  ghost predicate Written(before: Bytes, after: Bytes, sent: seq<Response>) {
    && after == before + Joined(Payloads(sent)) && Splits(Joined(Payloads(sent)), Payloads(sent), [])
    && forall r | r in sent :: OneLine(r)
  }

  predicate OneLine(r: Response) {
    Frame(r) == Some(Payload(r) + [LF]) && Mark(Payload(r)) == Line(Payload(r)) && LF !in Payload(r)
  }

  lemma EncodableIsOneLine(r: Response)
    requires Printable(r) && Frame(r).Some?
    ensures OneLine(r)
  {
    hide Frame, Printable, Encodable;
    FrameShape(r);
    var frame := Frame(r).value;
    assert frame == frame[..|frame| - 1] + [LF];
  }

  lemma WrittenNext(before: Bytes, after: Bytes, sent: seq<Response>, r: Response)
    requires Written(before, after, sent) && Printable(r) && Frame(r).Some?
    ensures Written(before, after + Frame(r).value, sent + [r])
  {
    hide Frame, Printable, Splits, OneLine, Payload, Joined;
    EncodableIsOneLine(r);
    var line := Payload(r);
    OneLineCarries(r);
    assert Payloads(sent + [r]) == Payloads(sent) + [line];
    SplitsNext(Payloads(sent), line);
    assert before + Joined(Payloads(sent)) + (line + [LF]) == before + (Joined(Payloads(sent)) + (line + [LF]));
  }

  lemma OneLineCarries(r: Response)
    requires OneLine(r)
    ensures Frame(r) == Some(Payload(r) + [LF]) && LF !in Payload(r)
  {
    hide Frame, Payload, Mark;
  }

  lemma SplitsNext(lines: seq<Bytes>, line: Bytes)
    requires Splits(Joined(lines), lines, []) && LF !in line
    ensures Joined(lines + [line]) == Joined(lines) + (line + [LF])
    ensures Splits(Joined(lines + [line]), lines + [line], [])
  {
    assert (lines + [line])[..|lines|] == lines;
  }

  /** An item whose answer can go out. */
  predicate Answerable(n: nat, item: Item, decode: Decoder, rules: Rules, work: Work)
    requires !item.Eof?
  {
    var handled := Handle(n, item, decode, rules, work);
    handled.Answer? && Frame(handled.response).Some?
  }

  /** The loop of `run_host` over what the reader queued. It ends early only after a shutdown, at an item that cannot be
      answered, or because a write took nothing. */
  method Serve(queue: seq<Item>, decode: Decoder, rules: Rules, work: Work, pipe: Pipe)
    returns (ghost sent: seq<Response>, end: End)
    requires queue != [] && queue[|queue| - 1] == Eof && (forall i | 0 <= i < |queue| - 1 :: !queue[i].Eof?)
    requires PrintsOneLine(work)
    modifies pipe
    ensures InOrder(queue, sent, end.ShutDown?, decode, rules, work)
    ensures end.StreamEnded? ==> |sent| == |queue| - 1
    ensures !end.Crashed? ==> Written(old(pipe.out), pipe.out, sent)
    ensures end.Crashed? ==>
              && |sent| < |queue| - 1
              && exists whole :: Written(old(pipe.out), whole, sent) && CutOff(|sent|, queue[|sent|], whole, pipe.out, decode, rules, work)
    ensures old(pipe.calls) <= pipe.calls
    ensures end.Crashed? <==>
              |sent| < |queue| - 1
              && (!Answerable(|sent|, queue[|sent|], decode, rules, work) || !pipe.Progressed(old(pipe.calls), pipe.calls))
              && !end.ShutDown?
  {
    hide Handle, Frame, Printable, PrintsOneLine, InOrder, Written;
    sent := [];
    assert InOrder(queue, sent, false, decode, rules, work) by { hide Handle; StartsEmpty(queue, decode, rules, work, pipe.out); }
    assert Written(pipe.out, pipe.out, sent) by { StartsEmpty(queue, decode, rules, work, pipe.out); }
    var n := 0;
    while true
      invariant |sent| == n < |queue|
      invariant InOrder(queue, sent, false, decode, rules, work) && Written(old(pipe.out), pipe.out, sent)
      invariant old(pipe.calls) <= pipe.calls && pipe.Progressed(old(pipe.calls), pipe.calls)
      decreases |queue| - n
    {
      if queue[n].Eof? { return sent, StreamEnded; }
      var handled := Handle(n, queue[n], decode, rules, work);
      AnswersArePrintable(n, queue[n], decode, rules, work);
      if handled.Escapes? { return sent, Crashed; }
      ghost var whole := pipe.out;
      var ok := pipe.Send(handled.response);
      if !ok { return sent, Crashed; }
      InOrderNext(queue, sent, handled, decode, rules, work);
      WrittenNext(old(pipe.out), whole, sent, handled.response);
      sent := sent + [handled.response];
      if handled.stop { return sent, ShutDown; }
      n := n + 1;
    }
  }

  /** The exception that left the loop at this item: nothing, or a proper prefix of its response, got out. */
  ghost predicate CutOff(n: nat, item: Item, before: Bytes, after: Bytes, decode: Decoder, rules: Rules, work: Work)
    requires !item.Eof?
  {
    match Handle(n, item, decode, rules, work)
    case Escapes => after == before
    case Answer(response, _) =>
      match Frame(response)
      case None => after == before
      case Some(frame) => before <= after < before + frame
  }

  lemma StartsEmpty(queue: seq<Item>, decode: Decoder, rules: Rules, work: Work, out: Bytes)
    ensures InOrder(queue, [], false, decode, rules, work) && Written(out, out, [])
  {
  }

  /** What the condition of `AnsweredIff` asks of an item; a line that is too long always gets its answer. */
  ghost predicate MustAnswer(n: nat, item: Item, decode: Decoder, rules: Rules, work: Work) {
    item.Line? ==>
      var parsed := ParseFrame(item.raw, decode);
      && !parsed.Raised? && !(parsed.Value? && RequestRaises(parsed.json.fields, rules))
      && RepeatsClean(n, parsed, rules, work)
  }

  lemma MustAnswerIff(n: nat, item: Item, decode: Decoder, rules: Rules, work: Work)
    requires !item.Eof? && PrintsOneLine(work) && JoinsNames(rules)
    ensures Answerable(n, item, decode, rules, work) <==> MustAnswer(n, item, decode, rules, work)
  {
    hide Frame, RequestRaises, RepeatsClean, ParseFrame, HandleFrame;
    if item.Line? {
      AnsweredIff(n, item.raw, decode, rules, work);
    } else {
      TooLargeIsAnswered();
    }
  }

  lemma TooLargeIsAnswered()
    ensures Frame(Failure(None, T("frame_too_large"), T("frame exceeds 32768 bytes"))).Some?
  {
    var r := Failure(None, T("frame_too_large"), T("frame exceeds 32768 bytes"));
    OwnTextIsClean();
    hide Frame, T, Clean;
    EncodableParts(r);
    FrameShape(r);
  }

  /** The Host from its first byte to its last: whichever way the input is cut into reads, its lines are answered
      one each and in order, all of them if neither a shutdown nor an exception ends the run first. */
  method Host(chunks: seq<Bytes>, decode: Decoder, rules: Rules, work: Work, pipe: Pipe)
    returns (ghost sent: seq<Response>, end: End)
    requires PrintsOneLine(work)
    modifies pipe
    ensures forall lines, tail | Splits(Stream(chunks), lines, tail) ::
              && InOrder(Marks(lines) + [Eof], sent, end.ShutDown?, decode, rules, work)
              && (end.StreamEnded? ==> |sent| == |lines|)
    ensures !end.Crashed? ==> Written(old(pipe.out), pipe.out, sent)
    ensures JoinsNames(rules) ==> forall lines, tail | Splits(Stream(chunks), lines, tail) ::
              && (end.Crashed? ==>
                    && |sent| < |lines|
                    && (!MustAnswer(|sent|, Marks(lines)[|sent|], decode, rules, work)
                        || !pipe.Progressed(old(pipe.calls), pipe.calls)))
              && (AllMustAnswer(lines, decode, rules, work) && pipe.Willing() ==> !end.Crashed?)
  {
    hide Written, InOrder, Splits, Stream, PrintsOneLine, MustAnswer, Answerable, JoinsNames;
    var reader := new Reader();
    reader.Run(chunks);
    sent, end := Serve(reader.queue, decode, rules, work, pipe);
    if end.Crashed? && JoinsNames(rules) {
      MustAnswerIff(|sent|, reader.queue[|sent|], decode, rules, work);
    }
  }

  /** Every line of the stream is one that gets an answer. */
  ghost predicate AllMustAnswer(lines: seq<Bytes>, decode: Decoder, rules: Rules, work: Work) {
    forall i | 0 <= i < |lines| :: MustAnswer(i, Mark(lines[i]), decode, rules, work)
  }
}
