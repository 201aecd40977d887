/** The decoder for chunked transfer coding (section 7.1 of RFC 9112) in front of
    the attestation socket. Bodies are byte strings, one char per byte. Decoding
    UTF-8 and the set of white-space characters are parameters. */
module ChunkedBody {
  import opened Prelude
  import opened Text

  type Bytes = string

  /** decode is std::str::from_utf8; ws is char::is_whitespace. */
  datatype Utf8 = Utf8(decode: Bytes -> Option<string>, ws: char -> bool)

  const CRLF: Bytes := "\r\n"
  const USIZE_MAX: nat := 0xFFFF_FFFF_FFFF_FFFF

  // -------------------------------------------------------------- size lines

  predicate CrlfAt(b: Bytes, i: nat) {
    i + 2 <= |b| && b[i] == '\r' && b[i + 1] == '\n'
  }

  predicate NoCrlf(b: Bytes) {
    forall i: nat | i < |b| :: !CrlfAt(b, i)
  }

  /** windows(2).position: the first CRLF at or after i. */
  function FirstCrlf(b: Bytes, i: nat): (r: Option<nat>)
    ensures r.Some? ==> i <= r.value && CrlfAt(b, r.value) && forall k: nat | i <= k < r.value :: !CrlfAt(b, k)
    ensures r.None? ==> forall k: nat | i <= k :: !CrlfAt(b, k)
    decreases |b| - i
  {
    if i + 2 > |b| then None else if CrlfAt(b, i) then Some(i) else FirstCrlf(b, i + 1)
  }

  /** The part before the first ';', which starts the extensions. */
  function BeforeExtensions(t: string): string {
    if t == "" || t[0] == ';' then "" else [t[0]] + BeforeExtensions(t[1..])
  }

  function HexValue(c: char): Option<nat> {
    if '0' <= c <= '9' then Some(c as int - '0' as int)
    else if 'a' <= c <= 'f' then Some(c as int - 'a' as int + 10)
    else if 'A' <= c <= 'F' then Some(c as int - 'A' as int + 10)
    else None
  }

  function HexDigits(t: string): Option<nat> {
    if t == "" then Some(0)
    else
      var high, low := HexDigits(t[..|t| - 1]), HexValue(t[|t| - 1]);
      if high.None? || low.None? then None else Some(high.value * 16 + low.value)
  }

  /** usize::from_str_radix(_, 16): digits after an optional '+', within range. */
  function ParseSize(t: string): Option<nat> {
    var digits := if t != "" && t[0] == '+' then t[1..] else t;
    if digits == "" then None
    else
      var n := HexDigits(digits);
      if n.Some? && n.value <= USIZE_MAX then n else None
  }

  function SizeOf(u: Utf8, line: Bytes): Option<nat> {
    var text := u.decode(line);
    if text.None? then None else ParseSize(BeforeExtensions(Trim(text.value, u.ws)))
  }

  // ----------------------------------------------------------------- decoder

  /** How a size line is read; the code's way is ReadSizes below. */
  type SizeReader = Bytes -> Option<nat>

  /** What stands at an offset: nothing sound, the final size line, or a chunk. */
  datatype Part = Malformed | Final | Piece(data: Bytes, next: nat)

  function PartAt(size: SizeReader, b: Bytes, offset: nat): (p: Part)
    requires offset <= |b|
    ensures p.Piece? ==> offset < p.next <= |b|
  {
    var end := FirstCrlf(b, offset);
    if end.None? then Malformed
    else
      var n := size(b[offset..end.value]);
      if n.None? then Malformed
      else if n.value == 0 then Final
      else
        var data := end.value + 2;
        if data + n.value + 2 > |b| || !CrlfAt(b, data + n.value) then Malformed
        else Piece(b[data..data + n.value], data + n.value + 2)
  }

  /** The payload bytes of the chunks from an offset on, before they are read as text. */
  function Payload(size: SizeReader, b: Bytes, offset: nat): Option<Bytes>
    requires offset <= |b|
    decreases |b| - offset
  {
    match PartAt(size, b, offset)
    case Malformed => None
    case Final => Some("")
    case Piece(data, next) => After(data, Payload(size, b, next))
  }

  function After(prefix: Bytes, payload: Option<Bytes>): Option<Bytes> {
    if payload.None? then None else Some(prefix + payload.value)
  }

  lemma AfterNothing(payload: Option<Bytes>)
    ensures After("", payload) == payload
  {
    if payload.Some? {
      assert "" + payload.value == payload.value;
    }
  }

  lemma AfterAfter(a: Bytes, b: Bytes, payload: Option<Bytes>)
    ensures After(a, After(b, payload)) == After(a + b, payload)
  {
    if payload.Some? {
      assert a + (b + payload.value) == a + b + payload.value;
    }
  }

  function Read(decode: Bytes -> Option<string>, payload: Option<Bytes>): Result<string> {
    if payload.None? then Err("malformed chunked body")
    else
      var text := decode(payload.value);
      if text.None? then Err("chunked body is not UTF-8") else Ok(text.value)
  }

  /** What reading one part does to what is gathered so far. */
  lemma Gather(size: SizeReader, b: Bytes, offset: nat, out: Bytes)
    requires offset <= |b|
    ensures
      var whole := After(out, Payload(size, b, offset));
      match PartAt(size, b, offset)
      case Malformed => whole == None
      case Final => whole == Some(out)
      case Piece(data, next) => whole == After(out + data, Payload(size, b, next))
  {
    match PartAt(size, b, offset)
    case Malformed =>
    case Final => assert out + "" == out;
    case Piece(data, next) => AfterAfter(out, data, Payload(size, b, next));
  }

  /** One round of the loop up to the copy: the part at the offset, every index in range. */
  method ReadPart(size: SizeReader, body: Bytes, offset: nat) returns (part: Part, error: string)
    requires offset <= |body| <= USIZE_MAX
    ensures part == PartAt(size, body, offset)
  {
    var lineEnd := FirstCrlf(body, offset);
    if lineEnd.None? {
      return Malformed, "chunk size line is truncated";
    }
    var n := size(body[offset..lineEnd.value]);
    if n.None? {
      return Malformed, "bad chunk size";
    }
    if n.value == 0 {
      return Final, "";
    }
    var data := lineEnd.value + 2;
    var dataEnd := data + n.value;
    var trailerEnd := dataEnd + 2;
    if trailerEnd > USIZE_MAX {
      return Malformed, "chunk size overflow";
    }
    if trailerEnd > |body| || !CrlfAt(body, dataEnd) {
      return Malformed, "chunked body truncated";
    }
    return Piece(body[data..dataEnd], trailerEnd), "";
  }

  /** dechunk_http_body on any body a slice can hold. Every index it takes is in range,
      it always ends, and it succeeds with the payload read as text. */
  method Dechunk(size: SizeReader, decode: Bytes -> Option<string>, body: Bytes) returns (result: Result<string>)
    requires |body| <= USIZE_MAX
    ensures result.Ok? <==> Read(decode, Payload(size, body, 0)).Ok?
    ensures result.Ok? ==> result == Read(decode, Payload(size, body, 0))
  {
    var out: Bytes := "";
    var offset := 0;
    ghost var whole := Payload(size, body, 0);
    AfterNothing(whole);
    while true
      invariant offset <= |body| && whole == After(out, Payload(size, body, offset))
      decreases |body| - offset
    {
      Gather(size, body, offset, out);
      var part, error := ReadPart(size, body, offset);
      match part {
        case Malformed =>
          return Err(error);
        case Final =>
          var text := decode(out);
          return if text.None? then Err("chunked body is not UTF-8") else Ok(text.value);
        case Piece(data, next) =>
          out := out + data;
          offset := next;
      }
    }
  }

  // ---------------------------------------------------------------- encoding

  /** A chunk on the wire: its size line, extensions included, and its data. */
  datatype Chunk = Chunk(line: Bytes, data: Bytes)

  ghost predicate WellFormed(size: SizeReader, c: Chunk) {
    NoCrlf(c.line) && |c.data| > 0 && size(c.line) == Some(|c.data|)
  }

  ghost predicate WellFormedEnd(size: SizeReader, line: Bytes) {
    NoCrlf(line) && size(line) == Some(0)
  }

  /** A chunk on the wire with what follows it. */
  function Wire(c: Chunk, more: Bytes): Bytes {
    c.line + CRLF + c.data + CRLF + more
  }

  function Encode(chunks: seq<Chunk>, last: Bytes): Bytes {
    if chunks == [] then last + CRLF else Wire(chunks[0], Encode(chunks[1..], last))
  }

  function Data(chunks: seq<Chunk>): Bytes {
    if chunks == [] then "" else chunks[0].data + Data(chunks[1..])
  }

  // ------------------------------------------------------- chunks by position

  ghost predicate LineAt(b: Bytes, offset: nat, line: Bytes) {
    CrlfAt(b, offset + |line|) && b[offset..offset + |line|] == line
  }

  function NextOffset(offset: nat, c: Chunk): nat {
    offset + |c.line| + 2 + |c.data| + 2
  }

  ghost predicate ChunkAt(b: Bytes, offset: nat, c: Chunk) {
    LineAt(b, offset, c.line) && LineAt(b, offset + |c.line| + 2, c.data)
  }

  lemma LineOnWire(b: Bytes, offset: nat, line: Bytes, more: Bytes)
    requires offset <= |b|
    ensures line + CRLF + more <= b[offset..] <==> LineAt(b, offset, line) && more <= b[offset + |line| + 2..]
  {
    var view, wire, next := b[offset..], line + CRLF + more, offset + |line| + 2;
    if wire <= view {
      assert forall i | 0 <= i < |wire| :: b[offset + i] == wire[i];
      assert b[offset..offset + |line|] == line;
      assert wire[|line|] == '\r' && wire[|line| + 1] == '\n' && CrlfAt(b, offset + |line|);
      assert more == wire[|line| + 2..] && b[next..] == view[|line| + 2..];
    }
    if LineAt(b, offset, line) && more <= b[next..] {
      assert view == line + CRLF + b[next..];
      assert b[next..] == more + b[next..][|more|..];
      assert view == wire + b[next..][|more|..];
    }
  }

  lemma ChunkOnWire(b: Bytes, offset: nat, c: Chunk, more: Bytes)
    requires offset <= |b|
    ensures Wire(c, more) <= b[offset..] <==> ChunkAt(b, offset, c) && more <= b[NextOffset(offset, c)..]
  {
    var rest := c.data + CRLF + more;
    assert Wire(c, more) == c.line + CRLF + rest;
    LineOnWire(b, offset, c.line, rest);
    if LineAt(b, offset, c.line) {
      LineOnWire(b, offset + |c.line| + 2, c.data, more);
    }
  }

  lemma EndOnWire(b: Bytes, offset: nat, line: Bytes)
    requires offset <= |b|
    ensures line + CRLF <= b[offset..] <==> LineAt(b, offset, line)
  {
    assert line + CRLF == line + CRLF + [];
    LineOnWire(b, offset, line, []);
  }

  lemma LineEndsFirst(b: Bytes, offset: nat, line: Bytes)
    requires offset <= |b| && LineAt(b, offset, line) && NoCrlf(line)
    ensures FirstCrlf(b, offset) == Some(offset + |line|)
  {
    forall k: nat | offset <= k < offset + |line| ensures !CrlfAt(b, k) {
      assert !CrlfAt(line, k - offset);
      assert b[k] == line[k - offset];
    }
  }

  lemma FirstLine(b: Bytes, offset: nat, end: nat)
    requires offset <= |b| && FirstCrlf(b, offset) == Some(end)
    ensures NoCrlf(b[offset..end]) && LineAt(b, offset, b[offset..end])
  {
    var line := b[offset..end];
    forall k: nat | k < |line| ensures !CrlfAt(line, k) {
      assert !CrlfAt(b, offset + k);
    }
  }

  lemma PartIsChunk(size: SizeReader, b: Bytes, offset: nat, c: Chunk)
    requires offset <= |b| && WellFormed(size, c) && ChunkAt(b, offset, c)
    ensures PartAt(size, b, offset) == Piece(c.data, NextOffset(offset, c))
  {
    LineEndsFirst(b, offset, c.line);
    var end := offset + |c.line|;
    assert b[offset..end] == c.line && b[end + 2..end + 2 + |c.data|] == c.data;
  }

  /** Whatever follows the final size line is ignored, so trailers are skipped unread. */
  lemma {:induction false} PayloadOfEncoding(size: SizeReader, b: Bytes, offset: nat, chunks: seq<Chunk>, last: Bytes)
    requires offset <= |b| && Encode(chunks, last) <= b[offset..]
    requires WellFormedEnd(size, last) && forall c | c in chunks :: WellFormed(size, c)
    ensures Payload(size, b, offset) == Some(Data(chunks))
    decreases |chunks|
  {
    if chunks == [] {
      EndOnWire(b, offset, last);
      LineEndsFirst(b, offset, last);
    } else {
      ChunkOnWire(b, offset, chunks[0], Encode(chunks[1..], last));
      PartIsChunk(size, b, offset, chunks[0]);
      PayloadOfEncoding(size, b, NextOffset(offset, chunks[0]), chunks[1..], last);
    }
  }

  lemma ChunkOfPart(size: SizeReader, b: Bytes, offset: nat) returns (c: Chunk)
    requires offset <= |b| && PartAt(size, b, offset).Piece?
    ensures WellFormed(size, c) && ChunkAt(b, offset, c)
    ensures PartAt(size, b, offset) == Piece(c.data, NextOffset(offset, c))
  {
    var end := FirstCrlf(b, offset).value;
    FirstLine(b, offset, end);
    c := Chunk(b[offset..end], PartAt(size, b, offset).data);
  }

  lemma EndOfPart(size: SizeReader, b: Bytes, offset: nat) returns (last: Bytes)
    requires offset <= |b| && PartAt(size, b, offset).Final?
    ensures WellFormedEnd(size, last) && last + CRLF <= b[offset..]
  {
    var end := FirstCrlf(b, offset).value;
    FirstLine(b, offset, end);
    last := b[offset..end];
    EndOnWire(b, offset, last);
  }

  lemma Prepend(b: Bytes, offset: nat, c: Chunk, more: seq<Chunk>, last: Bytes)
    requires offset <= |b| && ChunkAt(b, offset, c) && Encode(more, last) <= b[NextOffset(offset, c)..]
    ensures Encode([c] + more, last) <= b[offset..] && Data([c] + more) == c.data + Data(more)
  {
    assert ([c] + more)[1..] == more;
    ChunkOnWire(b, offset, c, Encode(more, last));
  }

  lemma {:induction false} EncodingOfPayload(size: SizeReader, b: Bytes, offset: nat)
      returns (chunks: seq<Chunk>, last: Bytes)
    requires offset <= |b| && Payload(size, b, offset).Some?
    ensures WellFormedEnd(size, last) && forall c | c in chunks :: WellFormed(size, c)
    ensures Encode(chunks, last) <= b[offset..] && Payload(size, b, offset).value == Data(chunks)
    decreases |b| - offset
  {
    if PartAt(size, b, offset).Final? {
      chunks := [];
      last := EndOfPart(size, b, offset);
    } else {
      var c := ChunkOfPart(size, b, offset);
      var more;
      more, last := EncodingOfPayload(size, b, NextOffset(offset, c));
      chunks := [c] + more;
      Prepend(b, offset, c, more, last);
    }
  }

  /** A body that begins with a well-formed encoding of this text. */
  ghost predicate BeginsWithEncoding(size: SizeReader, decode: Bytes -> Option<string>, body: Bytes, text: string) {
    exists chunks, last ::
      && WellFormedEnd(size, last) && (forall c | c in chunks :: WellFormed(size, c))
      && Encode(chunks, last) <= body && decode(Data(chunks)) == Some(text)
  }

  /** The decoder succeeds exactly on bodies that begin with a well-formed encoding
      whose data is text, and returns exactly that data: every encoding decodes to the
      concatenation of its chunks, and every success comes from one. */
  lemma DechunkExact(size: SizeReader, decode: Bytes -> Option<string>, body: Bytes, text: string)
    ensures Read(decode, Payload(size, body, 0)) == Ok(text) <==> BeginsWithEncoding(size, decode, body, text)
  {
    assert body[0..] == body;
    if Read(decode, Payload(size, body, 0)) == Ok(text) {
      var chunks, last := EncodingOfPayload(size, body, 0);
      assert Encode(chunks, last) <= body;
    }
    if BeginsWithEncoding(size, decode, body, text) {
      var chunks, last :|
        && WellFormedEnd(size, last) && (forall c | c in chunks :: WellFormed(size, c))
        && Encode(chunks, last) <= body && decode(Data(chunks)) == Some(text);
      PayloadOfEncoding(size, body, 0, chunks, last);
    }
  }

  // ------------------------------------------------------- sizes as written

  function ReadSizes(u: Utf8): SizeReader {
    line => SizeOf(u, line)
  }

  /** The decoder with the size lines and the text layer of the code. */
  method DechunkHttpBody(u: Utf8, body: Bytes) returns (result: Result<string>)
    requires |body| <= USIZE_MAX
    ensures forall text :: result == Ok(text) <==> BeginsWithEncoding(ReadSizes(u), u.decode, body, text)
  {
    var size := ReadSizes(u);
    result := Dechunk(size, u.decode, body);
    forall text
      ensures result == Ok(text) <==> BeginsWithEncoding(size, u.decode, body, text)
    {
      DechunkExact(size, u.decode, body, text);
    }
  }

  lemma {:induction false} CutAtExtensions(t: string, ext: string)
    requires ';' !in t && (ext == "" || ext[0] == ';')
    ensures BeforeExtensions(t + ext) == t
  {
    if t == "" {
      assert t + ext == ext;
    } else {
      CutAtExtensions(t[1..], ext);
      assert (t + ext)[1..] == t[1..] + ext;
    }
  }

  lemma {:induction false} ExtensionsStartLate(t: string)
    ensures
      var before := BeforeExtensions(t);
      before <= t && ';' !in before && (before == t || t[|before|] == ';')
  {
    if t != "" && t[0] != ';' {
      ExtensionsStartLate(t[1..]);
    }
  }

  /** A digit of either case, by its place in the row of digits. */
  lemma HexValueExact(c: char, d: nat)
    ensures HexValue(c) == Some(d) <==> d < 16 && ("0123456789abcdef"[d] == c || "0123456789ABCDEF"[d] == c)
  {
  }

  function Power(k: nat): nat {
    if k == 0 then 1 else 16 * Power(k - 1)
  }

  /** Positional notation: any split of a numeral weighs its left part by its right. */
  lemma {:induction false} HexIsPositional(a: string, b: string)
    ensures HexDigits(a + b) ==
      if HexDigits(a).None? || HexDigits(b).None? then None
      else Some(HexDigits(a).value * Power(|b|) + HexDigits(b).value)
  {
    if b == "" {
      assert a + b == a;
    } else {
      var front, last := b[..|b| - 1], b[|b| - 1];
      HexIsPositional(a, front);
      assert (a + b)[..|a + b| - 1] == a + front && (a + b)[|a + b| - 1] == last;
      if HexDigits(a).Some? && HexDigits(front).Some? {
        Weigh(HexDigits(a).value, Power(|front|), HexDigits(front).value);
      }
    }
  }

  lemma Weigh(x: nat, p: nat, y: nat)
    ensures (x * p + y) * 16 == x * (16 * p) + y * 16
  {
  }

  ghost predicate SizeText(t: string, n: nat, sign: string, digits: string, ext: string) {
    && t == sign + digits + ext && (sign == "" || sign == "+") && (ext == "" || ext[0] == ';')
    && digits != "" && HexDigits(digits) == Some(n) && n <= USIZE_MAX
  }

  lemma {:induction false} DigitsAreHex(t: string)
    ensures HexDigits(t).Some? ==> forall i | 0 <= i < |t| :: HexValue(t[i]).Some?
  {
    if t != "" {
      DigitsAreHex(t[..|t| - 1]);
    }
  }

  lemma SizeTextReads(t: string, n: nat, sign: string, digits: string, ext: string)
    requires SizeText(t, n, sign, digits, ext)
    ensures ParseSize(BeforeExtensions(t)) == Some(n)
  {
    DigitsAreHex(digits);
    CutAtExtensions(sign + digits, ext);
    assert HexValue(digits[0]).Some?;
    if sign == "" {
      assert sign + digits == digits;
    } else {
      assert (sign + digits)[1..] == digits;
    }
  }

  /** The size line, white space at its ends aside: an optional sign, hex digits of a
      number in range, and extensions from the first semicolon on. Nothing else reads. */
  lemma SizeLineExact(u: Utf8, line: Bytes, n: nat)
    ensures SizeOf(u, line) == Some(n) <==>
      && u.decode(line).Some?
      && exists sign, digits, ext :: SizeText(Trim(u.decode(line).value, u.ws), n, sign, digits, ext)
  {
    if u.decode(line).Some? {
      var t := Trim(u.decode(line).value, u.ws);
      if sign, digits, ext :| SizeText(t, n, sign, digits, ext) {
        SizeTextReads(t, n, sign, digits, ext);
      }
      if SizeOf(u, line) == Some(n) {
        ReadsSizeText(t, n);
      }
    }
  }

  lemma ReadsSizeText(t: string, n: nat)
    requires ParseSize(BeforeExtensions(t)) == Some(n)
    ensures exists sign, digits, ext :: SizeText(t, n, sign, digits, ext)
  {
    ExtensionsStartLate(t);
    var before := BeforeExtensions(t);
    var ext := t[|before|..];
    var sign := if before[0] == '+' then "+" else "";
    var digits := before[|sign|..];
    assert before == sign + digits && t == before + ext;
    assert digits == if before[0] == '+' then before[1..] else before;
    assert SizeText(t, n, sign, digits, ext);
  }

  function Hex(n: nat): string {
    (if n < 16 then "" else Hex(n / 16)) + [if n % 16 < 10 then ('0' as int + n % 16) as char
      else ('a' as int + n % 16 - 10) as char]
  }

  predicate HexText(t: string) {
    t != "" && forall i | 0 <= i < |t| :: HexValue(t[i]).Some?
  }

  lemma {:induction false} HexReads(n: nat)
    ensures HexText(Hex(n)) && HexDigits(Hex(n)) == Some(n)
  {
    var t := Hex(n);
    assert HexValue(t[|t| - 1]) == Some(n % 16);
    if n < 16 {
      assert t[..|t| - 1] == "";
    } else {
      HexReads(n / 16);
      assert t[..|t| - 1] == Hex(n / 16);
    }
  }

  predicate Ascii(b: Bytes) {
    forall i | 0 <= i < |b| :: b[i] < '\U{80}'
  }

  /** What the round trip needs of the text layer: ASCII bytes are their own text, and
      neither hex digits nor ';' are white space. */
  ghost predicate AsciiText(u: Utf8) {
    && (forall b | Ascii(b) :: u.decode(b) == Some(b))
    && (forall c | HexValue(c).Some? || c == ';' :: !u.ws(c))
  }

  lemma {:induction false} TrimEndKeeps(t: string, ext: string, ws: char -> bool)
    requires t != "" && !ws(t[|t| - 1]) && (ext == "" || (ext[0] == ';' && !ws(';')))
    ensures exists e :: TrimEnd(t + ext, ws) == t + e && (e == "" || e[0] == ';')
    decreases |ext|
  {
    var whole := t + ext;
    if ext != "" && ws(whole[|whole| - 1]) {
      var shorter := ext[..|ext| - 1];
      assert whole[..|whole| - 1] == t + shorter;
      TrimEndKeeps(t, shorter, ws);
    } else {
      assert TrimEnd(whole, ws) == t + ext;
    }
  }

  lemma TrimmedSizeLine(t: string, ext: string, ws: char -> bool) returns (e: string)
    requires HexText(t) && (ext == "" || ext[0] == ';') && forall c | HexValue(c).Some? || c == ';' :: !ws(c)
    ensures Trim(t + ext, ws) == t + e && (e == "" || e[0] == ';')
  {
    var line := t + ext;
    assert HexValue(t[0]).Some? && HexValue(t[|t| - 1]).Some?;
    assert line[0] == t[0] && TrimStart(line, ws) == line;
    TrimEndKeeps(t, ext, ws);
    e :| TrimEnd(line, ws) == t + e && (e == "" || e[0] == ';');
  }

  lemma HexTextIsAscii(t: string, ext: string)
    requires HexText(t) && Ascii(ext)
    ensures Ascii(t + ext)
  {
    forall i | 0 <= i < |t + ext| ensures (t + ext)[i] < '\U{80}' {
      if i < |t| {
        assert HexValue(t[i]).Some?;
      }
    }
  }

  /** A size written in hex, of either case, alone or followed by extensions. */
  lemma HexLineReads(u: Utf8, t: string, n: nat, ext: Bytes)
    requires AsciiText(u) && HexText(t) && HexDigits(t) == Some(n) && n <= USIZE_MAX
    requires Ascii(ext) && (ext == "" || ext[0] == ';')
    ensures SizeOf(u, t + ext) == Some(n)
  {
    HexTextIsAscii(t, ext);
    var e := TrimmedSizeLine(t, ext, u.ws);
    assert "" + t + e == t + e;
    SizeTextReads(t + e, n, "", t, e);
  }

  /** A size as it is usually written reads back as itself. */
  lemma SizeLineReads(u: Utf8, n: nat, ext: Bytes)
    requires AsciiText(u) && n <= USIZE_MAX && Ascii(ext) && (ext == "" || ext[0] == ';')
    ensures SizeOf(u, Hex(n) + ext) == Some(n)
  {
    HexReads(n);
    HexLineReads(u, Hex(n), n, ext);
  }

  /** Chunks written the usual way: hex size, optional extensions. */
  function Standard(data: seq<Bytes>, exts: seq<Bytes>): seq<Chunk>
    requires |data| == |exts|
  {
    if data == [] then [] else [Chunk(Hex(|data[0]|) + exts[0], data[0])] + Standard(data[1..], exts[1..])
  }

  function Flatten(data: seq<Bytes>): Bytes {
    if data == [] then "" else data[0] + Flatten(data[1..])
  }

  ghost predicate PlainExtension(ext: Bytes) {
    Ascii(ext) && NoCrlf(ext) && (ext == "" || ext[0] == ';')
  }

  lemma HexLineHasNoCrlf(t: string, ext: Bytes)
    requires HexText(t) && PlainExtension(ext)
    ensures NoCrlf(t + ext)
  {
    forall k: nat | k < |t + ext| ensures !CrlfAt(t + ext, k) {
      if k < |t| {
        assert HexValue(t[k]).Some?;
      } else {
        assert !CrlfAt(ext, k - |t|);
      }
    }
  }

  lemma {:induction false} StandardIsWellFormed(u: Utf8, data: seq<Bytes>, exts: seq<Bytes>)
    requires AsciiText(u) && |data| == |exts|
    requires forall i | 0 <= i < |data| :: 0 < |data[i]| <= USIZE_MAX && PlainExtension(exts[i])
    ensures forall c | c in Standard(data, exts) :: WellFormed(ReadSizes(u), c)
    ensures Data(Standard(data, exts)) == Flatten(data)
  {
    if data != [] {
      StandardIsWellFormed(u, data[1..], exts[1..]);
      SizeLineReads(u, |data[0]|, exts[0]);
      HexReads(|data[0]|);
      HexLineHasNoCrlf(Hex(|data[0]|), exts[0]);
      assert Standard(data, exts)[1..] == Standard(data[1..], exts[1..]);
    }
  }

  /** Round trip: any list of non-empty chunks, with or without extensions, comes back
      as their concatenation. */
  lemma StandardRoundTrip(u: Utf8, data: seq<Bytes>, exts: seq<Bytes>, tail: Bytes)
    requires AsciiText(u) && |data| == |exts|
    requires forall i | 0 <= i < |data| :: 0 < |data[i]| <= USIZE_MAX && PlainExtension(exts[i])
    ensures Payload(ReadSizes(u), Encode(Standard(data, exts), "0") + tail, 0) == Some(Flatten(data))
  {
    StandardIsWellFormed(u, data, exts);
    SizeLineReads(u, 0, "");
    assert Hex(0) + "" == "0";
    var b := Encode(Standard(data, exts), "0") + tail;
    assert b[0..] == b;
    PayloadOfEncoding(ReadSizes(u), b, 0, Standard(data, exts), "0");
  }
}
