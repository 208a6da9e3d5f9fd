/**
 The boundary-based multipart parser of the QR upload, and the form-data printer it should
 invert (section 5.1.1 of RFC 2046, section 4 of RFC 7578).
 */
module Multipart {
  import opened Basics

  newtype byte = b: int | 0 <= b < 256
  type Bytes = seq<byte>

  const CR: byte := 13
  const LF: byte := 10
  const DASH: byte := 45
  const CRLF: Bytes := [CR, LF]
  const BLANK: Bytes := [CR, LF, CR, LF]
  const BARE_BLANK: Bytes := [LF, LF]
  const DASHES: Bytes := [DASH, DASH]

  // ----- searching and splitting -----------------------------------------

  lemma IndexFits(s: Bytes, m: Bytes)
    requires m != []
    ensures FirstIndex(s, m) >= 0 ==> FirstIndex(s, m) + |m| <= |s|
  {
    FirstIndexMeaning(s, m);
  }

  lemma FirstIndexIs(s: Bytes, m: Bytes, i: nat)
    requires m != [] && At(s, m, i) && forall k :: k < i ==> !At(s, m, k)
    ensures FirstIndex(s, m) == i
  {
    FirstIndexMeaning(s, m);
  }

  lemma FirstIndexNone(s: Bytes, m: Bytes)
    requires m != [] && forall k :: !At(s, m, k)
    ensures FirstIndex(s, m) < 0
  {
    FirstIndexMeaning(s, m);
  }

  /** `bytes.split`: leftmost, non-overlapping. */
  function Split(s: Bytes, m: Bytes): seq<Bytes>
    requires m != []
    decreases |s|
  {
    var i := FirstIndex(s, m);
    IndexFits(s, m);
    if i < 0 then [s] else [s[..i]] + Split(s[i + |m|..], m)
  }

  /** The text ends in a byte the marker does not have, so no occurrence reaches past it. */
  predicate Guarded(x: Bytes, m: Bytes) {
    x == [] || x[|x| - 1] !in m
  }

  lemma AtElement(s: Bytes, m: Bytes, k: nat, j: nat)
    requires j < |m| && k + j < |s|
    ensures At(s, m, k) ==> s[k + j] == m[j]
  {
    if At(s, m, k) {
      assert s[k..k + |m|][j] == s[k + j];
    }
  }

  lemma OccursWithin(x: Bytes, m: Bytes, y: Bytes, k: int)
    requires m != [] && Guarded(x, m) && k < |x|
    ensures At(x + m + y, m, k) <==> At(x, m, k)
  {
    var s := x + m + y;
    if 0 <= k && k + |m| <= |x| {
      assert s[k..k + |m|] == x[k..k + |m|];
    } else if 0 <= k {
      AtElement(s, m, k, |x| - 1 - k);
    }
  }

  lemma FirstIndexAcross(x: Bytes, m: Bytes, y: Bytes)
    requires m != [] && Guarded(x, m)
    ensures FirstIndex(x + m + y, m) == if Contains(x, m) then FirstIndex(x, m) else |x|
  {
    var s := x + m + y;
    FirstIndexMeaning(x, m);
    hide FirstIndex;
    forall k | k < |x| ensures At(s, m, k) <==> At(x, m, k) {
      OccursWithin(x, m, y, k);
    }
    assert s[|x|..|x| + |m|] == m;
    FirstIndexIs(s, m, if Contains(x, m) then FirstIndex(x, m) else |x|);
  }

  lemma SplitAt(s: Bytes, m: Bytes, head: Bytes, rest: Bytes)
    requires m != [] && s == head + m + rest && FirstIndex(s, m) == |head|
    ensures Split(s, m) == [head] + Split(rest, m)
  {
    hide FirstIndex;
    assert s[..|head|] == head && s[|head| + |m|..] == rest;
  }

  lemma Regroup(x: Bytes, m: Bytes, y: Bytes, i: nat) returns (head: Bytes, rest: Bytes)
    requires At(x, m, i)
    ensures head == x[..i] && rest == x[i + |m|..]
    ensures x == head + m + rest && x + m + y == head + m + (rest + m + y)
    ensures Guarded(x, m) ==> Guarded(rest, m)
  {
    head, rest := x[..i], x[i + |m|..];
    assert x[i..i + |m|] == m;
    assert x == head + x[i..i + |m|] + rest;
    assert rest == [] || rest[|rest| - 1] == x[|x| - 1];
  }

  /** A marker placed after guarded text splits exactly there. */
  lemma {:induction false} SplitAcross(x: Bytes, m: Bytes, y: Bytes)
    requires m != [] && Guarded(x, m)
    ensures Split(x + m + y, m) == Split(x, m) + Split(y, m)
    decreases |x|
  {
    FirstIndexAcross(x, m, y);
    hide FirstIndex, Split, Guarded, At;
    if !Contains(x, m) {
      SplitAt(x + m + y, m, x, y);
      SplitNone(x, m);
    } else {
      FirstIndexMeaning(x, m);
      var head, rest := Regroup(x, m, y, FirstIndex(x, m));
      SplitAt(x, m, head, rest);
      SplitAt(x + m + y, m, head, rest + m + y);
      SplitAcross(rest, m, y);
      Associate([head], Split(rest, m), Split(y, m));
    }
  }

  lemma Associate<T>(a: seq<T>, b: seq<T>, c: seq<T>)
    ensures a + (b + c) == (a + b) + c
  {
  }

  lemma SplitNone(s: Bytes, m: Bytes)
    requires m != [] && !Contains(s, m)
    ensures Split(s, m) == [s]
  {
  }

  // ----- the parser ------------------------------------------------------

  /** The parts of the standard library and of the header regex the parser relies on. */
  datatype Library = Library(isQrImage: Bytes -> bool, base64: Bytes -> Option<Bytes>, quotedPrintable: Bytes -> Bytes)

  function Ascii(text: string): Bytes
    requires forall i :: 0 <= i < |text| ==> text[i] as int < 128
  {
    seq(|text|, i requires 0 <= i < |text| => text[i] as int as byte)
  }

  function LowerByte(b: byte): byte {
    if 65 <= b <= 90 then b + 32 else b
  }

  function LowerBytes(s: Bytes): Bytes {
    seq(|s|, i requires 0 <= i < |s| => LowerByte(s[i]))
  }

  const BASE64_HEADER := Ascii("content-transfer-encoding: base64")
  const QUOTED_HEADER := Ascii("content-transfer-encoding: quoted-printable")

  function DecodePartBody(lib: Library, headers: Bytes, payload: Bytes): Bytes {
    if Contains(LowerBytes(headers), BASE64_HEADER) then lib.base64(payload).GetOr(payload)
    else if Contains(LowerBytes(headers), QUOTED_HEADER) then lib.quotedPrintable(payload)
    else payload
  }

  // ----- transfer encodings ----------------------------------------------

  /** The bytes at `i` spell this text, its letters in either case. */
  predicate SpellsAt(s: Bytes, text: string, i: int) {
    && 0 <= i && i + |text| <= |s|
    && forall k :: 0 <= k < |text| ==>
         s[i + k] as int == text[k] as int || ('a' <= text[k] <= 'z' && s[i + k] as int + 32 == text[k] as int)
  }

  ghost predicate Says(headers: Bytes, text: string) {
    exists i :: SpellsAt(headers, text, i)
  }

  predicate LowerAscii(text: string) {
    forall i :: 0 <= i < |text| ==> text[i] as int < 128 && !('A' <= text[i] <= 'Z')
  }

  lemma SpelledLow(s: Bytes, text: string, i: int)
    requires LowerAscii(text)
    ensures At(LowerBytes(s), Ascii(text), i) <==> SpellsAt(s, text, i)
  {
    if 0 <= i && i + |text| <= |s| {
      var part := LowerBytes(s)[i..i + |text|];
      assert forall k :: 0 <= k < |text| ==> part[k] == LowerByte(s[i + k]);
      if SpellsAt(s, text, i) {
        assert forall k :: 0 <= k < |text| ==> part[k] == Ascii(text)[k];
        assert part == Ascii(text);
      }
      if part == Ascii(text) {
        forall k | 0 <= k < |text|
          ensures s[i + k] as int == text[k] as int || ('a' <= text[k] <= 'z' && s[i + k] as int + 32 == text[k] as int)
        {
          assert part[k] == Ascii(text)[k];
        }
      }
    }
  }

  lemma SaysExact(s: Bytes, text: string)
    requires LowerAscii(text)
    ensures Contains(LowerBytes(s), Ascii(text)) <==> Says(s, text)
  {
    FirstIndexMeaning(LowerBytes(s), Ascii(text));
    forall i ensures At(LowerBytes(s), Ascii(text), i) <==> SpellsAt(s, text, i) {
      SpelledLow(s, text, i);
    }
  }

  /**
   A part whose headers announce base64, in whatever case, is decoded, or taken as it is if that fails; else one
   that announces quoted-printable is decoded; else the payload is taken as it is.
   */
  lemma DecodedExactly(lib: Library, headers: Bytes, payload: Bytes)
    ensures var decoded := DecodePartBody(lib, headers, payload);
      if Says(headers, "content-transfer-encoding: base64") then
        if lib.base64(payload).Some? then decoded == lib.base64(payload).value else decoded == payload
      else if Says(headers, "content-transfer-encoding: quoted-printable") then decoded == lib.quotedPrintable(payload)
      else decoded == payload
  {
    SaysExact(headers, "content-transfer-encoding: base64");
    SaysExact(headers, "content-transfer-encoding: quoted-printable");
  }

  // ----- chunks ----------------------------------------------------------

  function DropLineStart(raw: Bytes): Bytes {
    if StartsWith(raw, CRLF) then raw[2..] else if StartsWith(raw, [LF]) then raw[1..] else raw
  }

  function DropLineEnd(data: Bytes): Bytes {
    if EndsWith(data, CRLF) then data[..|data| - 2] else if EndsWith(data, [LF]) then data[..|data| - 1] else data
  }

  /** Header block and payload of a chunk, split at the first blank line. */
  function HeaderSplit(chunk: Bytes): (r: Option<(Bytes, Bytes)>)
    ensures r.Some? ==> |r.value.0| + |r.value.1| + 2 <= |chunk|
  {
    IndexFits(chunk, BLANK);
    IndexFits(chunk, BARE_BLANK);
    var end := FirstIndex(chunk, BLANK);
    if end >= 0 then Some((chunk[..end], chunk[end + 4..]))
    else
      var bare := FirstIndex(chunk, BARE_BLANK);
      if bare >= 0 then Some((chunk[..bare], chunk[bare + 2..])) else None
  }

  /** The image a chunk carries, if it is a QR part at all. */
  function Extract(lib: Library, raw: Bytes): Option<Bytes> {
    var chunk := DropLineStart(raw);
    if chunk == [] || StartsWith(chunk, DASHES) then None
    else
      match HeaderSplit(chunk)
      case None => None
      case Some((headers, data)) =>
        if lib.isQrImage(headers) then Some(DecodePartBody(lib, headers, DropLineEnd(data))) else None
  }

  function LastPayload(lib: Library, chunks: seq<Bytes>): Option<Bytes> {
    if chunks == [] then None
    else
      var last := Extract(lib, chunks[|chunks| - 1]);
      if last.Some? then last else LastPayload(lib, chunks[..|chunks| - 1])
  }

  lemma LastPayloadStep(lib: Library, parts: seq<Bytes>, i: nat)
    requires i < |parts|
    ensures LastPayload(lib, parts[..i + 1]) ==
      if Extract(lib, parts[i]).Some? then Extract(lib, parts[i]) else LastPayload(lib, parts[..i])
  {
    hide Extract;
    assert parts[..i + 1][..i] == parts[..i];
  }

  /** The parser's loop: the last QR part wins. */
  method ParseQrImage(lib: Library, boundary: Bytes, body: Bytes) returns (image: Option<Bytes>)
    ensures image == LastPayload(lib, Split(body, DASHES + boundary))
  {
    var parts := Split(body, DASHES + boundary);
    var found, payload := false, [];
    for i := 0 to |parts|
      invariant LastPayload(lib, parts[..i]) == if found then Some(payload) else None
    {
      LastPayloadStep(lib, parts, i);
      var chunk := Extract(lib, parts[i]);
      if chunk.None? {
        continue;
      }
      found, payload := true, chunk.value;
    }
    assert parts[..|parts|] == parts;
    image := if found then Some(payload) else None;
  }

  // ----- the printer -----------------------------------------------------

  datatype Part = Part(headers: Bytes, data: Bytes)

  /** A part between two delimiters: line break, header lines, blank line, payload, line break. */
  function Segment(p: Part): Bytes {
    CRLF + p.headers + BLANK + p.data + CRLF
  }

  /** Each part after its delimiter line, then the close delimiter and the epilogue. */
  function Print(parts: seq<Part>, marker: Bytes, epilogue: Bytes): Bytes {
    if parts == [] then marker + DASHES + epilogue
    else marker + Segment(parts[0]) + Print(parts[1..], marker, epilogue)
  }

  /** A boundary has no line break in it. */
  predicate IsMarker(m: Bytes) {
    StartsWith(m, DASHES) && |m| > 2 && CR !in m && LF !in m
  }

  /** The first blank line after the header block is its own end, and the block is no close delimiter. */
  predicate HeadersOk(headers: Bytes) {
    FirstIndex(headers + BLANK, BLANK) == |headers| && !StartsWith(headers + BLANK, DASHES)
  }

  predicate Clean(p: Part, m: Bytes)
    requires m != []
  {
    HeadersOk(p.headers) && !Contains(p.headers, m) && !Contains(p.data, m)
  }

  function PartImage(lib: Library, p: Part): Option<Bytes> {
    if lib.isQrImage(p.headers) then Some(DecodePartBody(lib, p.headers, p.data)) else None
  }

  /** What a reader of the parts themselves would take: the last QR part. */
  function LastImage(lib: Library, parts: seq<Part>): Option<Bytes> {
    if parts == [] then None
    else
      var rest := LastImage(lib, parts[1..]);
      if rest.Some? then rest else PartImage(lib, parts[0])
  }

  // ----- parsing what was printed ----------------------------------------

  function Pieces(parts: seq<Part>, m: Bytes): seq<Bytes>
    requires m != []
  {
    if parts == [] then [] else Split(Segment(parts[0]), m) + Pieces(parts[1..], m)
  }

  lemma {:induction false} SplitPrint(x: Bytes, parts: seq<Part>, m: Bytes, epilogue: Bytes)
    requires IsMarker(m) && Guarded(x, m)
    ensures Split(x + Print(parts, m, epilogue), m) == Split(x, m) + Pieces(parts, m) + Split(DASHES + epilogue, m)
    decreases |parts|
  {
    hide Split;
    if parts == [] {
      assert x + Print(parts, m, epilogue) == x + m + (DASHES + epilogue);
      SplitAcross(x, m, DASHES + epilogue);
    } else {
      var tail := Print(parts[1..], m, epilogue);
      assert x + Print(parts, m, epilogue) == x + m + (Segment(parts[0]) + tail);
      SplitAcross(x, m, Segment(parts[0]) + tail);
      SplitPrint(Segment(parts[0]), parts[1..], m, epilogue);
    }
  }

  lemma {:induction false} LastPayloadAppend(lib: Library, a: seq<Bytes>, b: seq<Bytes>)
    ensures LastPayload(lib, a + b) == if LastPayload(lib, b).Some? then LastPayload(lib, b) else LastPayload(lib, a)
    decreases |b|
  {
    hide Extract;
    if b == [] {
      assert a + b == a;
    } else {
      assert (a + b)[..|a + b| - 1] == a + b[..|b| - 1];
      LastPayloadAppend(lib, a, b[..|b| - 1]);
    }
  }

  lemma OnlyChunk(lib: Library, chunk: Bytes)
    ensures LastPayload(lib, [chunk]) == Extract(lib, chunk)
  {
    var none: seq<Bytes> := [];
    assert [chunk][..0] == none && LastPayload(lib, none) == None;
  }

  /** An occurrence of the marker in a printed part lies in its headers or its payload. */
  lemma MarkerInSegment(p: Part, m: Bytes, k: int)
    requires IsMarker(m) && At(Segment(p), m, k)
    ensures At(p.headers, m, k - 2) || At(p.data, m, k - 6 - |p.headers|)
  {
    var s := Segment(p);
    var h := 2 + |p.headers|;
    assert s[1] == LF && s[h] == CR && s[h + 3] == LF && s[|s| - 1] == LF && s[|s| - 2] == CR;
    assert forall i :: k <= i < k + |m| ==> s[i] == m[i - k];
    if k + |m| <= h {
      assert s[k..k + |m|] == p.headers[k - 2..k - 2 + |m|];
    } else {
      assert k >= h + 4;
      var d := h + 4;
      assert s[k..k + |m|] == p.data[k - d..k - d + |m|];
    }
  }

  lemma CleanSegment(p: Part, m: Bytes)
    requires IsMarker(m) && Clean(p, m)
    ensures Split(Segment(p), m) == [Segment(p)]
  {
    FirstIndexMeaning(p.headers, m);
    FirstIndexMeaning(p.data, m);
    forall k ensures !At(Segment(p), m, k) {
      if At(Segment(p), m, k) {
        MarkerInSegment(p, m, k);
      }
    }
    FirstIndexNone(Segment(p), m);
  }

  /** Reading back a header block and whatever follows its blank line. */
  lemma ReadsHeaders(headers: Bytes, rest: Bytes)
    requires HeadersOk(headers)
    ensures HeaderSplit(headers + BLANK + rest) == Some((headers, rest))
    ensures !StartsWith(headers + BLANK + rest, DASHES)
  {
    var s := headers + BLANK;
    var t := s + rest;
    FirstIndexMeaning(s, BLANK);
    forall k | k <= |headers| ensures At(t, BLANK, k) <==> At(s, BLANK, k) {
      if 0 <= k {
        assert t[k..k + 4] == s[k..k + 4];
      }
    }
    FirstIndexIs(t, BLANK, |headers|);
    assert t[..|headers|] == headers && t[|headers| + 4..] == rest;
    assert t[..2] == s[..2];
  }

  lemma ExtractSegment(lib: Library, p: Part)
    requires HeadersOk(p.headers)
    ensures Extract(lib, Segment(p)) == PartImage(lib, p)
  {
    ReadsHeaders(p.headers, p.data + CRLF);
    assert Segment(p)[..2] == CRLF;
    assert Segment(p)[2..] == p.headers + BLANK + (p.data + CRLF);
    assert (p.data + CRLF)[..|p.data|] == p.data;
    assert (p.data + CRLF)[|p.data|..] == CRLF;
  }

  /** The chunk of a part printed with bare line feeds. */
  function BareSegment(p: Part): Bytes {
    [LF] + (p.headers + BARE_BLANK + (p.data + [LF]))
  }

  /** A part printed with bare line feeds reads back too, if it holds no blank line of the other kind. */
  lemma ExtractBareSegment(lib: Library, p: Part)
    requires !Contains(p.headers + BARE_BLANK + (p.data + [LF]), BLANK)
    requires FirstIndex(p.headers + BARE_BLANK, BARE_BLANK) == |p.headers|
    requires !StartsWith(p.headers + BARE_BLANK, DASHES)
    requires p.data != [] ==> p.data[|p.data| - 1] != CR
    ensures Extract(lib, BareSegment(p)) == PartImage(lib, p)
  {
    hide FirstIndex, DropLineStart, DropLineEnd, HeaderSplit, DecodePartBody, StartsWith, Contains;
    ReadsBareHeaders(p.headers, p.data + [LF]);
    DropsBareEnd(p.data);
    DropsBareStart(p.headers + BARE_BLANK + (p.data + [LF]));
  }

  lemma DropsBareStart(chunk: Bytes)
    ensures DropLineStart([LF] + chunk) == chunk
  {
    assert ([LF] + chunk)[..1] == [LF] && ([LF] + chunk)[1..] == chunk;
    assert |chunk| >= 1 ==> ([LF] + chunk)[..2][0] == LF;
  }

  lemma DropsBareEnd(data: Bytes)
    requires data != [] ==> data[|data| - 1] != CR
    ensures DropLineEnd(data + [LF]) == data
  {
    var t := data + [LF];
    assert t[|t| - 1..] == [LF] && t[..|t| - 1] == data;
    assert |t| >= 2 ==> t[|t| - 2..][0] == data[|data| - 1];
  }

  lemma ReadsBareHeaders(headers: Bytes, rest: Bytes)
    requires !Contains(headers + BARE_BLANK + rest, BLANK)
    requires FirstIndex(headers + BARE_BLANK, BARE_BLANK) == |headers| && !StartsWith(headers + BARE_BLANK, DASHES)
    ensures HeaderSplit(headers + BARE_BLANK + rest) == Some((headers, rest))
    ensures !StartsWith(headers + BARE_BLANK + rest, DASHES)
  {
    hide FirstIndex, StartsWith;
    BareIndex(headers, rest);
    BareSlices(headers, rest);
  }

  lemma BareSlices(headers: Bytes, rest: Bytes)
    ensures var t := headers + BARE_BLANK + rest;
      && t[..|headers|] == headers && t[|headers| + 2..] == rest
      && (StartsWith(t, DASHES) <==> StartsWith(headers + BARE_BLANK, DASHES))
  {
    var s := headers + BARE_BLANK;
    assert (s + rest)[..2] == s[..2];
  }

  lemma BareIndex(headers: Bytes, rest: Bytes)
    requires FirstIndex(headers + BARE_BLANK, BARE_BLANK) == |headers|
    ensures FirstIndex(headers + BARE_BLANK + rest, BARE_BLANK) == |headers|
  {
    var s := headers + BARE_BLANK;
    var t := s + rest;
    FirstIndexMeaning(s, BARE_BLANK);
    hide FirstIndex;
    forall k | k <= |headers| ensures At(t, BARE_BLANK, k) <==> At(s, BARE_BLANK, k) {
      if 0 <= k {
        assert t[k..k + 2] == s[k..k + 2];
      }
    }
    FirstIndexIs(t, BARE_BLANK, |headers|);
  }

  lemma {:induction false} ExtractPieces(lib: Library, parts: seq<Part>, m: Bytes)
    requires IsMarker(m) && forall i :: 0 <= i < |parts| ==> Clean(parts[i], m)
    ensures LastPayload(lib, Pieces(parts, m)) == LastImage(lib, parts)
    decreases |parts|
  {
    hide Extract, Split, PartImage, Segment;
    if parts != [] {
      assert Clean(parts[0], m);
      CleanSegment(parts[0], m);
      ExtractSegment(lib, parts[0]);
      OnlyChunk(lib, Segment(parts[0]));
      ExtractPieces(lib, parts[1..], m);
      LastPayloadAppend(lib, [Segment(parts[0])], Pieces(parts[1..], m));
    }
  }

  /** The close delimiter's chunk carries nothing, nor does the empty text before the first delimiter. */
  lemma EndsCarryNothing(lib: Library, m: Bytes, epilogue: Bytes)
    requires IsMarker(m) && !Contains(DASHES + epilogue, m)
    ensures LastPayload(lib, Split(DASHES + epilogue, m)) == None
    ensures LastPayload(lib, Split([], m)) == None
  {
    var close := DASHES + epilogue;
    assert close[..2] == DASHES && close[0] == DASH;
    assert DropLineStart(close) == close;
    assert Extract(lib, close) == None;
    OnlyChunk(lib, close);
    OnlyChunk(lib, []);
  }

  lemma ParsesPieces(lib: Library, parts: seq<Part>, m: Bytes, epilogue: Bytes)
    requires IsMarker(m) && !Contains(DASHES + epilogue, m)
    ensures LastPayload(lib, Split(Print(parts, m, epilogue), m)) == LastPayload(lib, Pieces(parts, m))
  {
    hide Split, Extract, LastPayload;
    SplitPrint([], parts, m, epilogue);
    assert [] + Print(parts, m, epilogue) == Print(parts, m, epilogue);
    EndsCarryNothing(lib, m, epilogue);
    LastPayloadAppend(lib, Split([], m) + Pieces(parts, m), Split(DASHES + epilogue, m));
    LastPayloadAppend(lib, Split([], m), Pieces(parts, m));
  }

  /**
   Round trip: when no part contains the delimiter, parsing the printed form gives exactly
   the last QR part's payload, whatever line breaks or blank lines it holds, and nothing if
   there is no such part.
   */
  lemma {:induction false} ParseInvertsPrint(lib: Library, parts: seq<Part>, m: Bytes, epilogue: Bytes)
    requires IsMarker(m) && !Contains(DASHES + epilogue, m)
    requires forall i :: 0 <= i < |parts| ==> Clean(parts[i], m)
    ensures LastPayload(lib, Split(Print(parts, m, epilogue), m)) == LastImage(lib, parts)
  {
    ParsesPieces(lib, parts, m, epilogue);
    ExtractPieces(lib, parts, m);
  }

  // ----- exactly when the round trip holds -------------------------------

  /** Decoders give back no more bytes than they are given. */
  ghost predicate NeverGrows(lib: Library) {
    && (forall d :: |lib.base64(d).GetOr(d)| <= |d|)
    && (forall d :: |lib.quotedPrintable(d)| <= |d|)
  }

  predicate PlainlyCoded(headers: Bytes) {
    !Contains(LowerBytes(headers), BASE64_HEADER) && !Contains(LowerBytes(headers), QUOTED_HEADER)
  }

  lemma ExtractBound(lib: Library, raw: Bytes)
    requires NeverGrows(lib) && Extract(lib, raw).Some?
    ensures |Extract(lib, raw).value| + 2 <= |raw|
  {
    hide FirstIndex, HeaderSplit;
    assert |DropLineStart(raw)| <= |raw|;
    var (headers, data) := HeaderSplit(DropLineStart(raw)).value;
    assert |DropLineEnd(data)| <= |data|;
    assert |DecodePartBody(lib, headers, DropLineEnd(data))| <= |DropLineEnd(data)|;
  }

  lemma {:induction false} LastPayloadBound(lib: Library, chunks: seq<Bytes>, n: nat)
    requires NeverGrows(lib) && forall i :: 0 <= i < |chunks| ==> |chunks[i]| <= n
    requires LastPayload(lib, chunks).Some?
    ensures |LastPayload(lib, chunks).value| + 2 <= n
    decreases |chunks|
  {
    hide Extract, NeverGrows;
    var last := chunks[|chunks| - 1];
    if Extract(lib, last).Some? {
      ExtractBound(lib, last);
    } else {
      LastPayloadBound(lib, chunks[..|chunks| - 1], n);
    }
  }

  lemma {:induction false} SplitBound(s: Bytes, m: Bytes)
    requires m != []
    ensures forall i :: 0 <= i < |Split(s, m)| ==> |Split(s, m)[i]| <= |s|
    decreases |s|
  {
    IndexFits(s, m);
    var i := FirstIndex(s, m);
    if i >= 0 {
      SplitBound(s[i + |m|..], m);
    }
  }

  /** The first marker inside a printed part with clean headers is the first one inside its payload. */
  lemma FirstMarkerInSegment(p: Part, m: Bytes)
    requires IsMarker(m) && !Contains(p.headers, m) && Contains(p.data, m)
    ensures FirstIndex(Segment(p), m) == FirstIndex(p.data, m) + 6 + |p.headers|
  {
    FirstIndexMeaning(p.headers, m);
    FirstIndexMeaning(p.data, m);
    hide FirstIndex;
    var off, i := 6 + |p.headers|, FirstIndex(p.data, m);
    assert Segment(p)[off + i..off + i + |m|] == p.data[i..i + |m|];
    forall k | k < off + i ensures !At(Segment(p), m, k) {
      if At(Segment(p), m, k) {
        MarkerInSegment(p, m, k);
      }
    }
    FirstIndexIs(Segment(p), m, off + i);
  }

  /** A printed part cut off somewhere in its payload still reads as a part of that name. */
  lemma ExtractCutSegment(lib: Library, p: Part, i: nat)
    requires HeadersOk(p.headers) && PlainlyCoded(p.headers) && lib.isQrImage(p.headers) && i <= |p.data|
    ensures Extract(lib, Segment(p)[..i + 6 + |p.headers|]).Some?
    ensures |Extract(lib, Segment(p)[..i + 6 + |p.headers|]).value| <= i
  {
    var cut := CRLF + (p.headers + BLANK + p.data[..i]);
    assert Segment(p)[..i + 6 + |p.headers|] == cut;
    ReadsHeaders(p.headers, p.data[..i]);
    hide FirstIndex, HeaderSplit, PlainlyCoded;
    assert cut[..2] == CRLF && cut[2..] == p.headers + BLANK + p.data[..i];
    assert PlainlyCoded(p.headers);
    Plain(lib, p.headers, DropLineEnd(p.data[..i]));
  }

  lemma Plain(lib: Library, headers: Bytes, data: Bytes)
    requires PlainlyCoded(headers)
    ensures DecodePartBody(lib, headers, data) == data
  {
  }

  /** A payload with the delimiter in it comes back shorter. */
  lemma CutPayloadIsShorter(lib: Library, p: Part, m: Bytes)
    requires IsMarker(m) && NeverGrows(lib)
    requires HeadersOk(p.headers) && PlainlyCoded(p.headers) && lib.isQrImage(p.headers)
    requires !Contains(p.headers, m) && Contains(p.data, m)
    ensures var r := LastPayload(lib, Split(Segment(p), m)); r.Some? && |r.value| < |p.data|
  {
    hide FirstIndex, HeadersOk, PlainlyCoded, NeverGrows, Segment, Split, LastPayload, Extract, At, StartsWith;
    var i, s := FirstIndex(p.data, m), Segment(p);
    FirstMarkerInSegment(p, m);
    IndexFits(p.data, m);
    SegmentLength(p);
    ExtractCutSegment(lib, p, i);
    var cutAt := FirstIndex(s, m);
    assert cutAt == i + 6 + |p.headers|;
    assert s[..cutAt] == s[..i + 6 + |p.headers|];
    CutShortens(lib, s, m, |p.data|);
  }

  /** If the text before the first marker gives a short payload and the text after it is short, so is the result. */
  lemma CutShortens(lib: Library, s: Bytes, m: Bytes, limit: nat)
    requires m != [] && NeverGrows(lib) && Contains(s, m) && FirstIndex(s, m) + |m| <= |s|
    requires |s| - FirstIndex(s, m) - |m| < limit
    requires var r := Extract(lib, s[..FirstIndex(s, m)]); r.Some? && |r.value| < limit
    ensures var r := LastPayload(lib, Split(s, m)); r.Some? && |r.value| < limit
  {
    hide Extract, FirstIndex, NeverGrows, Split, LastPayload, At;
    var i := FirstIndex(s, m);
    var first, rest := s[..i], s[i + |m|..];
    SplitFirst(s, m);
    LastPayloadAppend(lib, [first], Split(rest, m));
    OnlyChunk(lib, first);
    if LastPayload(lib, Split(rest, m)).Some? {
      SplitBound(rest, m);
      LastPayloadBound(lib, Split(rest, m), |rest|);
    }
  }

  lemma SegmentLength(p: Part)
    ensures |Segment(p)| == |p.headers| + |p.data| + 8
  {
  }

  lemma SplitFirst(s: Bytes, m: Bytes)
    requires m != [] && Contains(s, m)
    ensures var i := FirstIndex(s, m);
      i + |m| <= |s| && Split(s, m) == [s[..i]] + Split(s[i + |m|..], m)
  {
    IndexFits(s, m);
    hide FirstIndex, At;
  }

  lemma {:induction false} PiecesAppend(a: seq<Part>, b: seq<Part>, m: Bytes)
    requires m != []
    ensures Pieces(a + b, m) == Pieces(a, m) + Pieces(b, m)
    decreases |a|
  {
    hide Split;
    if a == [] {
      assert a + b == b;
    } else {
      assert (a + b)[1..] == a[1..] + b;
      PiecesAppend(a[1..], b, m);
    }
  }

  lemma {:induction false} NoImage(lib: Library, parts: seq<Part>)
    requires forall i :: 0 <= i < |parts| ==> !lib.isQrImage(parts[i].headers)
    ensures LastImage(lib, parts) == None
    decreases |parts|
  {
    if parts != [] {
      NoImage(lib, parts[1..]);
    }
  }

  /**
   The last QR part comes back exactly when the delimiter occurs nowhere in its payload:
   not only at the start of a line, which is all section 5.1.1 of RFC 2046 asks of a sender.
   The parts before it may be anything.
   */
  lemma {:induction false} RoundTripExactly(lib: Library, before: seq<Part>, p: Part, after: seq<Part>, m: Bytes,
                                            epilogue: Bytes)
    requires IsMarker(m) && NeverGrows(lib) && !Contains(DASHES + epilogue, m)
    requires HeadersOk(p.headers) && PlainlyCoded(p.headers) && lib.isQrImage(p.headers) && !Contains(p.headers, m)
    requires forall i :: 0 <= i < |after| ==> Clean(after[i], m) && !lib.isQrImage(after[i].headers)
    ensures LastPayload(lib, Split(Print(before + [p] + after, m, epilogue), m)) == Some(p.data)
      <==> !Contains(p.data, m)
  {
    hide Split, Extract, LastPayload, Contains, HeadersOk, PlainlyCoded, NeverGrows, Print;
    var parts := before + [p] + after;
    ParsesPieces(lib, parts, m, epilogue);
    PiecesAppend(before + [p], after, m);
    PiecesAppend(before, [p], m);
    assert Pieces([p], m) == Split(Segment(p), m) + Pieces([], m);
    assert Split(Segment(p), m) + [] == Split(Segment(p), m);
    ExtractPieces(lib, after, m);
    NoImage(lib, after);
    LastPayloadAppend(lib, Pieces(before + [p], m), Pieces(after, m));
    LastPayloadAppend(lib, Pieces(before, m), Split(Segment(p), m));
    if Contains(p.data, m) {
      CutPayloadIsShorter(lib, p, m);
    } else {
      CleanSegment(p, m);
      OnlyChunk(lib, Segment(p));
      ExtractSegment(lib, p);
      Plain(lib, p.headers, p.data);
    }
  }

  /**
   The last QR part that does not contain the delimiter comes back decoded as its headers
   announce, whatever the parts before it hold.
   */
  lemma {:induction false} DecodedPartComesBack(lib: Library, before: seq<Part>, p: Part, after: seq<Part>, m: Bytes,
                                                epilogue: Bytes)
    requires IsMarker(m) && !Contains(DASHES + epilogue, m)
    requires Clean(p, m) && lib.isQrImage(p.headers)
    requires forall i :: 0 <= i < |after| ==> Clean(after[i], m) && !lib.isQrImage(after[i].headers)
    ensures var image := LastPayload(lib, Split(Print(before + [p] + after, m, epilogue), m));
      image == Some(
        if Says(p.headers, "content-transfer-encoding: base64") then lib.base64(p.data).GetOr(p.data)
        else if Says(p.headers, "content-transfer-encoding: quoted-printable") then lib.quotedPrintable(p.data)
        else p.data)
  {
    CleanSegment(p, m);
    OnlyChunk(lib, Segment(p));
    ExtractSegment(lib, p);
    DecodedExactly(lib, p.headers, p.data);
    hide Split, Extract, LastPayload, Contains, HeadersOk, Print, Says, DecodePartBody;
    var parts := before + [p] + after;
    ParsesPieces(lib, parts, m, epilogue);
    PiecesAppend(before + [p], after, m);
    PiecesAppend(before, [p], m);
    assert Pieces([p], m) == Split(Segment(p), m) + Pieces([], m);
    assert Split(Segment(p), m) + [] == Split(Segment(p), m);
    ExtractPieces(lib, after, m);
    NoImage(lib, after);
    LastPayloadAppend(lib, Pieces(before + [p], m), Pieces(after, m));
    LastPayloadAppend(lib, Pieces(before, m), Split(Segment(p), m));
  }

  /** A payload no conforming sender has to avoid: the delimiter in the middle of a line. */
  lemma LegalPayloadIsCut(lib: Library, headers: Bytes)
    requires NeverGrows(lib) && HeadersOk(headers) && PlainlyCoded(headers) && lib.isQrImage(headers)
    requires !Contains(headers, [DASH, DASH, 66])
    ensures var m, data := [DASH, DASH, 66], [65, DASH, DASH, 66];
      && !Contains(CRLF + data, CRLF + m)
      && LastPayload(lib, Split(Print([Part(headers, data)], m, CRLF), m)) != Some(data)
  {
    var m, data: Bytes := [DASH, DASH, 66], [65, DASH, DASH, 66];
    MarkerFacts();
    hide FirstIndex, HeadersOk, PlainlyCoded, NeverGrows, LastPayload, Split, Print;
    RoundTripExactly(lib, [], Part(headers, data), [], m, CRLF);
    assert [] + [Part(headers, data)] + [] == [Part(headers, data)];
  }

  lemma MarkerFacts()
    ensures var m, data := [DASH, DASH, 66], [65, DASH, DASH, 66];
      && IsMarker(m) && !Contains(CRLF + data, CRLF + m) && !Contains(DASHES + CRLF, m) && Contains(data, m)
  {
    var m, data: Bytes := [DASH, DASH, 66], [65, DASH, DASH, 66];
    hide FirstIndex;
    assert m[..2] == DASHES;
    var lineStart := CRLF + data;
    forall k ensures !At(lineStart, CRLF + m, k) {
      if 0 <= k && k + 5 <= |lineStart| {
        AtElement(lineStart, CRLF + m, k, 0);
        AtElement(lineStart, CRLF + m, k, 2);
      }
    }
    FirstIndexNone(lineStart, CRLF + m);
    var close := DASHES + CRLF;
    forall k ensures !At(close, m, k) {
      if 0 <= k && k + 3 <= |close| {
        AtElement(close, m, k, 2);
      }
    }
    FirstIndexNone(close, m);
    assert data[1..1 + |m|] == m;
    assert At(data, m, 1);
    FirstIndexMeaning(data, m);
  }
}
