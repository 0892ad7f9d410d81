/** Chunked transfer coding: the reader of request bodies and the writer of response bodies (git_host_main.py;
  section 4.1 of RFC 7230). */
module ChunkedBody {
  import opened Seats
  import opened Bytes

  const CHUNK := 65536
  const LINE_MAX := 1024

  const CR: Byte := 13
  const LF: Byte := 10
  const SEMICOLON: Byte := 59

  // ---- lines and sizes ----

  /** What `readline(limit)` returns on a stream holding `s`: up to and including the first line feed. */
  function Line(s: seq<Byte>, limit: nat): (line: seq<Byte>)
    ensures line <= s && |line| <= limit
    ensures s != [] && limit > 0 ==> line != []
  {
    if s == [] || limit == 0 then []
    else if s[0] == LF then [LF]
    else [s[0]] + Line(s[1..], limit - 1)
  }

  predicate Space(b: Byte) { b == 32 || 9 <= b <= 13 }

  function StripLeft(s: seq<Byte>): seq<Byte> {
    if s != [] && Space(s[0]) then StripLeft(s[1..]) else s
  }

  function StripRight(s: seq<Byte>): seq<Byte> {
    if s != [] && Space(s[|s| - 1]) then StripRight(s[..|s| - 1]) else s
  }

  function Strip(s: seq<Byte>): seq<Byte> { StripRight(StripLeft(s)) }

  /** The part before the first semicolon. */
  function BeforeExtension(s: seq<Byte>): seq<Byte> {
    if s == [] || s[0] == SEMICOLON then [] else [s[0]] + BeforeExtension(s[1..])
  }

  function DigitValue(b: Byte): (v: Option<nat>)
    ensures v.Some? ==> v.value < 16
  {
    if 48 <= b <= 57 then Some(b - 48)
    else if 65 <= b <= 70 then Some(b - 55)
    else if 97 <= b <= 102 then Some(b - 87)
    else None
  }

  predicate PlainHex(s: seq<Byte>) {
    s != [] && forall i :: 0 <= i < |s| ==> DigitValue(s[i]).Some?
  }

  function HexNumber(s: seq<Byte>): nat
    requires forall i :: 0 <= i < |s| ==> DigitValue(s[i]).Some?
  {
    if s == [] then 0 else 16 * HexNumber(s[..|s| - 1]) + DigitValue(s[|s| - 1]).value
  }

  /** What Python's int(text, 16) makes of anything but plain digits (signs, prefixes, underscores): left open. */
  type Leniency = seq<Byte> -> Option<int>

  /** The size on a stripped chunk line. */
  function ChunkSize(other: Leniency, line: seq<Byte>): Option<int> {
    var text := Strip(BeforeExtension(line));
    if PlainHex(text) then Some(HexNumber(text)) else if text == [] then None else other(text)
  }

  // ---- decoding, as a function of the stream ----

  /** The byte count (None for a refusal), what was written, and what is left on the stream. */
  datatype Outcome = Outcome(total: Option<nat>, written: seq<Byte>, rest: seq<Byte>)

  /** The stream after the trailer section. */
  function SkipTrailers(s: seq<Byte>): seq<Byte>
    decreases |s|
  {
    var t := Line(s, LINE_MAX + 1);
    if t == [] || |t| > LINE_MAX || t == [CR, LF] || t == [LF] then s[|t|..] else SkipTrailers(s[|t|..])
  }

  /** What the reader meets next on the stream: a stray blank line, an end, malformed framing, or a chunk. What is
      written before a malformation shows is part of it. */
  datatype Item = Blank(rest: seq<Byte>) | End(rest: seq<Byte>) | Bad(data: seq<Byte>, rest: seq<Byte>)
    | Chunk(data: seq<Byte>, rest: seq<Byte>)
  {
    function Written(): seq<Byte> {
      if Bad? || Chunk? then data else []
    }
  }

  /** The next item, with `room` bytes left of the allowance. */
  function Next(other: Leniency, s: seq<Byte>, room: int): (item: Item)
    ensures (item.Blank? || item.Chunk?) ==> |item.rest| < |s|
  {
    var line := Line(s, LINE_MAX + 1);
    var s1 := s[|line|..];
    if line == [] || |line| > LINE_MAX then Bad([], s1)
    else if Strip(line) == [] then Blank(s1)
    else
      var size := ChunkSize(other, Strip(line));
      if size.None? || size.value < 0 then Bad([], s1)
      else if size.value == 0 then End(SkipTrailers(s1))
      else if size.value > room then Bad([], s1)
      else Piece(s1, size.value)
  }

  /** `size` bytes and their CRLF. */
  function Piece(s: seq<Byte>, size: nat): (item: Item)
    ensures item.Bad? || item.Chunk?
    ensures |item.rest| <= |s| && |item.data| <= size && (item.Chunk? ==> |item.data| == size)
  {
    if |s| < size then Bad(s, [])
    else
      var data, s2 := s[..size], s[size..];
      var crlf := s2[..if |s2| < 2 then |s2| else 2];
      if crlf != [CR, LF] then Bad(data, s2[|crlf|..]) else Chunk(data, s2[2..])
  }

  function Decode(other: Leniency, s: seq<Byte>, total: nat, max: int): Outcome
    decreases |s|
  {
    var item := Next(other, s, max - total);
    match item
    case Blank(rest) => Decode(other, rest, total, max)
    case End(rest) => Outcome(Some(total), [], rest)
    case Bad(data, rest) => Outcome(None, data, rest)
    case Chunk(data, rest) =>
      var r := Decode(other, rest, total + |data|, max);
      r.(written := data + r.written)
  }

  lemma DecodeStep(other: Leniency, s: seq<Byte>, total: nat, max: int)
    ensures var item := Next(other, s, max - total);
      Decode(other, s, total, max) == match item
        case Blank(rest) => Decode(other, rest, total, max)
        case End(rest) => Outcome(Some(total), [], rest)
        case Bad(data, rest) => Outcome(None, data, rest)
        case Chunk(data, rest) => var r := Decode(other, rest, total + |data|, max); r.(written := data + r.written)
  {
    hide Next;
  }

  /** `d` is what remains to be decoded, `now`, with `sofar` written before it. */
  ghost predicate Extends(d: Outcome, sofar: seq<Byte>, now: Outcome) {
    d == now.(written := sofar + now.written)
  }

  lemma ExtendsAs(d: Outcome, sofar: seq<Byte>, now: Outcome)
    ensures Extends(d, sofar, now) ==> d.total == now.total && d.rest == now.rest && d.written == sofar + now.written
    ensures Extends(d, [], d)
  {
  }

  lemma ExtendsBy(d: Outcome, sofar: seq<Byte>, data: seq<Byte>, next: Outcome)
    requires Extends(d, sofar, next.(written := data + next.written))
    ensures Extends(d, sofar + data, next)
  {
    assert sofar + (data + next.written) == (sofar + data) + next.written;
  }

  ghost predicate Suffix(r: seq<Byte>, s: seq<Byte>) {
    |r| <= |s| && r == s[|s| - |r|..]
  }

  lemma NextIsBounded(other: Leniency, s: seq<Byte>, room: int)
    requires room >= 0
    ensures var item := Next(other, s, room);
      Suffix(item.rest, s) && |item.Written()| <= room
  {
    hide Strip, ChunkSize, Line, SkipTrailers;
    var s1 := s[|Line(s, LINE_MAX + 1)|..];
    TrailersAreSuffix(s1);
  }

  /** On every input: no more than `max` bytes are written, a count that is returned is what was written, and what
      is left is the end of the stream. */
  lemma {:induction false} DecodeWritesItsCount(other: Leniency, s: seq<Byte>, total: nat, max: int)
    requires total <= max
    ensures var r := Decode(other, s, total, max);
      && total + |r.written| <= max
      && (r.total.Some? ==> r.total.value == total + |r.written|)
      && Suffix(r.rest, s)
    decreases |s|
  {
    hide Next;
    NextIsBounded(other, s, max - total);
    var item := Next(other, s, max - total);
    match item
    case Blank(rest) => DecodeWritesItsCount(other, rest, total, max);
    case Chunk(data, rest) => DecodeWritesItsCount(other, rest, total + |data|, max);
    case _ =>
  }

  lemma {:induction false} TrailersAreSuffix(s: seq<Byte>)
    ensures Suffix(SkipTrailers(s), s)
    decreases |s|
  {
    var t := Line(s, LINE_MAX + 1);
    if !(t == [] || |t| > LINE_MAX || t == [CR, LF] || t == [LF]) { TrailersAreSuffix(s[|t|..]); }
  }

  // ---- encoding ----

  function DigitOf(v: nat): Byte
    requires v < 16
  {
    if v < 10 then 48 + v else 55 + v
  }

  /** `%X`. */
  function Hex(n: nat): (s: seq<Byte>)
    ensures s != []
  {
    if n < 16 then [DigitOf(n)] else Hex(n / 16) + [DigitOf(n % 16)]
  }

  function Frame(data: seq<Byte>): seq<Byte> {
    Hex(|data|) + [CR, LF] + data + [CR, LF]
  }

  function FrameAll(chunks: seq<seq<Byte>>): seq<Byte> {
    if chunks == [] then [] else Frame(chunks[0]) + FrameAll(chunks[1..])
  }

  function Concat(chunks: seq<seq<Byte>>): seq<Byte> {
    if chunks == [] then [] else chunks[0] + Concat(chunks[1..])
  }

  /** The last chunk: "0", CRLF. */
  const LAST: seq<Byte> := [48, CR, LF]

  /** The last chunk and an empty trailer section. */
  const TERMINATOR: seq<Byte> := [48, CR, LF, CR, LF]

  // ---- the size line reads back ----

  lemma {:induction false} HexReads(n: nat)
    ensures PlainHex(Hex(n)) && HexNumber(Hex(n)) == n
    ensures forall i :: 0 <= i < |Hex(n)| ==> 48 <= Hex(n)[i] <= 57 || 65 <= Hex(n)[i] <= 70
  {
    if n >= 16 {
      HexReads(n / 16);
      assert Hex(n)[..|Hex(n)| - 1] == Hex(n / 16);
    }
  }

  /** One line, with the line feed that ends it. */
  ghost predicate OneLine(t: seq<Byte>) {
    t != [] && t[|t| - 1] == LF && forall i :: 0 <= i < |t| - 1 ==> t[i] != LF
  }

  lemma LineFirst(s: seq<Byte>, limit: nat)
    requires s != [] && limit > 0
    ensures Line(s, limit) == if s[0] == LF then [LF] else [s[0]] + Line(s[1..], limit - 1)
  {
  }

  lemma OneLineRest(t: seq<Byte>, rest: seq<Byte>, limit: nat)
    requires OneLine(t) && |t| > 1 && limit > 0
    ensures OneLine(t[1..]) && (t + rest)[0] == t[0] != LF && (t + rest)[1..] == t[1..] + rest
    ensures (if |t| <= limit then t else t[..limit]) == [t[0]] + if |t| <= limit then t[1..] else t[1..][..limit - 1]
  {
  }

  lemma LineFeedIs(t: seq<Byte>, rest: seq<Byte>, limit: nat)
    requires OneLine(t) && |t| <= 1 && limit > 0
    ensures Line(t + rest, limit) == t
  {
    assert t == [LF] && (t + rest)[0] == LF;
  }

  lemma {:induction false} LineIs(t: seq<Byte>, rest: seq<Byte>, limit: nat)
    requires OneLine(t)
    ensures Line(t + rest, limit) == if |t| <= limit then t else t[..limit]
    decreases |t|
  {
    hide Line, OneLine;
    if limit == 0 {
      assert Line(t + rest, 0) == [];
    } else if |t| > 1 {
      LineFirst(t + rest, limit);
      OneLineRest(t, rest, limit);
      LineIs(t[1..], rest, limit - 1);
    } else {
      LineFeedIs(t, rest, limit);
    }
  }

  /** Digits followed by CRLF come off the stream as one line. */
  lemma LineOf(h: seq<Byte>, rest: seq<Byte>, limit: nat)
    requires |h| + 2 <= limit && forall i :: 0 <= i < |h| ==> h[i] != LF
    ensures Line(h + [CR, LF] + rest, limit) == h + [CR, LF]
  {
    LineIs(h + [CR, LF], rest, limit);
  }

  lemma {:induction false} StripRightHex(h: seq<Byte>)
    requires PlainHex(h)
    ensures StripRight(h + [CR, LF]) == h && Strip(h + [CR, LF]) == h && Strip(h) == h && h != []
  {
    var s := h + [CR, LF];
    assert s[..|s| - 1] == h + [CR] && (h + [CR])[..|h|] == h;
    assert StripRight(s) == StripRight(h + [CR]) == StripRight(h);
  }

  lemma {:induction false} NoExtension(h: seq<Byte>, ext: seq<Byte>)
    requires (forall i :: 0 <= i < |h| ==> DigitValue(h[i]).Some?) && (ext == [] || ext[0] == SEMICOLON)
    ensures BeforeExtension(h + ext) == h
  {
    if h != [] {
      NoExtension(h[1..], ext);
      assert (h + ext)[1..] == h[1..] + ext;
    } else {
      assert h + ext == ext;
    }
  }

  /** What ends in a byte that is no space is not cut by stripping on the right. */
  lemma {:induction false} StripRightKeeps(a: seq<Byte>, b: seq<Byte>)
    requires a != [] && !Space(a[|a| - 1])
    ensures a <= StripRight(a + b) <= a + b
    decreases |b|
  {
    if b == [] {
      assert a + b == a;
    } else {
      var n := |b|;
      assert (a + b)[..|a + b| - 1] == a + b[..n - 1];
      StripRightKeeps(a, b[..n - 1]);
    }
  }

  /** Stripping a size line leaves the digits and an extension that still starts with its semicolon. */
  lemma StripKeepsSize(h: seq<Byte>, ext: seq<Byte>) returns (kept: seq<Byte>)
    requires PlainHex(h) && ext != [] && ext[0] == SEMICOLON
    ensures Strip(h + ext + [CR, LF]) == h + kept && kept != [] && kept[0] == SEMICOLON
  {
    var line, start, tail := h + ext + [CR, LF], h + [SEMICOLON], ext[1..] + [CR, LF];
    assert line == start + tail;
    assert StripLeft(line) == line by { assert !Space(line[0]); }
    hide StripLeft, StripRight, PlainHex;
    StripRightKeeps(start, tail);
    var all := StripRight(start + tail);
    kept := all[|h|..];
    assert all[..|start|] == start;
    assert all[..|h|] == start[..|h|] == h && all[|h|] == start[|h|] == SEMICOLON;
    assert all == all[..|h|] + kept;
  }

  /** A size line with an extension behind a semicolon still gives the size. */
  lemma ExtendedLine(other: Leniency, n: nat, ext: seq<Byte>)
    requires ext == [] || ext[0] == SEMICOLON
    ensures var line := Hex(n) + ext + [CR, LF]; Strip(line) != [] && ChunkSize(other, Strip(line)) == Some(n)
  {
    hide Strip, Hex, PlainHex, HexNumber, BeforeExtension;
    HexReads(n);
    if ext == [] {
      assert Hex(n) + ext + [CR, LF] == Hex(n) + [CR, LF];
      SizeLine(other, n);
    } else {
      var kept := StripKeepsSize(Hex(n), ext);
      AllDigits(Hex(n));
      NoExtension(Hex(n), kept);
      StripRightHex(Hex(n));
    }
  }

  lemma AllDigits(h: seq<Byte>)
    requires PlainHex(h)
    ensures h != [] && forall i :: 0 <= i < |h| ==> DigitValue(h[i]).Some?
  {
  }

  lemma SizeLine(other: Leniency, n: nat)
    ensures var line := Hex(n) + [CR, LF]; Strip(line) == Hex(n) != [] && ChunkSize(other, Strip(line)) == Some(n)
  {
    HexReads(n);
    StripRightHex(Hex(n));
    NoExtension(Hex(n), []);
    assert Hex(n) + [] == Hex(n);
  }

  // ---- the trailer section ----

  /** A header line of the trailer section. */
  ghost predicate TrailerLine(t: seq<Byte>) { OneLine(t) && t != [LF] && t != [CR, LF] }

  ghost predicate Trailers(ts: seq<seq<Byte>>) {
    forall i :: 0 <= i < |ts| ==> TrailerLine(ts[i])
  }

  predicate BlankLine(b: seq<Byte>) { b == [LF] || b == [CR, LF] }

  /** Each line, with its line feed, fits in the reader's limit. */
  predicate AllShort(ts: seq<seq<Byte>>) {
    forall i :: 0 <= i < |ts| ==> |ts[i]| <= 1024
  }

  lemma SkipOne(t: seq<Byte>, rest: seq<Byte>)
    requires OneLine(t)
    ensures SkipTrailers(t + rest) ==
      if BlankLine(t) then rest else if |t| <= LINE_MAX then SkipTrailers(rest) else (t + rest)[LINE_MAX + 1..]
  {
    LineIs(t, rest, LINE_MAX + 1);
    hide Line;
    assert (t + rest)[|t|..] == rest;
  }

  lemma {:induction false} TrailersSkipped(ts: seq<seq<Byte>>, blank: seq<Byte>, next: seq<Byte>)
    requires Trailers(ts) && BlankLine(blank)
    ensures var left := SkipTrailers(Concat(ts) + (blank + next));
      if AllShort(ts) then left == next else |left| > |next|
    decreases |ts|
  {
    hide SkipTrailers;
    if ts == [] {
      assert Concat(ts) + (blank + next) == blank + next;
      SkipOne(blank, next);
    } else {
      var rest := Concat(ts[1..]) + (blank + next);
      assert Concat(ts) + (blank + next) == ts[0] + rest;
      SkipOne(ts[0], rest);
      TrailersSkipped(ts[1..], blank, next);
      assert AllShort(ts) <==> |ts[0]| <= LINE_MAX && AllShort(ts[1..]) by {
        assert forall i :: 1 <= i < |ts| ==> ts[i] == ts[1..][i - 1];
      }
    }
  }

  /** The chunk of size zero ends the body; what follows up to a blank line is the trailer section. */
  lemma LastChunkEnds(other: Leniency, rest: seq<Byte>, total: nat, max: int)
    ensures Decode(other, LAST + rest, total, max) == Outcome(Some(total), [], SkipTrailers(rest))
  {
    SizeLine(other, 0);
    assert Hex(0) == [48];
    assert LAST + rest == [48] + [CR, LF] + rest;
    LineOf([48], rest, LINE_MAX + 1);
    assert (LAST + rest)[3..] == rest;
    hide Line, Strip, ChunkSize, SkipTrailers;
  }

  /** A chunk as any client may send it: the size, an extension or nothing, and the data. */
  function Extended(data: seq<Byte>, ext: seq<Byte>): seq<Byte> {
    Hex(|data|) + ext + [CR, LF] + data + [CR, LF]
  }

  /** A chunk extension: nothing, or a semicolon and more, all on one line. */
  predicate Extension(ext: seq<Byte>) {
    (ext == [] || ext[0] == SEMICOLON) && forall i :: 0 <= i < |ext| ==> ext[i] != LF
  }

  /** One frame is read as one chunk, or refused if it goes over the limit. */
  lemma FrameIsNext(other: Leniency, data: seq<Byte>, ext: seq<Byte>, next: seq<Byte>, room: int)
    requires data != [] && Extension(ext) && |Hex(|data|)| + |ext| + 2 <= LINE_MAX
    ensures Next(other, Extended(data, ext) + next, room)
      == if |data| > room then Bad([], data + [CR, LF] + next) else Chunk(data, next)
  {
    hide Line, Strip, ChunkSize, Hex, PlainHex, Next, Piece, Extended;
    var n, line, s1 := |data|, Hex(|data|) + ext, data + [CR, LF] + next;
    ExtendedParts(data, ext, next);
    NoBreaks(n, ext);
    LineOf(line, s1, LINE_MAX + 1);
    ExtendedLine(other, n, ext);
    SizeThenPiece(other, line + [CR, LF], s1, n, room);
    PieceIs(data, next);
  }

  lemma ExtendedParts(data: seq<Byte>, ext: seq<Byte>, next: seq<Byte>)
    ensures Extended(data, ext) + next == (Hex(|data|) + ext) + [CR, LF] + (data + [CR, LF] + next)
  {
    var line := Hex(|data|) + ext + [CR, LF];
    hide Hex;
    Associates(line, data, [CR, LF]);
    Associates(line, data + [CR, LF], next);
  }

  lemma NoBreaks(n: nat, ext: seq<Byte>)
    requires Extension(ext)
    ensures forall i :: 0 <= i < |Hex(n) + ext| ==> (Hex(n) + ext)[i] != LF
  {
    HexReads(n);
    DigitsBreakNoLine(Hex(n));
    hide Hex, PlainHex, HexNumber;
  }

  lemma StripNothing()
    ensures Strip([]) == []
  {
  }

  /** The size is what stands before the first semicolon, without blanks around it: plain digits are read as hexadecimal, and
      a line without any text there is refused, and so is the body. */
  lemma SizelessLineIsRefused(other: Leniency, ext: seq<Byte>, next: seq<Byte>, total: nat, max: int)
    requires Extension(ext) && ext != [] && |ext| + 2 <= LINE_MAX
    ensures Decode(other, ext + [CR, LF] + next, total, max).total == None
  {
    hide Line, StripRight;
    LineOf(ext, next, LINE_MAX + 1);
    var line := ext + [CR, LF];
    assert line == [SEMICOLON] + (ext[1..] + [CR, LF]);
    StripRightKeeps([SEMICOLON], ext[1..] + [CR, LF]);
    assert StripLeft(line) == line;
    var s := StripRight(line);
    assert s[0] == SEMICOLON && BeforeExtension(s) == [];
    assert Strip([]) == [] by { StripNothing(); }
    assert ChunkSize(other, s) == None;
    assert Next(other, line + next, max - total).Bad?;
  }

  /** A chunk whose data is not followed by CR and LF is refused, and so is the body. */
  lemma UnclosedChunkIsRefused(other: Leniency, data: seq<Byte>, next: seq<Byte>, total: nat, max: int)
    requires data != [] && |Hex(|data|)| + 2 <= LINE_MAX && !([CR, LF] <= next)
    ensures Decode(other, Hex(|data|) + [CR, LF] + data + next, total, max).total == None
  {
    var n, h := |data|, Hex(|data|);
    var s1 := data + next;
    HexReads(n);
    DigitsBreakNoLine(h);
    hide Line, Strip, ChunkSize, Hex, PlainHex, Next;
    assert h + [CR, LF] + data + next == h + [CR, LF] + s1;
    LineOf(h, s1, LINE_MAX + 1);
    SizeLine(other, n);
    SizeThenPiece(other, h + [CR, LF], s1, n, max - total);
    assert s1[n..] == next && s1[..n] == data;
    assert Piece(s1, n).Bad? by { if |next| >= 2 { assert next == next[..2] + next[2..]; } }
  }

  lemma DigitsBreakNoLine(h: seq<Byte>)
    requires PlainHex(h)
    ensures forall i :: 0 <= i < |h| ==> h[i] != LF
  {
  }

  lemma SizeThenPiece(other: Leniency, line: seq<Byte>, s1: seq<Byte>, size: nat, room: int)
    requires Line(line + s1, LINE_MAX + 1) == line && 0 < |line| <= LINE_MAX
    requires Strip(line) != [] && ChunkSize(other, Strip(line)) == Some(size) && size > 0
    ensures Next(other, line + s1, room) == if size > room then Bad([], s1) else Piece(s1, size)
  {
    hide Line, Strip, ChunkSize, Piece;
    assert (line + s1)[|line|..] == s1;
  }

  lemma PieceIs(data: seq<Byte>, next: seq<Byte>)
    ensures Piece(data + [CR, LF] + next, |data|) == Chunk(data, next)
  {
    var s := data + [CR, LF] + next;
    assert s[..|data|] == data && s[|data|..] == [CR, LF] + next;
    assert ([CR, LF] + next)[..2] == [CR, LF] && ([CR, LF] + next)[2..] == next;
  }

  /** The chunk sizes fit on a size line, and no chunk is empty (an empty one would end the body). */
  predicate Writable(chunks: seq<seq<Byte>>) {
    forall i :: 0 <= i < |chunks| ==> chunks[i] != [] && |Hex(|chunks[i]|)| + 2 <= LINE_MAX
  }

  function ExtendedAll(chunks: seq<seq<Byte>>, exts: seq<seq<Byte>>): seq<Byte>
    requires |exts| == |chunks|
  {
    if chunks == [] then [] else Extended(chunks[0], exts[0]) + ExtendedAll(chunks[1..], exts[1..])
  }

  /** No chunk is empty, and every size line fits, extension and all. */
  predicate Sendable(chunks: seq<seq<Byte>>, exts: seq<seq<Byte>>) {
    |exts| == |chunks| && forall i :: 0 <= i < |chunks| ==>
      chunks[i] != [] && Extension(exts[i]) && |Hex(|chunks[i]|)| + |exts[i]| + 2 <= LINE_MAX
  }

  /** Reading chunks, their extensions and any trailers: the chunks come back joined, with their length, and the stream stops
      exactly after the blank line if and only if every trailer line is short. Over the limit the body is refused. */
  lemma {:induction false} ReadsWithTrailers(other: Leniency, chunks: seq<seq<Byte>>, exts: seq<seq<Byte>>, ts: seq<seq<Byte>>,
                                             blank: seq<Byte>, next: seq<Byte>, total: nat, max: int)
    requires Sendable(chunks, exts) && Trailers(ts) && BlankLine(blank) && total <= max
    ensures var r := Decode(other, ExtendedAll(chunks, exts) + (LAST + (Concat(ts) + (blank + next))), total, max);
      if total + |Concat(chunks)| <= max
      then r.total == Some(total + |Concat(chunks)|) && r.written == Concat(chunks) && (r.rest == next <==> AllShort(ts))
      else r.total == None
    decreases |chunks|
  {
    hide Next, Extended, Extension, Hex, Trailers, AllShort;
    var tail := LAST + (Concat(ts) + (blank + next));
    if chunks == [] {
      assert ExtendedAll(chunks, exts) + tail == tail;
      LastChunkEnds(other, Concat(ts) + (blank + next), total, max);
      TrailersSkipped(ts, blank, next);
    } else {
      var rest := ExtendedAll(chunks[1..], exts[1..]) + tail;
      assert ExtendedAll(chunks, exts) + tail == Extended(chunks[0], exts[0]) + rest;
      FrameIsNext(other, chunks[0], exts[0], rest, max - total);
      if total + |chunks[0]| <= max {
        ReadsWithTrailers(other, chunks[1..], exts[1..], ts, blank, next, total + |chunks[0]|, max);
      }
    }
  }

  lemma {:induction false} NoExtensions(chunks: seq<seq<Byte>>, exts: seq<seq<Byte>>)
    requires |exts| == |chunks| && forall i :: 0 <= i < |exts| ==> exts[i] == []
    ensures ExtendedAll(chunks, exts) == FrameAll(chunks)
  {
    hide Hex;
    if chunks != [] {
      NoExtensions(chunks[1..], exts[1..]);
      assert Hex(|chunks[0]|) + [] == Hex(|chunks[0]|);
    }
  }

  lemma EmptySection(before: seq<Byte>, next: seq<Byte>)
    ensures before + TERMINATOR + next == before + (LAST + (Concat([]) + ([CR, LF] + next)))
  {
  }

  /** Reading what the writer writes: the stream stops exactly after the terminator, whatever follows it. */
  lemma ReadsWhatWasWritten(other: Leniency, chunks: seq<seq<Byte>>, next: seq<Byte>, total: nat, max: int)
    requires Writable(chunks) && total <= max
    ensures var r := Decode(other, FrameAll(chunks) + TERMINATOR + next, total, max);
      if total + |Concat(chunks)| <= max then r == Outcome(Some(total + |Concat(chunks)|), Concat(chunks), next)
      else r.total == None
  {
    hide Decode, FrameAll, ExtendedAll, Concat;
    EmptySection(FrameAll(chunks), next);
    var exts: seq<seq<Byte>> := seq(|chunks|, _ => []);
    NoExtensions(chunks, exts);
    ReadsWithTrailers(other, chunks, exts, [], [CR, LF], next, total, max);
  }

  /** A line of 1025 bytes. */
  function LongLine(): (line: seq<Byte>)
    ensures |line| == 1025
  {
    seq(LINE_MAX, _ => 120) + [LF]
  }

  lemma LongLineIsTrailer()
    ensures TrailerLine(LongLine())
  {
  }

  /** Such a trailer line is taken for the end of the section: the blank line after it stays on the stream. */
  lemma LongTrailerLeavesABlank(other: Leniency, next: seq<Byte>, max: nat)
    ensures TrailerLine(LongLine())
    ensures Decode(other, LAST + (LongLine() + ([CR, LF] + next)), 0, max) == Outcome(Some(0), [], [CR, LF] + next)
  {
    hide Decode, SkipTrailers, LongLine;
    LongLineIsTrailer();
    var line, rest := LongLine(), [CR, LF] + next;
    LastChunkEnds(other, line + rest, 0, max);
    SkipOne(line, rest);
    assert (line + rest)[LINE_MAX + 1..] == rest;
  }

  /** The writer's pieces always fit: 64 KiB needs five digits. */
  lemma PiecesFit(data: seq<Byte>)
    requires 0 < |data| <= CHUNK + 1
    ensures |Hex(|data|)| <= 5
  {
    var n := |data|;
    assert n / 16 / 16 / 16 / 16 < 16;
    assert Hex(n / 16 / 16 / 16 / 16) == [DigitOf(n / 16 / 16 / 16 / 16)];
    assert |Hex(n / 16 / 16 / 16)| <= 2;
    assert |Hex(n / 16 / 16)| <= 3;
    assert |Hex(n / 16)| <= 4;
  }

  lemma Associates(a: seq<Byte>, b: seq<Byte>, c: seq<Byte>)
    ensures a + b + c == a + (b + c)
  {
  }

  // ---- the connection ----

  class Connection {
    const other: Leniency
    const input: seq<Byte>
    var pos: nat
    var out: seq<Byte>

    constructor (other: Leniency, input: seq<Byte>)
      ensures Valid() && Left() == input && out == []
    {
      this.other, this.input := other, input;
      pos, out := 0, [];
    }

    ghost predicate Valid()
      reads this
    {
      pos <= |input|
    }

    function Left(): seq<Byte>
      reads this
      requires Valid()
    {
      input[pos..]
    }

    method ReadLine(limit: nat) returns (line: seq<Byte>)
      requires Valid()
      modifies this`pos
      ensures Valid() && line == Line(old(Left()), limit) && Left() == old(Left())[|line|..]
    {
      line := Line(Left(), limit);
      pos := pos + |line|;
    }

    method Read(n: nat) returns (data: seq<Byte>)
      requires Valid()
      modifies this`pos
      ensures Valid() && data + Left() == old(Left())
      ensures |data| == if n <= |old(Left())| then n else |old(Left())|
    {
      var k := if n <= |Left()| then n else |Left()|;
      data := Left()[..k];
      pos := pos + k;
    }

    method SkipTrailerLines()
      requires Valid()
      modifies this`pos
      ensures Valid() && Left() == SkipTrailers(old(Left()))
    {
      while true
        invariant Valid() && SkipTrailers(Left()) == SkipTrailers(old(Left()))
        decreases |Left()|
      {
        var t := ReadLine(LINE_MAX + 1);
        if t == [] || |t| > LINE_MAX || t == [CR, LF] || t == [LF] { break; }
      }
    }

    /** Copies `size` bytes to the output, CHUNK at a time; false if the stream ends first. */
    method Copy(size: nat) returns (ok: bool, ghost data: seq<Byte>)
      requires Valid()
      modifies this`pos, this`out
      ensures Valid() && ok == (size <= |old(Left())|)
      ensures data + Left() == old(Left()) && out == old(out) + data && if ok then |data| == size else Left() == []
    {
      ghost var s, before := Left(), out;
      data := [];
      var remaining := size;
      while remaining > 0
        invariant Valid() && remaining >= 0 && |data| + remaining == size
        invariant data + Left() == s && out == before + data
        decreases remaining
      {
        var piece := Read(if CHUNK <= remaining then CHUNK else remaining);
        if piece == [] { return false, data; }
        Associates(before, data, piece);
        Associates(data, piece, Left());
        out := out + piece;
        data := data + piece;
        remaining := remaining - |piece|;
      }
      ok := true;
    }

    /** Reads `size` bytes and the CRLF after them. */
    method ReadPiece(size: nat) returns (ok: bool, ghost item: Item)
      requires Valid()
      modifies this`pos, this`out
      ensures Valid() && item == Piece(old(Left()), size) && ok == item.Chunk?
      ensures Left() == item.rest && out == old(out) + item.Written()
    {
      ghost var s, before := Left(), out;
      item := Piece(s, size);
      ghost var data;
      ok, data := Copy(size);
      assert data == s[..|data|] && Left() == s[|data|..];
      if !ok { return; }
      ghost var s2 := Left();
      var crlf := Read(2);
      assert crlf == s2[..|crlf|] && Left() == s2[|crlf|..];
      ok := crlf == [CR, LF];
    }

    /** The body's length, its bytes appended to the output; None for malformed framing or a body over `max`. */
    method ReadChunkedBody(max: int) returns (r: Option<nat>)
      requires Valid()
      modifies this`pos, this`out
      ensures Valid()
      ensures var d := Decode(other, old(Left()), 0, max); r == d.total && out == old(out) + d.written && Left() == d.rest
    {
      hide Line, Strip, ChunkSize, SkipTrailers, Piece, Decode, Extends;
      ghost var d, before := Decode(other, Left(), 0, max), out;
      ExtendsAs(d, [], d);
      ghost var sofar: seq<Byte> := [];
      var total := 0;
      while true
        invariant Valid() && total >= 0 && out == before + sofar
        invariant Extends(d, sofar, Decode(other, Left(), total, max))
        decreases |Left()|
      {
        DecodeStep(other, Left(), total, max);
        ExtendsAs(d, sofar, Decode(other, Left(), total, max));
        var line := ReadLine(LINE_MAX + 1);
        if line == [] || |line| > LINE_MAX { return None; }
        line := Strip(line);
        if line == [] { continue; }
        var size := ChunkSize(other, line);
        if size.None? { return None; }
        if size.value < 0 { return None; }
        if size.value == 0 {
          SkipTrailerLines();
          return Some(total);
        }
        total := total + size.value;
        if total > max { return None; }
        var ok, item := ReadPiece(size.value);
        if !ok { return None; }
        ExtendsBy(d, sofar, item.data, Decode(other, Left(), total, max));
        sofar := sofar + item.data;
      }
    }
  }

  lemma {:induction false} FrameLast(chunks: seq<seq<Byte>>, c: seq<Byte>)
    ensures FrameAll(chunks + [c]) == FrameAll(chunks) + Frame(c)
  {
    hide Frame;
    if chunks == [] {
      assert FrameAll([c]) == Frame(c) + FrameAll([]);
    } else {
      assert (chunks + [c])[1..] == chunks[1..] + [c];
      FrameLast(chunks[1..], c);
    }
  }

  lemma FrameNext(first: seq<seq<Byte>>, pieces: seq<seq<Byte>>, n: nat)
    requires n < |pieces|
    ensures FrameAll(first + pieces[..n + 1]) == FrameAll(first + pieces[..n]) + Frame(pieces[n])
  {
    hide Frame, FrameAll;
    FrameLast(first + pieces[..n], pieces[n]);
    assert first + pieces[..n + 1] == first + pieces[..n] + [pieces[n]];
  }

  lemma FrameOne(chunk: seq<Byte>)
    ensures FrameAll([chunk]) == Frame(chunk) && FrameAll([]) == []
  {
    hide Frame;
    assert [chunk][1..] == [];
  }

  /** The response side: what goes out on the wire. */
  class Response {
    var wire: seq<Byte>

    method WriteChunk(data: seq<Byte>)
      modifies this
      ensures wire == old(wire) + Frame(data)
    {
      wire := wire + (Hex(|data|) + [CR, LF] + data + [CR, LF]);
    }

    /** What is left of the header read, then the pieces the backend produces, then the terminator. */
    method WriteBody(leftover: seq<Byte>, pieces: seq<seq<Byte>>)
      requires forall i :: 0 <= i < |pieces| ==> pieces[i] != []
      modifies this
      ensures wire == old(wire) + FrameAll((if leftover == [] then [] else [leftover]) + pieces) + TERMINATOR
    {
      hide Frame, FrameAll;
      ghost var first := if leftover == [] then [] else [leftover];
      FrameOne(leftover);
      if leftover != [] { WriteChunk(leftover); }
      assert first + pieces[..0] == first;
      for n := 0 to |pieces|
        invariant wire == old(wire) + FrameAll(first + pieces[..n])
      {
        WriteChunk(pieces[n]);
        FrameNext(first, pieces, n);
      }
      assert pieces[..|pieces|] == pieces;
      wire := wire + TERMINATOR;
    }
  }
}
