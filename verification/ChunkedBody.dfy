/**
 Reading a chunked response body, as the command-line client does.

 `Reader` consumes bytes in place; the functions beside it say what each read
 returns and where it stops. `Encode` is the chunked coding of section 7.1 of
 RFC 9112, without trailers, and reading it back is the main result.
 */
module ChunkedBody {
  import opened Options
  import opened Sequences

  newtype byte = x: int | 0 <= x < 256

  const CR: byte := 13
  const LF: byte := 10
  const SEMICOLON: byte := 59
  const PLUS: byte := 43

  /** One more than the largest size the client can hold. */
  const SIZE_LIMIT: nat := 0x1_0000_0000_0000_0000

  datatype Line = Line(text: seq<byte>, next: nat) | Closed

  datatype ChunkRead = Chunk(bytes: seq<byte>, next: nat) | LastChunk(end: nat) | Malformed

  datatype BodyRead = Body(content: seq<byte>, end: nat) | Broken

  // ------------------------------------------------------------------- lines

  function StripCr(s: seq<byte>): seq<byte> {
    if s == [] then []
    else StripCr(s[..|s| - 1]) + if s[|s| - 1] == CR then [] else [s[|s| - 1]]
  }

  lemma StripCrGrows(data: seq<byte>, from: nat, to: nat)
    requires from <= to < |data|
    ensures StripCr(data[from..to + 1]) == StripCr(data[from..to]) + if data[to] == CR then [] else [data[to]]
  {
    assert data[from..to + 1][..to - from] == data[from..to];
  }

  /** The first line feed at or after `pos`, or the end. */
  function LineFeed(data: seq<byte>, pos: nat): (i: nat)
    requires pos <= |data|
    ensures pos <= i <= |data| && (i < |data| ==> data[i] == LF)
    ensures forall j | pos <= j < i :: data[j] != LF
    decreases |data| - pos
  {
    if pos == |data| || data[pos] == LF then pos else LineFeed(data, pos + 1)
  }

  function LineAt(data: seq<byte>, pos: nat): Line
    requires pos <= |data|
  {
    var i := LineFeed(data, pos);
    var text := StripCr(data[pos..i]);
    if i < |data| then Line(text, i + 1)
    else if text == [] then Closed
    else Line(text, i)
  }

  // ------------------------------------------------------------- chunk sizes

  predicate IsSpace(b: byte) {
    b == 32 || 9 <= b <= 13
  }

  function TrimStart(s: seq<byte>): seq<byte> {
    if s != [] && IsSpace(s[0]) then TrimStart(s[1..]) else s
  }

  function TrimEnd(s: seq<byte>): seq<byte> {
    if s != [] && IsSpace(s[|s| - 1]) then TrimEnd(s[..|s| - 1]) else s
  }

  function BeforeSemicolon(s: seq<byte>): seq<byte> {
    if s == [] || s[0] == SEMICOLON then [] else [s[0]] + BeforeSemicolon(s[1..])
  }

  function SizeText(line: seq<byte>): seq<byte> {
    TrimEnd(TrimStart(BeforeSemicolon(line)))
  }

  function HexDigit(b: byte): Option<nat> {
    if 48 <= b <= 57 then Some(b as int - 48)
    else if 97 <= b <= 102 then Some(b as int - 87)
    else if 65 <= b <= 70 then Some(b as int - 55)
    else None
  }

  function HexValue(s: seq<byte>): Option<nat> {
    if s == [] then Some(0)
    else
      var rest, d := HexValue(s[..|s| - 1]), HexDigit(s[|s| - 1]);
      if rest.Some? && d.Some? then Some(16 * rest.value + d.value) else None
  }

  /** A hexadecimal size as the standard library parses it: an optional plus, digits, no overflow. */
  function ParseSize(s: seq<byte>): Option<nat> {
    var digits := if s != [] && s[0] == PLUS then s[1..] else s;
    if digits == [] then None
    else
      var n := HexValue(digits);
      if n.Some? && n.value < SIZE_LIMIT then n else None
  }

  // ------------------------------------------------------------------ chunks

  function Least(a: nat, b: nat): nat {
    if a <= b then a else b
  }

  function ChunkAt(data: seq<byte>, pos: nat): (r: ChunkRead)
    requires pos <= |data|
    ensures r.Chunk? ==> pos < r.next <= |data|
  {
    match LineAt(data, pos)
    case Closed => Malformed
    case Line(line, next) =>
      var text := SizeText(line);
      if text == [] then LastChunk(next)
      else
        match ParseSize(text)
        case None => Malformed
        case Some(size) =>
          if size == 0 then
            LastChunk(match LineAt(data, next) case Closed => |data| case Line(_, after) => after)
          else if next + size > |data| then Malformed
          else Chunk(data[next..next + size], Least(next + size + 2, |data|))
  }

  function BodyAt(data: seq<byte>, pos: nat): BodyRead
    requires pos <= |data|
    decreases |data| - pos
  {
    match ChunkAt(data, pos)
    case Malformed => Broken
    case LastChunk(end) => Body([], end)
    case Chunk(bytes, next) =>
      match BodyAt(data, next)
      case Broken => Broken
      case Body(rest, end) => Body(bytes + rest, end)
  }

  /** What one read must give, by what its size line says and how much data follows. */
  ghost predicate ReadsAs(data: seq<byte>, pos: nat, read: ChunkRead)
    requires pos <= |data|
  {
    var line := LineAt(data, pos);
    if line.Closed? then read == Malformed
    else
      var text, next := SizeText(line.text), line.next;
      var size := ParseSize(text);
      && next <= |data|
      && (read.LastChunk? <==> text == [] || size == Some(0))
      && (read.Chunk? <==> text != [] && size.Some? && 0 < size.value <= |data| - next)
      && (read.Chunk? ==>
            && read.bytes == data[next..next + size.value]
            && read.next == if next + size.value + 2 <= |data| then next + size.value + 2 else |data|)
      && (read.LastChunk? ==>
            var blank := LineAt(data, next);
            read.end == if text == [] then next else if blank.Line? then blank.next else |data|)
  }

  /** These chunks are read one after another, and reading goes on at `at`. */
  ghost predicate Follows(data: seq<byte>, pos: nat, chunks: seq<seq<byte>>, at: nat)
    requires pos <= |data|
    decreases |chunks|
  {
    if chunks == [] then at == pos
    else
      var read := ChunkAt(data, pos);
      read.Chunk? && read.bytes == chunks[0] && Follows(data, read.next, chunks[1..], at)
  }

  function Joined(chunks: seq<seq<byte>>): seq<byte> {
    if chunks == [] then [] else chunks[0] + Joined(chunks[1..])
  }

  lemma {:induction false} BodyIsChunks(data: seq<byte>, pos: nat) returns (chunks: seq<seq<byte>>, at: nat)
    requires pos <= |data|
    ensures at <= |data| && Follows(data, pos, chunks, at)
    ensures match BodyAt(data, pos)
            case Body(content, end) => ChunkAt(data, at) == LastChunk(end) && content == Joined(chunks)
            case Broken => ChunkAt(data, at) == Malformed
    decreases |data| - pos
  {
    var read := ChunkAt(data, pos);
    if read.Chunk? {
      var rest;
      rest, at := BodyIsChunks(data, read.next);
      chunks := [read.bytes] + rest;
      assert chunks[1..] == rest;
    } else {
      chunks, at := [], pos;
    }
  }

  lemma {:induction false} StripCrIs(s: seq<byte>)
    ensures StripCr(s) == Filter(s, (b: byte) => b != 13)
    ensures StripCr(s) == [] <==> forall j | 0 <= j < |s| :: s[j] == 13
    decreases |s|
  {
    if s != [] {
      StripCrIs(s[..|s| - 1]);
    }
  }

  /** What a whole read of a line finds. */
  lemma LineAtIs(data: seq<byte>, pos: nat)
    requires pos <= |data|
    ensures var i := LineFeed(data, pos);
            && StripCr(data[pos..i]) == Filter(data[pos..i], (b: byte) => b != 13)
            && (StripCr(data[pos..i]) == [] <==> forall j | pos <= j < i :: data[j] == 13)
  {
    var i := LineFeed(data, pos);
    StripCrIs(data[pos..i]);
    assert forall j | pos <= j < i :: data[j] == data[pos..i][j - pos];
  }

  class Reader {
    const data: seq<byte>
    var pos: nat

    constructor (data: seq<byte>)
      ensures this.data == data && pos == 0
    {
      this.data := data;
      pos := 0;
    }

    /** Up to the first line feed, or to the end: closed when nothing but carriage returns is left. */
    method ReadLine() returns (line: Option<seq<byte>>)
      requires pos <= |data|
      modifies this
      ensures pos <= |data|
      ensures match LineAt(data, old(pos))
              case Closed => line.None? && pos == |data|
              case Line(text, next) => line == Some(text) && pos == next
      ensures var i := LineFeed(data, old(pos));
              && pos == (if i < |data| then i + 1 else |data|)
              && (line == None <==> i == |data| && forall j | old(pos) <= j < |data| :: data[j] == 13)
              && (line.Some? ==> line.value == Filter(data[old(pos)..i], (b: byte) => b != 13))
    {
      LineAtIs(data, pos);
      line := TakeLine();
    }

    method TakeLine() returns (line: Option<seq<byte>>)
      requires pos <= |data|
      modifies this
      ensures pos <= |data|
      ensures match LineAt(data, old(pos))
              case Closed => line.None? && pos == |data|
              case Line(text, next) => line == Some(text) && pos == next
    {
      var text: seq<byte> := [];
      while pos < |data|
        invariant old(pos) <= pos <= |data|
        invariant LineFeed(data, pos) == LineFeed(data, old(pos))
        invariant text == StripCr(data[old(pos)..pos])
      {
        var b := data[pos];
        pos := pos + 1;
        if b == LF {
          return Some(text);
        }
        StripCrGrows(data, old(pos), pos - 1);
        if b != CR {
          text := text + [b];
        }
      }
      if text == [] {
        return None;
      }
      return Some(text);
    }

    method ReadChunk() returns (read: ChunkRead)
      requires pos <= |data|
      modifies this
      ensures pos <= |data| && read == ChunkAt(data, old(pos))
      ensures read.Chunk? ==> pos == read.next
      ensures read.LastChunk? ==> pos == read.end
      ensures ReadsAs(data, old(pos), read)
    {
      var line := ReadLine();
      if line.None? {
        return Malformed;
      }
      var text := SizeText(line.value);
      if text == [] {
        return LastChunk(pos);
      }
      var size := ParseSize(text);
      if size.None? {
        return Malformed;
      }
      if size.value == 0 {
        var _ := ReadLine();
        return LastChunk(pos);
      }
      if pos + size.value > |data| {
        pos := |data|;
        return Malformed;
      }
      var bytes := data[pos..pos + size.value];
      pos := pos + size.value;
      pos := Least(pos + 2, |data|);
      return Chunk(bytes, pos);
    }

    method ReadBody() returns (read: BodyRead)
      requires pos <= |data|
      modifies this
      ensures read == BodyAt(data, old(pos))
      ensures read.Body? ==> pos == read.end
      // Chunk after chunk up to the last, joined; or broken at the first that cannot be read.
      ensures exists chunks, at: nat ::
                && at <= |data| && Follows(data, old(pos), chunks, at)
                && match read
                   case Body(content, end) => ChunkAt(data, at) == LastChunk(end) && content == Joined(chunks)
                   case Broken => ChunkAt(data, at) == Malformed
    {
      ghost var chunks, at := BodyIsChunks(data, pos);
      var content: seq<byte> := [];
      while true
        invariant pos <= |data|
        invariant BodyAt(data, old(pos)) ==
                  match BodyAt(data, pos)
                  case Broken => Broken
                  case Body(rest, end) => Body(content + rest, end)
        decreases |data| - pos
      {
        var chunk := ReadChunk();
        match chunk {
          case Malformed =>
            return Broken;
          case LastChunk(_) =>
            assert content + [] == content;
            return Body(content, pos);
          case Chunk(bytes, _) =>
            AppendAssociates(content, bytes, BodyAt(data, pos));
            content := content + bytes;
        }
      }
    }
  }

  lemma AppendAssociates(a: seq<byte>, b: seq<byte>, r: BodyRead)
    ensures r.Body? ==> a + (b + r.content) == (a + b) + r.content
  {
  }

  // ------------------------------------------------------------ the round trip

  /** One chunk as written: any spelling of its size, an optional extension (white space may precede it), its bytes. */
  datatype Part = Part(size: seq<byte>, gap: seq<byte>, extension: seq<byte>, payload: seq<byte>)

  const CRLF: seq<byte> := [CR, LF]

  /** Blanks, as may stand before the semicolon of an extension. */
  predicate IsBlank(gap: seq<byte>) {
    forall i | 0 <= i < |gap| :: gap[i] == 32 || gap[i] == 9
  }

  predicate IsExtension(e: seq<byte>) {
    && (e != [] ==> e[0] == SEMICOLON)
    && forall i | 0 <= i < |e| :: e[i] != LF
  }

  /** The byte is this digit, as a lower-case or an upper-case letter from ten on. */
  predicate IsDigit(b: byte, d: nat) {
    if d < 10 then b as int == '0' as int + d
    else d < 16 && (b as int == 'a' as int + (d - 10) || b as int == 'A' as int + (d - 10))
  }

  function Power16(n: nat): nat {
    if n == 0 then 1 else 16 * Power16(n - 1)
  }

  /** The number that digits stand for, each weighed by its place. */
  function Weighed(digits: seq<nat>): int {
    if digits == [] then 0 else digits[0] * Power16(|digits| - 1) + Weighed(digits[1..])
  }

  predicate WrittenAs(size: seq<byte>, digits: seq<nat>) {
    |size| == |digits| && forall i | 0 <= i < |size| :: IsDigit(size[i], digits[i])
  }

  /** Hexadecimal digits in either case, leading zeros allowed, of value `n`, which must fit in 64 bits. */
  ghost predicate Spells(size: seq<byte>, n: nat) {
    size != [] && n < 0x1_0000_0000_0000_0000 && exists digits :: WrittenAs(size, digits) && Weighed(digits) == n
  }

  lemma {:induction false} WeighedGrows(digits: seq<nat>, d: nat)
    ensures Weighed(digits + [d]) == 16 * Weighed(digits) + d
    decreases |digits|
  {
    var all := digits + [d];
    if digits != [] {
      WeighedGrows(digits[1..], d);
      assert all[1..] == digits[1..] + [d];
    }
  }

  lemma {:induction false} DigitsAreRead(size: seq<byte>, digits: seq<nat>)
    requires WrittenAs(size, digits)
    ensures HexValue(size).Some? && HexValue(size).value == Weighed(digits)
    decreases |size|
  {
    if size != [] {
      var n := |size| - 1;
      DigitsAreRead(size[..n], digits[..n]);
      WeighedGrows(digits[..n], digits[n]);
      assert digits == digits[..n] + [digits[n]];
    }
  }

  lemma {:induction false} ReadAreDigits(size: seq<byte>) returns (digits: seq<nat>)
    requires HexValue(size).Some?
    ensures WrittenAs(size, digits)
    decreases |size|
  {
    if size == [] {
      digits := [];
    } else {
      var n := |size| - 1;
      digits := ReadAreDigits(size[..n]);
      digits := digits + [HexDigit(size[n]).value];
    }
  }

  /** A size is read exactly from an optional plus and digits, and as the number they spell. */
  lemma SizeIsReadIff(text: seq<byte>, n: nat)
    ensures ParseSize(text) == Some(n) <==> Spells(text, n) || (text != [] && text[0] == 43 && Spells(text[1..], n))
  {
    SpellsIff(text, n);
    if text != [] {
      SpellsIff(text[1..], n);
      if text[0] == 43 {
        PlusIsNoDigit(text);
      }
    }
  }

  lemma PlusIsNoDigit(text: seq<byte>)
    requires text != [] && text[0] == 43
    ensures HexValue(text) == None
  {
    if HexValue(text).Some? {
      HexValueMeansDigits(text);
    }
  }

  lemma SpellsIff(size: seq<byte>, n: nat)
    ensures Spells(size, n) <==> size != [] && HexValue(size) == Some(n) && n < SIZE_LIMIT
  {
    if size != [] && HexValue(size) == Some(n) {
      var digits := ReadAreDigits(size);
      DigitsAreRead(size, digits);
    }
    if Spells(size, n) {
      var digits :| WrittenAs(size, digits) && Weighed(digits) == n;
      DigitsAreRead(size, digits);
    }
  }

  ghost predicate WellFormed(p: Part) {
    Spells(p.size, |p.payload|) && IsBlank(p.gap) && IsExtension(p.extension)
  }

  function EncodePart(p: Part): seq<byte> {
    (p.size + p.gap) + p.extension + CRLF + p.payload + CRLF
  }

  /** The parts, then the last one, which is empty. */
  function Encode(parts: seq<Part>, last: Part): seq<byte> {
    if parts == [] then EncodePart(last) else EncodePart(parts[0]) + Encode(parts[1..], last)
  }

  function Payload(parts: seq<Part>): seq<byte> {
    if parts == [] then [] else parts[0].payload + Payload(parts[1..])
  }

  lemma {:induction false} HexValueMeansDigits(s: seq<byte>)
    requires HexValue(s).Some?
    ensures forall i | 0 <= i < |s| :: HexDigit(s[i]).Some?
    decreases |s|
  {
    if s != [] {
      HexValueMeansDigits(s[..|s| - 1]);
      assert s == s[..|s| - 1] + [s[|s| - 1]];
    }
  }

  lemma {:induction false} StripCrAppend(a: seq<byte>, b: seq<byte>)
    ensures StripCr(a + b) == StripCr(a) + StripCr(b)
    decreases |b|
  {
    if b == [] {
      assert a + b == a;
    } else {
      StripCrAppend(a, b[..|b| - 1]);
      assert (a + b)[..|a + b| - 1] == a + b[..|b| - 1];
    }
  }

  lemma {:induction false} StripCrKeeps(s: seq<byte>)
    requires forall i | 0 <= i < |s| :: s[i] != CR
    ensures StripCr(s) == s
    decreases |s|
  {
    if s != [] {
      StripCrKeeps(s[..|s| - 1]);
      assert s == s[..|s| - 1] + [s[|s| - 1]];
    }
  }

  /** `x` is what the data holds from `pos` on. */
  ghost predicate At(data: seq<byte>, pos: nat, x: seq<byte>) {
    pos + |x| <= |data| && data[pos..pos + |x|] == x
  }

  lemma AtSplits(data: seq<byte>, pos: nat, x: seq<byte>, y: seq<byte>)
    requires At(data, pos, x + y)
    ensures At(data, pos, x) && At(data, pos + |x|, y)
  {
    var both := data[pos..pos + |x + y|];
    assert data[pos..pos + |x|] == both[..|x|];
    assert data[pos + |x|..pos + |x| + |y|] == both[|x|..];
  }

  lemma CrlfSplits(line: seq<byte>)
    ensures line + CRLF == (line + [CR]) + [LF]
  {
  }

  lemma AtIndex(data: seq<byte>, pos: nat, x: seq<byte>, j: nat)
    requires At(data, pos, x) && j < |x|
    ensures data[pos + j] == x[j]
  {
  }

  /** Where a line without line feeds, followed by one, ends. */
  lemma {:induction false} LineEndsAt(data: seq<byte>, pos: nat, line: seq<byte>)
    requires At(data, pos, line) && At(data, pos + |line|, [LF])
    requires forall i | 0 <= i < |line| :: line[i] != LF
    ensures LineFeed(data, pos) == pos + |line|
  {
    AtIndex(data, pos + |line|, [LF], 0);
    forall j | pos <= j < pos + |line| ensures data[j] != LF {
      AtIndex(data, pos, line, j - pos);
    }
    LineFeedIs(data, pos, pos + |line|);
  }

  /** A line that holds no line feed is read whole, less its carriage returns. */
  lemma {:induction false} ReadsLine(data: seq<byte>, pos: nat, line: seq<byte>)
    requires At(data, pos, line + CRLF)
    requires forall i | 0 <= i < |line| :: line[i] != LF
    ensures LineAt(data, pos) == Line(StripCr(line), pos + |line| + 2)
  {
    var text := line + [CR];
    CrlfSplits(line);
    AtSplits(data, pos, text, [LF]);
    StripCrLine(line);
    LineEndsAt(data, pos, text);
    LineUpTo(data, pos, text);
  }

  lemma StripCrLine(line: seq<byte>)
    requires forall i | 0 <= i < |line| :: line[i] != LF
    ensures StripCr(line + [CR]) == StripCr(line)
    ensures forall i | 0 <= i < |line + [CR]| :: (line + [CR])[i] != LF
  {
    StripCrAppend(line, [CR]);
    StripCrOfCr();
  }

  lemma LineUpTo(data: seq<byte>, pos: nat, text: seq<byte>)
    requires At(data, pos, text) && pos + |text| < |data| && LineFeed(data, pos) == pos + |text|
    ensures LineAt(data, pos) == Line(StripCr(text), pos + |text| + 1)
  {
  }

  lemma StripCrOfCr()
    ensures StripCr([CR]) == []
  {
  }

  lemma {:induction false} LineFeedIs(data: seq<byte>, pos: nat, lf: nat)
    requires pos <= lf < |data| && data[lf] == LF
    requires forall j | pos <= j < lf :: data[j] != LF
    ensures LineFeed(data, pos) == lf
    decreases lf - pos
  {
    if pos < lf {
      LineFeedIs(data, pos + 1, lf);
    }
  }

  lemma {:induction false} BeforeSemicolonIs(size: seq<byte>, extension: seq<byte>)
    requires forall i | 0 <= i < |size| :: size[i] != SEMICOLON
    requires extension != [] ==> extension[0] == SEMICOLON
    ensures BeforeSemicolon(size + extension) == size
    decreases |size|
  {
    if size == [] {
      assert size + extension == extension;
    } else {
      BeforeSemicolonIs(size[1..], extension);
      assert (size + extension)[1..] == size[1..] + extension;
    }
  }

  lemma StrippedExtension(e: seq<byte>)
    requires e != [] && e[0] == SEMICOLON
    ensures StripCr(e) != [] && StripCr(e)[0] == SEMICOLON
  {
  }

  lemma HexDigitsArePlain(size: seq<byte>)
    requires HexValue(size).Some?
    ensures forall i | 0 <= i < |size| ::
              size[i] != CR && size[i] != LF && size[i] != SEMICOLON && size[i] != PLUS && !IsSpace(size[i])
  {
  }

  /** Spaces, tabs and line breaks. */
  predicate AllSpace(s: seq<byte>) {
    forall i | 0 <= i < |s| :: s[i] == 32 || 9 <= s[i] <= 13
  }

  lemma {:induction false} TrimStartOf(lead: seq<byte>, s: seq<byte>)
    requires AllSpace(lead) && (s == [] || !AllSpace(s[..1]))
    ensures TrimStart(lead + s) == s
    decreases |lead|
  {
    if lead == [] {
      assert lead + s == s;
    } else {
      TrimStartOf(lead[1..], s);
      assert (lead + s)[1..] == lead[1..] + s;
    }
  }

  lemma {:induction false} TrimEndOf(s: seq<byte>, gap: seq<byte>)
    requires AllSpace(gap) && (s == [] || !AllSpace(s[|s| - 1..]))
    ensures TrimEnd(s + gap) == s
    decreases |gap|
  {
    if gap == [] {
      assert s + gap == s;
    } else {
      TrimEndOf(s, gap[..|gap| - 1]);
      assert (s + gap)[..|s + gap| - 1] == s + gap[..|gap| - 1];
    }
  }

  /** The size is what stands before a semicolon, without the white space around it. */
  lemma {:induction false} SizeTextIs(lead: seq<byte>, text: seq<byte>, gap: seq<byte>, extension: seq<byte>)
    requires AllSpace(lead) && AllSpace(gap) && (extension == [] || extension[0] == 59)
    requires text == [] || (!AllSpace(text[..1]) && !AllSpace(text[|text| - 1..]))
    requires forall i | 0 <= i < |text| :: text[i] != 59
    ensures SizeText(lead + (text + gap) + extension) == text
  {
    BeforeSemicolonIs(lead + (text + gap), extension);
    if text == [] {
      assert lead + (text + gap) == (lead + gap) + [];
      TrimStartOf(lead + gap, []);
    } else {
      assert (text + gap)[..1] == text[..1];
      TrimStartOf(lead, text + gap);
      TrimEndOf(text, gap);
    }
  }

  /** A size line gives back its size, whatever blanks and extension follow. */
  lemma {:induction false} SizeLineReads(size: seq<byte>, gap: seq<byte>, extension: seq<byte>, n: nat)
    requires Spells(size, n) && IsBlank(gap) && IsExtension(extension)
    ensures SizeText(StripCr((size + gap) + extension)) == size && ParseSize(size) == Some(n)
    ensures forall i | 0 <= i < |(size + gap) + extension| :: ((size + gap) + extension)[i] != LF
  {
    SpellsIff(size, n);
    HexDigitsArePlain(size);
    StripSizeLine(size + gap, extension);
    SizeOfLine(size, gap, StripCr(extension));
  }

  lemma {:induction false} SizeOfLine(size: seq<byte>, gap: seq<byte>, extension: seq<byte>)
    requires size != [] && IsBlank(gap) && (extension == [] || extension[0] == SEMICOLON)
    requires forall i | 0 <= i < |size| :: size[i] != SEMICOLON && !IsSpace(size[i])
    ensures SizeText(size + gap + extension) == size
  {
    assert !AllSpace(size[..1]) by { assert size[..1][0] == size[0]; }
    assert !AllSpace(size[|size| - 1..]) by { assert size[|size| - 1..][0] == size[|size| - 1]; }
    SizeTextIs([], size, gap, extension);
    assert [] + (size + gap) == size + gap;
  }

  lemma StripSizeLine(size: seq<byte>, extension: seq<byte>)
    requires forall i | 0 <= i < |size| :: size[i] != CR
    requires extension != [] ==> extension[0] == SEMICOLON
    ensures StripCr(size + extension) == size + StripCr(extension)
    ensures StripCr(extension) != [] ==> StripCr(extension)[0] == SEMICOLON
  {
    StripCrAppend(size, extension);
    StripCrKeeps(size);
    if extension != [] {
      StrippedExtension(extension);
    }
  }

  lemma {:induction false} ReadsSizeLine(data: seq<byte>, pos: nat, p: Part)
    requires WellFormed(p) && At(data, pos, EncodePart(p))
    ensures var line := (p.size + p.gap) + p.extension;
            && LineAt(data, pos) == Line(StripCr(line), pos + |line| + 2)
            && SizeText(StripCr(line)) == p.size && ParseSize(p.size) == Some(|p.payload|)
            && At(data, pos + |line| + 2, p.payload + CRLF)
  {
    var line := (p.size + p.gap) + p.extension;
    SizeLineReads(p.size, p.gap, p.extension, |p.payload|);
    PartSplits(p);
    AtSplits(data, pos, line + CRLF, p.payload + CRLF);
    ReadsLine(data, pos, line);
  }

  lemma PartSplits(p: Part)
    ensures EncodePart(p) == ((p.size + p.gap) + p.extension + CRLF) + (p.payload + CRLF)
  {
  }

  lemma {:induction false} ReadsPart(data: seq<byte>, pos: nat, p: Part)
    requires WellFormed(p) && p.payload != [] && At(data, pos, EncodePart(p))
    ensures ChunkAt(data, pos) == Chunk(p.payload, pos + |EncodePart(p)|)
  {
    ReadsSizeLine(data, pos, p);
    AtSplits(data, pos + |(p.size + p.gap) + p.extension| + 2, p.payload, CRLF);
  }

  lemma {:induction false} ReadsLast(data: seq<byte>, pos: nat, last: Part)
    requires WellFormed(last) && last.payload == [] && At(data, pos, EncodePart(last))
    ensures ChunkAt(data, pos) == LastChunk(pos + |EncodePart(last)|)
  {
    ReadsSizeLine(data, pos, last);
    ReadsLine(data, pos + |(last.size + last.gap) + last.extension| + 2, []);
  }

  /**
   Whatever was chunked is read back: for every payload, however it was split
   and its sizes spelled, the read returns it and stops right after the final
   blank line.
   */
  lemma {:induction false} DecodeUndoesEncode(data: seq<byte>, pos: nat, parts: seq<Part>, last: Part)
    requires forall i | 0 <= i < |parts| :: WellFormed(parts[i]) && parts[i].payload != []
    requires WellFormed(last) && last.payload == []
    requires At(data, pos, Encode(parts, last))
    ensures BodyAt(data, pos) == Body(Payload(parts), pos + |Encode(parts, last)|)
    decreases |parts|
  {
    if parts == [] {
      ReadsEmpty(data, pos, last);
    } else {
      var next := ReadsFirst(data, pos, parts, last);
      DecodeUndoesEncode(data, next, parts[1..], last);
      BodyGoesOn(data, pos, parts[0].payload, next);
    }
  }

  lemma {:induction false} ReadsEmpty(data: seq<byte>, pos: nat, last: Part)
    requires WellFormed(last) && last.payload == [] && At(data, pos, EncodePart(last))
    ensures BodyAt(data, pos) == Body([], pos + |EncodePart(last)|)
  {
    ReadsLast(data, pos, last);
  }

  /** Reads the first part; `next` is where the others follow. */
  lemma {:induction false} ReadsFirst(data: seq<byte>, pos: nat, parts: seq<Part>, last: Part) returns (next: nat)
    requires parts != [] && WellFormed(parts[0]) && parts[0].payload != []
    requires At(data, pos, Encode(parts, last))
    ensures next == pos + |EncodePart(parts[0])|
    ensures ChunkAt(data, pos) == Chunk(parts[0].payload, next)
    ensures At(data, next, Encode(parts[1..], last))
    ensures pos + |Encode(parts, last)| == next + |Encode(parts[1..], last)|
  {
    var first, tail := EncodePart(parts[0]), Encode(parts[1..], last);
    AtSplits(data, pos, first, tail);
    ReadsPart(data, pos, parts[0]);
    next := pos + |first|;
  }

  lemma BodyGoesOn(data: seq<byte>, pos: nat, bytes: seq<byte>, next: nat)
    requires pos <= |data| && ChunkAt(data, pos) == Chunk(bytes, next)
    requires next <= |data| && BodyAt(data, next).Body?
    ensures BodyAt(data, pos) == Body(bytes + BodyAt(data, next).content, BodyAt(data, next).end)
  {
  }

  // -------------------------------------------------- every size has a spelling

  function HexByte(d: nat): byte
    requires d < 16
  {
    if d < 10 then (48 + d) as byte else (87 + d) as byte
  }

  function Hex(n: nat): seq<byte> {
    if n < 16 then [HexByte(n)] else Hex(n / 16) + [HexByte(n % 16)]
  }

  lemma {:induction false} HexSpells(n: nat)
    ensures Hex(n) != [] && HexValue(Hex(n)) == Some(n)
    decreases n
  {
    if n < 16 {
      assert Hex(n)[..|Hex(n)| - 1] == [];
    } else {
      HexSpells(n / 16);
      assert Hex(n)[..|Hex(n)| - 1] == Hex(n / 16);
    }
  }
}
