/**
 Reading the runtime's listing of its credential pool. An entry's id may hold
 spaces and even the words that name a kind, so the kind is found from the
 right; the main result is that every listing is read back exactly.
 */
module PoolListing {
  import opened Options
  import opened Text
  import opened Credentials

  const POOL_KINDS: seq<string> := ["oauth", "api-key", "api_key"]
  const MAX_LABEL_LENGTH: nat := 64

  /** Bytes of a character in UTF-8. */
  function Utf8Length(c: char): nat {
    if c < '\U{80}' then 1 else if c < '\U{800}' then 2 else if c < '\U{10000}' then 3 else 4
  }

  function ByteLength(s: string): nat {
    if s == [] then 0 else ByteLength(s[..|s| - 1]) + Utf8Length(s[|s| - 1])
  }

  predicate IsControl(c: char) {
    c <= '\U{1F}' || '\U{7F}' <= c <= '\U{9F}'
  }

  predicate IsUsableId(id: string) {
    id != [] && ByteLength(id) <= MAX_LABEL_LENGTH && forall i | 0 <= i < |id| :: !IsControl(id[i])
  }

  predicate IsIndex(s: string) {
    forall i | 0 <= i < |s| :: '0' <= s[i] <= '9'
  }

  function Join(fields: seq<string>): string {
    if fields == [] then [] else if |fields| == 1 then fields[0] else fields[0] + " " + Join(fields[1..])
  }

  /** The last position from 2 up to `end` that names a kind; 0 when there is none. */
  function KindBefore(fields: seq<string>, end: nat): (k: nat)
    requires end <= |fields|
    ensures k == 0 || (2 <= k < end && fields[k] in POOL_KINDS)
  {
    if end <= 2 then 0
    else if fields[end - 1] in POOL_KINDS then end - 1
    else KindBefore(fields, end - 1)
  }

  function ParseLine(line: string): Option<PoolEntry> {
    var text := Trim(line);
    if text == [] || text[0] != '#' then None
    else
      var fields := SplitWhitespace(text[1..]);
      if fields == [] || !IsIndex(fields[0]) then None
      else
        var k := KindBefore(fields, |fields|);
        if k == 0 then None
        else
          var id := Join(fields[1..k]);
          if IsUsableId(id) then Some(PoolEntry(id, fields[k])) else None
  }

  /** The entries of some lines; a line that does not parse is skipped. */
  function ParseLines(lines: seq<string>): seq<PoolEntry> {
    if lines == [] then []
    else
      var entry := ParseLine(lines[|lines| - 1]);
      ParseLines(lines[..|lines| - 1]) + if entry.Some? then [entry.value] else []
  }

  method ParsePoolListing(text: string) returns (entries: seq<PoolEntry>)
    ensures entries == ParseLines(Lines(text))
  {
    entries := [];
    var lines := Lines(text);
    for n := 0 to |lines|
      invariant entries == ParseLines(lines[..n])
    {
      assert lines[..n + 1][..n] == lines[..n];
      var line := Trim(lines[n]);
      if line == [] || line[0] != '#' {
        continue;
      }
      var fields := SplitWhitespace(line[1..]);
      if fields == [] || !IsIndex(fields[0]) {
        continue;
      }
      var kindAt := FindKind(fields);
      if kindAt == 0 {
        continue;
      }
      var id := Join(fields[1..kindAt]);
      if !IsUsableId(id) {
        continue;
      }
      entries := entries + [PoolEntry(id, fields[kindAt])];
    }
    assert lines[..|lines|] == lines;
  }

  method FindKind(fields: seq<string>) returns (kindAt: nat)
    ensures kindAt == KindBefore(fields, |fields|)
  {
    var position: nat := |fields|;
    while position > 2
      invariant position <= |fields|
      invariant KindBefore(fields, position) == KindBefore(fields, |fields|)
    {
      position := position - 1;
      if fields[position] in POOL_KINDS {
        return position;
      }
    }
    return 0;
  }

  /** A name that can be carried and handed back: not empty, at most 64 bytes, no control character. */
  ghost predicate Carried(id: string) {
    && id != "" && ByteLength(id) <= 64
    && forall i | 0 <= i < |id| :: !(id[i] <= '\U{1F}' || '\U{7F}' <= id[i] <= '\U{9F}')
  }

  ghost predicate NamesKind(field: string) {
    field == "oauth" || field == "api-key" || field == "api_key"
  }

  ghost predicate IsNumber(field: string) {
    forall i | 0 <= i < |field| :: '0' <= field[i] <= '9'
  }

  /** Words with one space between them. */
  ghost function Named(words: seq<string>): string
    requires words != []
  {
    Spaced(words, seq(|words| - 1, _ => " "))
  }

  lemma {:induction false} JoinIsNamed(words: seq<string>)
    requires words != []
    ensures Join(words) == Named(words)
    decreases |words|
  {
    var gaps := seq(|words| - 1, _ => " ");
    if |words| > 1 {
      JoinIsNamed(words[1..]);
      assert gaps[1..] == seq(|words[1..]| - 1, _ => " ");
      assert words[0] + (" " + Join(words[1..])) == words[0] + " " + Join(words[1..]);
    }
  }

  /** A byte for every ASCII character, and never less than one nor more than four for any. */
  lemma {:induction false} ByteLengthBounds(s: string)
    ensures |s| <= ByteLength(s) <= 4 * |s|
    ensures (forall i | 0 <= i < |s| :: s[i] <= '\U{7F}') <==> ByteLength(s) == |s|
    decreases |s|
  {
    if s != [] {
      ByteLengthBounds(s[..|s| - 1]);
      assert s == s[..|s| - 1] + [s[|s| - 1]];
    }
  }

  lemma {:induction false} KindIsLast(fields: seq<string>, end: nat)
    requires end <= |fields|
    ensures var k := KindBefore(fields, end);
            && (k == 0 ==> forall j | 2 <= j < end :: !NamesKind(fields[j]))
            && (k > 0 ==> 2 <= k < end && NamesKind(fields[k]) && forall j | k < j < end :: !NamesKind(fields[j]))
    decreases end
  {
    if end > 2 {
      KindIsLast(fields, end - 1);
    }
  }

  /** The fields of a line: an index, the words of an id up to the last field that names a kind, and what follows. */
  ghost predicate Reads(fields: seq<string>, k: nat, e: PoolEntry) {
    && 2 <= k < |fields| && IsNumber(fields[0])
    && e.kind == fields[k] && NamesKind(fields[k])
    && (forall j | k < j < |fields| :: !NamesKind(fields[j]))
    && e.id == Named(fields[1..k]) && Carried(e.id)
  }

  ghost predicate ReadAs(fields: seq<string>, e: PoolEntry) {
    exists k: nat :: Reads(fields, k, e)
  }

  /** A line gives an entry exactly when it is a number sign and such fields; any other line is skipped. */
  lemma ParseLineIff(line: string, e: PoolEntry)
    ensures ParseLine(line) == Some(e) <==>
            && Trim(line) != "" && Trim(line)[0] == '#'
            && ReadAs(SplitWhitespace(Trim(line)[1..]), e)
  {
    if Trim(line) != "" && Trim(line)[0] == '#' {
      var fields := SplitWhitespace(Trim(line)[1..]);
      KindIsLast(fields, |fields|);
      var k := KindBefore(fields, |fields|);
      if k > 0 {
        JoinIsNamed(fields[1..k]);
      }
      if ParseLine(line) == Some(e) {
        assert Reads(fields, k, e);
      }
      if j: nat :| Reads(fields, j, e) {
        assert j == k && IsIndex(fields[0]) && IsUsableId(e.id);
      }
    }
  }

  /** Whatever the text, what is read can be carried and handed back: a usable id and a known kind. */
  lemma {:induction false} ParsedAreUsable(lines: seq<string>)
    ensures forall e | e in ParseLines(lines) :: Carried(e.id) && NamesKind(e.kind)
    decreases |lines|
  {
    if lines != [] {
      ParsedAreUsable(lines[..|lines| - 1]);
    }
  }

  // ---------------------------------------------------------- the round trip

  /**
   A line of a listing: a heading, or an entry with its index, the words of its
   id, its kind and any further columns, spaced in any way.
   */
  datatype ListingLine =
    | Heading(text: string)
    | EntryLine(indent: string, index: string, words: seq<string>, kind: string, columns: seq<string>,
                gaps: seq<string>, tail: string)

  function Fields(l: ListingLine): seq<string>
    requires l.EntryLine?
  {
    [l.index] + l.words + [l.kind] + l.columns
  }

  ghost predicate WellFormed(l: ListingLine) {
    match l
    case Heading(text) => OneLine(text) && (Trim(text) == [] || Trim(text)[0] != '#')
    case EntryLine(indent, index, words, kind, columns, gaps, tail) =>
      && AllWhitespace(indent) && AllWhitespace(tail)
      && WellSpaced(Fields(l), gaps)
      && OneLine(indent + "#" + Spaced(Fields(l), gaps) + tail)
      && IsNumber(index)
      && words != [] && Carried(Named(words))
      && NamesKind(kind)
      && forall i | 0 <= i < |columns| :: !NamesKind(columns[i])
  }

  ghost function Render(l: ListingLine): string
    requires WellFormed(l)
  {
    match l
    case Heading(text) => text
    case EntryLine(indent, _, _, _, _, gaps, tail) => indent + "#" + Spaced(Fields(l), gaps) + tail
  }

  ghost function Entries(listing: seq<ListingLine>): seq<PoolEntry> {
    if listing == [] then []
    else
      var l := listing[|listing| - 1];
      Entries(listing[..|listing| - 1]) + if l.EntryLine? && l.words != [] then [PoolEntry(Named(l.words), l.kind)] else []
  }

  /** From the right, the kind is found before any kind word inside the id. */
  lemma {:induction false} KindIsFound(l: ListingLine, end: nat)
    requires l.EntryLine? && l.words != [] && NamesKind(l.kind)
    requires forall i | 0 <= i < |l.columns| :: !NamesKind(l.columns[i])
    requires |l.words| + 2 <= end <= |Fields(l)|
    ensures KindBefore(Fields(l), end) == |l.words| + 1
    decreases end
  {
    var fields := Fields(l);
    if end == |l.words| + 2 {
      assert fields[end - 1] == l.kind;
    } else {
      assert fields[end - 1] == l.columns[end - 1 - |l.words| - 2];
      KindIsFound(l, end - 1);
    }
  }

  lemma TrimOfEntry(indent: string, body: string, tail: string)
    requires AllWhitespace(indent) && AllWhitespace(tail)
    requires body != [] && !IsWhitespace(body[|body| - 1])
    ensures Trim(indent + "#" + body + tail) == "#" + body
    ensures ("#" + body)[0] == '#' && ("#" + body)[1..] == body
  {
    var line := indent + "#" + body;
    TrimEndSkips(line, tail);
    assert line[|line| - 1] == body[|body| - 1];
    assert TrimEnd(line) == line;
    assert line == indent + ("#" + body);
    TrimStartSkips(indent, "#" + body);
    assert ("#" + body)[0] == '#';
  }

  lemma {:induction false} ParseOfEntry(l: ListingLine)
    requires l.EntryLine? && WellFormed(l)
    ensures ParseLine(Render(l)) == Some(PoolEntry(Named(l.words), l.kind))
  {
    JoinIsNamed(l.words);
    UsableIsCarried(Named(l.words));
    ParseOfJoined(l);
  }

  lemma UsableIsCarried(id: string)
    ensures IsUsableId(id) <==> Carried(id)
  {
  }

  lemma {:induction false} ParseOfJoined(l: ListingLine)
    requires l.EntryLine? && AllWhitespace(l.indent) && AllWhitespace(l.tail) && WellSpaced(Fields(l), l.gaps)
    requires IsNumber(l.index) && l.words != [] && IsUsableId(Join(l.words)) && NamesKind(l.kind)
    requires forall i | 0 <= i < |l.columns| :: !NamesKind(l.columns[i])
    ensures ParseLine(l.indent + "#" + Spaced(Fields(l), l.gaps) + l.tail) == Some(PoolEntry(Join(l.words), l.kind))
  {
    var fields := Fields(l);
    var body := Spaced(fields, l.gaps);
    SpacedEnds(fields, l.gaps);
    TrimOfEntry(l.indent, body, l.tail);
    SplitOfSpaced(fields, l.gaps);
    KindIsFound(l, |fields|);
    FieldsApart(l);
    ParseOfFields(l.indent + "#" + body + l.tail, body, fields, |l.words| + 1);
  }

  lemma ParseOfFields(line: string, body: string, fields: seq<string>, k: nat)
    requires Trim(line) == "#" + body && SplitWhitespace(body) == fields
    requires 0 < k < |fields| && IsIndex(fields[0]) && KindBefore(fields, |fields|) == k
    requires IsUsableId(Join(fields[1..k]))
    ensures ParseLine(line) == Some(PoolEntry(Join(fields[1..k]), fields[k]))
  {
    assert ("#" + body)[0] == '#' && ("#" + body)[1..] == body;
  }

  lemma FieldsApart(l: ListingLine)
    requires l.EntryLine?
    ensures Fields(l)[0] == l.index && Fields(l)[|l.words| + 1] == l.kind
    ensures Fields(l)[1..|l.words| + 1] == l.words
  {
  }

  /** A carriage return left of the line feed makes no difference. */
  lemma ParseIgnoresCr(line: string)
    ensures ParseLine(DropCr(line)) == ParseLine(line)
  {
  }

  lemma ParseOfRendered(l: ListingLine)
    requires WellFormed(l)
    ensures ParseLine(DropCr(Render(l))) ==
            if l.EntryLine? then Some(PoolEntry(Named(l.words), l.kind)) else None
  {
    ParseIgnoresCr(Render(l));
    if l.EntryLine? {
      ParseOfEntry(l);
    }
  }

  ghost function RenderAll(listing: seq<ListingLine>): seq<string>
    requires forall i | 0 <= i < |listing| :: WellFormed(listing[i])
  {
    seq(|listing|, i requires 0 <= i < |listing| => Render(listing[i]))
  }

  lemma {:induction false} ParseOfRenderedLines(listing: seq<ListingLine>)
    requires forall i | 0 <= i < |listing| :: WellFormed(listing[i])
    ensures ParseLines(DropCrs(RenderAll(listing))) == Entries(listing)
    decreases |listing|
  {
    if listing != [] {
      var init, last := listing[..|listing| - 1], listing[|listing| - 1];
      ParseOfRenderedLines(init);
      ParseOfRendered(last);
      RenderedInit(listing);
    }
  }

  lemma RenderedInit(listing: seq<ListingLine>)
    requires listing != [] && forall i | 0 <= i < |listing| :: WellFormed(listing[i])
    ensures var lines := DropCrs(RenderAll(listing));
            && lines[..|lines| - 1] == DropCrs(RenderAll(listing[..|listing| - 1]))
            && lines[|lines| - 1] == DropCr(Render(listing[|listing| - 1]))
  {
  }

  lemma RenderedIsOneLine(l: ListingLine)
    requires WellFormed(l)
    ensures OneLine(Render(l))
  {
  }

  lemma RenderedAreOneLine(listing: seq<ListingLine>)
    requires forall i | 0 <= i < |listing| :: WellFormed(listing[i])
    ensures forall i | 0 <= i < |listing| :: OneLine(RenderAll(listing)[i])
  {
    forall i | 0 <= i < |listing| ensures OneLine(RenderAll(listing)[i]) {
      RenderedIsOneLine(listing[i]);
    }
  }

  /**
   Every listing is read back exactly: each entry's id whole, with its kind, in
   order, and headings ignored.
   */
  lemma {:induction false} ParseUndoesListing(listing: seq<ListingLine>)
    requires forall i | 0 <= i < |listing| :: WellFormed(listing[i])
    ensures ParseLines(Lines(Unlines(RenderAll(listing)))) == Entries(listing)
  {
    RenderedAreOneLine(listing);
    LinesOfUnlines(RenderAll(listing));
    ParseOfRenderedLines(listing);
  }
}
