/** The text operations of the standard library that the parsers rely on. */
module Text {
  import opened Sequences

  /** Unicode's White_Space property. */
  predicate IsWhitespace(c: char) {
    || '\U{09}' <= c <= '\U{0D}' || c == ' ' || c == '\U{85}' || c == '\U{A0}' || c == '\U{1680}'
    || '\U{2000}' <= c <= '\U{200A}' || c == '\U{2028}' || c == '\U{2029}' || c == '\U{202F}'
    || c == '\U{205F}' || c == '\U{3000}'
  }

  predicate AllWhitespace(s: string) {
    forall i | 0 <= i < |s| :: IsWhitespace(s[i])
  }

  predicate NoWhitespace(s: string) {
    forall i | 0 <= i < |s| :: !IsWhitespace(s[i])
  }

  predicate OneLine(s: string) {
    forall i | 0 <= i < |s| :: s[i] != '\n'
  }

  predicate StartsWith(s: string, prefix: string) {
    prefix <= s
  }

  function TrimStart(s: string): string {
    if s != [] && IsWhitespace(s[0]) then TrimStart(s[1..]) else s
  }

  function TrimEnd(s: string): string {
    if s != [] && IsWhitespace(s[|s| - 1]) then TrimEnd(s[..|s| - 1]) else s
  }

  function Trim(s: string): string {
    TrimStart(TrimEnd(s))
  }

  /** The line as `lines` yields it: a carriage return before the line feed belongs to the ending. */
  function DropCr(line: string): string {
    if line != [] && line[|line| - 1] == '\r' then line[..|line| - 1] else line
  }

  function LineFeed(s: string, from: nat): (i: nat)
    requires from <= |s|
    ensures from <= i <= |s| && (i < |s| ==> s[i] == '\n')
    ensures forall j | from <= j < i :: s[j] != '\n'
    decreases |s| - from
  {
    if from == |s| || s[from] == '\n' then from else LineFeed(s, from + 1)
  }

  function Lines(text: string): seq<string> {
    if text == [] then []
    else
      var i := LineFeed(text, 0);
      if i == |text| then [text] else [DropCr(text[..i])] + Lines(text[i + 1..])
  }

  function Unlines(lines: seq<string>): string {
    if lines == [] then [] else lines[0] + "\n" + Unlines(lines[1..])
  }

  function DropCrs(lines: seq<string>): seq<string> {
    seq(|lines|, i requires 0 <= i < |lines| => DropCr(lines[i]))
  }

  lemma {:induction false} FirstLineFeed(line: string, rest: string)
    requires OneLine(line)
    ensures var text := line + "\n" + rest;
            && LineFeed(text, 0) == |line|
            && text[..|line|] == line
            && text[|line| + 1..] == rest
  {
    var text := line + "\n" + rest;
    assert text[|line|] == '\n';
    assert forall j | 0 <= j < |line| :: text[j] == line[j];
  }

  /** Reading back written lines gives them, less one trailing carriage return each. */
  lemma {:induction false} LinesOfUnlines(lines: seq<string>)
    requires forall i | 0 <= i < |lines| :: OneLine(lines[i])
    ensures Lines(Unlines(lines)) == DropCrs(lines)
    decreases |lines|
  {
    if lines != [] {
      LinesOfFirst(lines[0], Unlines(lines[1..]));
      LinesOfUnlines(lines[1..]);
      DropCrsOfFirst(lines);
    }
  }

  lemma {:induction false} LinesOfFirst(line: string, rest: string)
    requires OneLine(line)
    ensures Lines(line + "\n" + rest) == [DropCr(line)] + Lines(rest)
  {
    FirstLineFeed(line, rest);
  }

  lemma DropCrsOfFirst(lines: seq<string>)
    requires lines != []
    ensures DropCrs(lines) == [DropCr(lines[0])] + DropCrs(lines[1..])
  {
  }

  lemma {:induction false} LinesAreOneLine(text: string)
    ensures forall i | 0 <= i < |Lines(text)| :: OneLine(Lines(text)[i])
    decreases |text|
  {
    if text != [] {
      var i := LineFeed(text, 0);
      if i < |text| {
        LinesAreOneLine(text[i + 1..]);
      }
    }
  }

  /** Nothing, or lines that are all ended. */
  predicate Complete(text: string) {
    text == [] || text[|text| - 1] == '\n'
  }

  /** Text that has a line feed, cut at the first one. */
  lemma CutFirst(text: string) returns (line: string, rest: string)
    requires LineFeed(text, 0) < |text|
    ensures text == (line + "\n") + rest && OneLine(line)
    ensures Complete(text) ==> Complete(rest)
  {
    var i := LineFeed(text, 0);
    line, rest := text[..i], text[i + 1..];
  }

  lemma {:induction false} CompleteHasLineFeed(text: string)
    requires Complete(text) && text != []
    ensures LineFeed(text, 0) < |text|
  {
  }

  /** Lines of complete text stay what they are when more text follows. */
  lemma {:induction false} LinesAppend(a: string, b: string)
    requires Complete(a)
    ensures Lines(a + b) == Lines(a) + Lines(b)
    decreases |a|
  {
    if a == [] {
      assert a + b == b;
    } else {
      CompleteHasLineFeed(a);
      var line, rest := CutFirst(a);
      LinesAppend(rest, b);
      LinesAppendOne(line, rest, b);
    }
  }

  lemma {:induction false} LinesAppendOne(line: string, rest: string, b: string)
    requires OneLine(line) && Lines(rest + b) == Lines(rest) + Lines(b)
    ensures Lines(line + "\n" + rest + b) == Lines(line + "\n" + rest) + Lines(b)
  {
    LinesOfFirst(line, rest);
    LinesOfFirst(line, rest + b);
    Associate(line + "\n", rest, b);
    Associate([DropCr(line)], Lines(rest), Lines(b));
  }

  lemma FirstOfLines(first: string, others: seq<string>, n: nat)
    requires 1 <= n <= 1 + |others|
    ensures ([first] + others)[..n] == [first] + others[..n - 1]
    ensures ([first] + others)[n..] == others[n - 1..]
  {
  }

  /** Any text can be cut after any number of its lines. */
  lemma {:induction false} CutLines(text: string, n: nat) returns (a: string, b: string)
    requires n <= |Lines(text)|
    ensures text == a + b && Lines(a) == Lines(text)[..n] && Lines(b) == Lines(text)[n..]
    ensures Complete(a) || b == []
    decreases n
  {
    if n == 0 {
      a, b := [], text;
    } else if LineFeed(text, 0) == |text| {
      a, b := text, [];
      OneWhole(text);
    } else {
      var line, rest := CutFirst(text);
      LinesOfFirst(line, rest);
      FirstOfLines(DropCr(line), Lines(rest), n);
      var c;
      c, b := CutLines(rest, n - 1);
      a := line + "\n" + c;
      LinesOfFirst(line, c);
      Associate(line + "\n", c, b);
      CompleteGrows(line + "\n", c);
    }
  }

  /** Text without a line feed is one line, or none. */
  lemma OneWhole(text: string)
    requires LineFeed(text, 0) == |text|
    ensures |Lines(text)| <= 1 && Lines(text)[..|Lines(text)|] == Lines(text) && text + "" == text
  {
  }

  lemma CompleteGrows(a: string, b: string)
    requires Complete(a)
    ensures Complete(b) ==> Complete(a + b)
  {
  }

  /** A line as it stands in a file, with what ends it. */
  datatype Ended = Ended(line: string, ending: string)

  /** Ended by a line feed, with or without a carriage return before it; only the last line may have no ending. */
  predicate WellEnded(lines: seq<Ended>) {
    forall i | 0 <= i < |lines| ::
      && OneLine(lines[i].line)
      && (|| (lines[i].ending == "\n" && (lines[i].line == "" || lines[i].line[|lines[i].line| - 1] != '\r'))
          || lines[i].ending == "\r\n"
          || (lines[i].ending == "" && i == |lines| - 1 && lines[i].line != ""))
  }

  function Whole(lines: seq<Ended>): string {
    if lines == [] then "" else lines[0].line + lines[0].ending + Whole(lines[1..])
  }

  function Bare(lines: seq<Ended>): seq<string> {
    if lines == [] then [] else [lines[0].line] + Bare(lines[1..])
  }

  /** A file is read as its lines, without their endings. */
  lemma {:induction false} LinesOfWhole(lines: seq<Ended>)
    requires WellEnded(lines)
    ensures Lines(Whole(lines)) == Bare(lines)
    decreases |lines|
  {
    if lines != [] {
      var line, ending, rest := lines[0].line, lines[0].ending, lines[1..];
      LinesOfWhole(rest);
      if ending == "" {
        assert rest == [];
        LastLine(line);
      } else if ending == "\n" {
        LinesOfFirst(line, Whole(rest));
      } else {
        assert line + ending + Whole(rest) == (line + "\r") + "\n" + Whole(rest);
        LinesOfFirst(line + "\r", Whole(rest));
        assert (line + "\r")[..|line|] == line;
      }
    }
  }

  lemma {:induction false} LastLine(line: string)
    requires OneLine(line) && line != ""
    ensures Lines(line + "" + "") == [line]
  {
    assert line + "" + "" == line;
  }

  // ------------------------------------------------------------------ words

  function Word(s: string): (w: string)
    ensures w <= s && NoWhitespace(w)
    ensures |w| < |s| ==> IsWhitespace(s[|w|])
  {
    if s == [] || IsWhitespace(s[0]) then [] else [s[0]] + Word(s[1..])
  }

  lemma {:induction false} TrimStartIs(s: string)
    ensures |TrimStart(s)| <= |s|
    ensures TrimStart(s) == [] || !IsWhitespace(TrimStart(s)[0])
    decreases |s|
  {
    if s != [] && IsWhitespace(s[0]) {
      TrimStartIs(s[1..]);
    }
  }

  function SplitWhitespace(s: string): seq<string>
    decreases |s|
  {
    TrimStartIs(s);
    var t := TrimStart(s);
    if t == [] then [] else [Word(t)] + SplitWhitespace(t[|Word(t)|..])
  }

  lemma {:induction false} TrimStartSkips(gap: string, s: string)
    requires AllWhitespace(gap)
    ensures TrimStart(gap + s) == TrimStart(s)
    decreases |gap|
  {
    if gap == [] {
      assert gap + s == s;
    } else {
      TrimStartSkips(gap[1..], s);
      assert (gap + s)[1..] == gap[1..] + s;
    }
  }

  /** A line starts with a word after its white space exactly when it is white space, that word and anything. */
  lemma {:induction false} StartsAfterBlanks(line: string, prefix: string)
    requires prefix != [] && !IsWhitespace(prefix[0])
    ensures StartsWith(TrimStart(line), prefix) <==>
            exists indent: string, rest: string :: AllWhitespace(indent) && line == indent + (prefix + rest)
  {
    if StartsWith(TrimStart(line), prefix) {
      var indent := BlanksBefore(line);
      var rest := TrimStart(line)[|prefix|..];
      assert TrimStart(line) == prefix + rest;
      assert line == indent + (prefix + rest);
    }
    if indent: string, rest: string :| AllWhitespace(indent) && line == indent + (prefix + rest) {
      TrimStartSkips(indent, prefix + rest);
      assert (prefix + rest)[0] == prefix[0];
    }
  }

  lemma {:induction false} BlanksBefore(line: string) returns (indent: string)
    ensures AllWhitespace(indent) && line == indent + TrimStart(line)
    decreases |line|
  {
    if line != [] && IsWhitespace(line[0]) {
      var rest := BlanksBefore(line[1..]);
      indent := [line[0]] + rest;
    } else {
      indent := [];
    }
  }

  lemma {:induction false} TrimEndSkips(s: string, gap: string)
    requires AllWhitespace(gap)
    ensures TrimEnd(s + gap) == TrimEnd(s)
    decreases |gap|
  {
    if gap == [] {
      assert s + gap == s;
    } else {
      TrimEndSkips(s, gap[..|gap| - 1]);
      assert (s + gap)[..|s + gap| - 1] == s + gap[..|gap| - 1];
    }
  }

  lemma {:induction false} WordIs(w: string, s: string)
    requires NoWhitespace(w) && (s == [] || IsWhitespace(s[0]))
    ensures Word(w + s) == w
    decreases |w|
  {
    if w == [] {
      assert w + s == s;
    } else {
      WordIs(w[1..], s);
      assert (w + s)[1..] == w[1..] + s;
    }
  }

  // -------------------------------------------------------- spaced-out fields

  predicate IsField(f: string) {
    f != [] && NoWhitespace(f)
  }

  predicate IsGap(g: string) {
    g != [] && AllWhitespace(g)
  }

  /** Fields with a gap after each but the last. */
  function Spaced(fields: seq<string>, gaps: seq<string>): string
    requires |gaps| + 1 == |fields|
  {
    if gaps == [] then fields[0] else fields[0] + (gaps[0] + Spaced(fields[1..], gaps[1..]))
  }

  ghost predicate WellSpaced(fields: seq<string>, gaps: seq<string>) {
    && |gaps| + 1 == |fields|
    && (forall i | 0 <= i < |fields| :: IsField(fields[i]))
    && (forall i | 0 <= i < |gaps| :: IsGap(gaps[i]))
  }

  lemma {:induction false} SpacedEnds(fields: seq<string>, gaps: seq<string>)
    requires WellSpaced(fields, gaps)
    ensures var s := Spaced(fields, gaps);
            s != [] && !IsWhitespace(s[0]) && !IsWhitespace(s[|s| - 1])
    decreases |gaps|
  {
    if gaps != [] {
      SpacedEnds(fields[1..], gaps[1..]);
    }
  }

  /** Splitting gives back the fields, however they are spaced. */
  lemma {:induction false} SplitOfSpaced(fields: seq<string>, gaps: seq<string>)
    requires WellSpaced(fields, gaps)
    ensures SplitWhitespace(Spaced(fields, gaps)) == fields
    decreases |gaps|
  {
    var s := Spaced(fields, gaps);
    SpacedEnds(fields, gaps);
    if gaps == [] {
      WordIs(s, []);
      assert s + [] == s;
    } else {
      var tail := Spaced(fields[1..], gaps[1..]);
      WordIs(fields[0], gaps[0] + tail);
      assert s[|fields[0]|..] == gaps[0] + tail;
      SplitSkips(gaps[0], tail);
      SplitOfSpaced(fields[1..], gaps[1..]);
    }
  }

  lemma SplitSkips(gap: string, s: string)
    requires AllWhitespace(gap)
    ensures SplitWhitespace(gap + s) == SplitWhitespace(s)
  {
    TrimStartSkips(gap, s);
  }
}
