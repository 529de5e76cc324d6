/**
 Editing one block of a configuration file the Node does not own, and reading
 the allowlist back.

 `RewriteLines` says what the edit does by position: the lines before the key
 and the lines after its items stay, and only the block between is new.
 */
module Approvals {
  import opened Options
  import opened Sequences
  import opened Text

  const KEY := "command_allowlist:"
  const ITEM := "- "
  const ESCAPE := '\U{1B}'

  predicate IsKey(line: string) {
    StartsWith(TrimStart(line), KEY)
  }

  predicate IsItem(line: string) {
    StartsWith(TrimStart(line), ITEM)
  }

  /** The first key line at or after `from`, or the number of lines. */
  function KeyAt(lines: seq<string>, from: nat): (k: nat)
    requires from <= |lines|
    ensures from <= k <= |lines| && (k < |lines| ==> IsKey(lines[k]))
    ensures forall j | from <= j < k :: !IsKey(lines[j])
    decreases |lines| - from
  {
    if from == |lines| || IsKey(lines[from]) then from else KeyAt(lines, from + 1)
  }

  /** Where the run of items that starts at `from` ends. */
  function ItemsEnd(lines: seq<string>, from: nat): (e: nat)
    requires from <= |lines|
    ensures from <= e <= |lines| && (e < |lines| ==> !IsItem(lines[e]))
    ensures forall j | from <= j < e :: IsItem(lines[j])
    decreases |lines| - from
  {
    if from == |lines| || !IsItem(lines[from]) then from else ItemsEnd(lines, from + 1)
  }

  function Block(entries: seq<string>): seq<string> {
    [KEY] + seq(|entries|, i requires 0 <= i < |entries| => ITEM + entries[i])
  }

  /** `None` when the file has no such key. */
  function RewriteLines(lines: seq<string>, entries: seq<string>): Option<seq<string>> {
    var k := KeyAt(lines, 0);
    if k == |lines| then None
    else Some(lines[..k] + Block(entries) + lines[ItemsEnd(lines, k + 1)..])
  }

  function RewriteText(text: string, entries: seq<string>): Option<string> {
    match RewriteLines(Lines(text), entries)
    case None => None
    case Some(lines) => Some(Unlines(lines))
  }

  // ------------------------------------------------------------------ the edit

  /** What has been written once the first `i` lines are dealt with. */
  ghost predicate Written(lines: seq<string>, entries: seq<string>, i: nat, replaced: bool, written: seq<string>) {
    var k := KeyAt(lines, 0);
    && i <= |lines|
    && (!replaced ==> i <= k && written == lines[..i])
    && (replaced ==>
          && k < |lines|
          && ItemsEnd(lines, k + 1) <= i
          && written == lines[..k] + Block(entries) + lines[ItemsEnd(lines, k + 1)..i])
  }

  lemma CopyWrites(lines: seq<string>, entries: seq<string>, i: nat, replaced: bool, written: seq<string>)
    requires Written(lines, entries, i, replaced, written) && i < |lines| && (replaced || !IsKey(lines[i]))
    ensures Written(lines, entries, i + 1, replaced, written + [lines[i]])
  {
    if replaced {
      SliceGrows(lines, ItemsEnd(lines, KeyAt(lines, 0) + 1), i);
    }
  }

  lemma BlockWrites(lines: seq<string>, entries: seq<string>, i: nat, written: seq<string>)
    requires Written(lines, entries, i, false, written) && i < |lines| && IsKey(lines[i])
    ensures Written(lines, entries, ItemsEnd(lines, i + 1), true, written + Block(entries))
  {
  }

  lemma AllWritten(lines: seq<string>, entries: seq<string>, replaced: bool, written: seq<string>)
    requires Written(lines, entries, |lines|, replaced, written)
    ensures RewriteLines(lines, entries) == if replaced then Some(written) else None
  {
    if replaced {
      var e := ItemsEnd(lines, KeyAt(lines, 0) + 1);
      assert lines[e..|lines|] == lines[e..];
    }
  }

  method RewriteAllowlist(text: string, entries: seq<string>) returns (out: Option<string>)
    ensures out == RewriteText(text, entries)
  {
    var lines := Lines(text);
    var written: seq<string> := [];
    var replaced := false;
    var i: nat := 0;
    while i < |lines|
      invariant Written(lines, entries, i, replaced, written)
      decreases |lines| - i
    {
      if IsKey(lines[i]) && !replaced {
        BlockWrites(lines, entries, i, written);
        written := WriteBlock(written, entries);
        i := SkipItems(lines, i + 1);
        replaced := true;
      } else {
        CopyWrites(lines, entries, i, replaced, written);
        written := written + [lines[i]];
        i := i + 1;
      }
    }
    AllWritten(lines, entries, replaced, written);
    if !replaced {
      return None;
    }
    return Some(Unlines(written));
  }

  method WriteBlock(before: seq<string>, entries: seq<string>) returns (written: seq<string>)
    ensures written == before + Block(entries)
  {
    written := before + [KEY];
    for n := 0 to |entries|
      invariant written == before + Block(entries[..n])
    {
      BlockGrows(entries, n);
      written := written + [ITEM + entries[n]];
    }
    assert entries[..|entries|] == entries;
  }

  method SkipItems(lines: seq<string>, from: nat) returns (i: nat)
    requires from <= |lines|
    ensures i == ItemsEnd(lines, from)
  {
    i := from;
    while i < |lines| && IsItem(lines[i])
      invariant from <= i <= |lines|
      invariant ItemsEnd(lines, i) == ItemsEnd(lines, from)
    {
      i := i + 1;
    }
  }

  lemma BlockGrows(entries: seq<string>, n: nat)
    requires n < |entries|
    ensures Block(entries[..n + 1]) == Block(entries[..n]) + [ITEM + entries[n]]
  {
  }

  // ------------------------------------------------------------ last write wins

  lemma ItemIsItem(entry: string)
    ensures IsItem(ITEM + entry)
  {
  }

  lemma KeyIsKey()
    ensures IsKey(KEY)
  {
  }

  lemma {:induction false} KeyAtIs(lines: seq<string>, from: nat, k: nat)
    requires from <= k < |lines| && IsKey(lines[k])
    requires forall j | from <= j < k :: !IsKey(lines[j])
    ensures KeyAt(lines, from) == k
    decreases k - from
  {
    if from < k {
      KeyAtIs(lines, from + 1, k);
    }
  }

  lemma {:induction false} ItemsEndIs(lines: seq<string>, from: nat, e: nat)
    requires from <= e <= |lines| && (e < |lines| ==> !IsItem(lines[e]))
    requires forall j | from <= j < e :: IsItem(lines[j])
    ensures ItemsEnd(lines, from) == e
    decreases e - from
  {
    if from < e {
      ItemsEndIs(lines, from + 1, e);
    }
  }

  /** Where the block is in a file that was just written around it. */
  lemma {:induction false} BlockIsFound(before: seq<string>, block: seq<string>, after: seq<string>)
    requires forall j | 0 <= j < |before| :: !IsKey(before[j])
    requires block != [] && IsKey(block[0])
    requires forall j | 1 <= j < |block| :: IsItem(block[j])
    requires after != [] ==> !IsItem(after[0])
    ensures var lines := before + block + after;
            KeyAt(lines, 0) == |before| && ItemsEnd(lines, |before| + 1) == |before| + |block|
  {
    var lines := before + block + after;
    var k, e := |before|, |before| + |block|;
    forall j | 0 <= j < k ensures !IsKey(lines[j]) {
      assert lines[j] == before[j];
    }
    IndexMiddle(before, block, after, k);
    KeyAtIs(lines, 0, k);
    forall j | k + 1 <= j < e ensures IsItem(lines[j]) {
      IndexMiddle(before, block, after, j);
    }
    if after != [] {
      assert lines[e] == after[0];
    }
    ItemsEndIs(lines, k + 1, e);
  }

  lemma BlockIsBlock(entries: seq<string>)
    ensures IsKey(Block(entries)[0])
    ensures forall j | 1 <= j < |Block(entries)| :: IsItem(Block(entries)[j])
  {
    KeyIsKey();
    forall j | 1 <= j < |Block(entries)| ensures IsItem(Block(entries)[j]) {
      ItemIsItem(entries[j - 1]);
    }
  }

  /** The lines an edit leaves alone. */
  function Before(lines: seq<string>): seq<string> {
    lines[..KeyAt(lines, 0)]
  }

  function Behind(lines: seq<string>): seq<string>
    requires KeyAt(lines, 0) < |lines|
  {
    lines[ItemsEnd(lines, KeyAt(lines, 0) + 1)..]
  }

  /** Editing twice is editing once, with the later entries. */
  lemma {:induction false} LastRewriteWins(lines: seq<string>, a: seq<string>, b: seq<string>)
    requires RewriteLines(lines, a).Some?
    ensures RewriteLines(RewriteLines(lines, a).value, b) == RewriteLines(lines, b)
  {
    BlockIsBlock(a);
    BlockIsFound(Before(lines), Block(a), Behind(lines));
    Append3(Before(lines), Block(a), Behind(lines));
  }

  // -------------------------------------------------------- carriage returns

  predicate EndsInCr(line: string) {
    line != [] && line[|line| - 1] == '\r'
  }

  /** A trailing carriage return never decides what a line is. */
  lemma {:induction false} DropCrKeepsPrefix(line: string, prefix: string)
    requires prefix != [] && !IsWhitespace(prefix[0]) && forall i | 0 <= i < |prefix| :: prefix[i] != '\r'
    ensures StartsWith(TrimStart(DropCr(line)), prefix) <==> StartsWith(TrimStart(line), prefix)
    decreases |line|
  {
    if EndsInCr(line) && IsWhitespace(line[0]) {
      if |line| > 1 {
        DropCrKeepsPrefix(line[1..], prefix);
        assert DropCr(line)[1..] == DropCr(line[1..]);
      }
    } else if EndsInCr(line) {
      assert line == DropCr(line) + "\r";
      if prefix <= line {
        assert prefix[|prefix| - 1] == line[|prefix| - 1];
      }
    }
  }

  lemma DropCrKeepsKind(line: string)
    ensures IsKey(DropCr(line)) <==> IsKey(line)
    ensures IsItem(DropCr(line)) <==> IsItem(line)
  {
    DropCrKeepsPrefix(line, KEY);
    DropCrKeepsPrefix(line, ITEM);
  }

  lemma DropCrsAppend(a: seq<string>, b: seq<string>)
    ensures DropCrs(a + b) == DropCrs(a) + DropCrs(b)
  {
  }

  /** Reading a written file back and editing it again. */
  lemma {:induction false} RewriteOfWritten(before: seq<string>, block: seq<string>, after: seq<string>, b: seq<string>)
    requires forall j | 0 <= j < |before| :: !IsKey(before[j])
    requires block != [] && IsKey(block[0])
    requires forall j | 1 <= j < |block| :: IsItem(block[j])
    requires after != [] ==> !IsItem(after[0])
    ensures RewriteLines(DropCrs(before + block + after), b) == Some(DropCrs(before) + Block(b) + DropCrs(after))
  {
    forall line: string ensures (IsKey(DropCr(line)) <==> IsKey(line)) && (IsItem(DropCr(line)) <==> IsItem(line)) {
      DropCrKeepsKind(line);
    }
    DropCrsAppend(before + block, after);
    DropCrsAppend(before, block);
    BlockIsFound(DropCrs(before), DropCrs(block), DropCrs(after));
    Append3(DropCrs(before), DropCrs(block), DropCrs(after));
  }

  lemma {:induction false} UnlinesAppend(a: seq<string>, b: seq<string>)
    ensures Unlines(a + b) == Unlines(a) + Unlines(b)
    decreases |a|
  {
    if a == [] {
      assert a + b == b;
    } else {
      UnlinesAppend(a[1..], b);
      assert (a + b)[1..] == a[1..] + b;
    }
  }

  /** Dropping carriage returns shortens the text exactly when there are any. */
  lemma {:induction false} DropCrsShortens(lines: seq<string>)
    ensures |Unlines(DropCrs(lines))| <= |Unlines(lines)|
    ensures |Unlines(DropCrs(lines))| == |Unlines(lines)| <==> forall i | 0 <= i < |lines| :: !EndsInCr(lines[i])
    decreases |lines|
  {
    if lines != [] {
      DropCrsShortens(lines[1..]);
      assert DropCrs(lines)[1..] == DropCrs(lines[1..]);
      assert (forall i | 0 <= i < |lines| :: !EndsInCr(lines[i])) <==>
             !EndsInCr(lines[0]) && forall i | 0 <= i < |lines[1..]| :: !EndsInCr(lines[1..][i]);
    }
  }

  lemma {:induction false} DropCrsKeeps(lines: seq<string>)
    requires forall i | 0 <= i < |lines| :: !EndsInCr(lines[i])
    ensures DropCrs(lines) == lines
  {
  }

  /** No line outside the block still ends in a carriage return. */
  predicate KeptLinesAreClean(lines: seq<string>)
    requires KeyAt(lines, 0) < |lines|
  {
    && (forall i | 0 <= i < |Before(lines)| :: !EndsInCr(Before(lines)[i]))
    && (forall i | 0 <= i < |Behind(lines)| :: !EndsInCr(Behind(lines)[i]))
  }

  lemma SurroundedEqual(x: string, x': string, m: string, y: string, y': string)
    requires |x'| <= |x| && |y'| <= |y|
    ensures x' + m + y' == x + m + y ==> |x'| == |x| && |y'| == |y|
  {
    if x' + m + y' == x + m + y {
      assert |x' + m + y'| == |x + m + y|;
    }
  }

  /**
   On whole files the later edit wins exactly when no kept line still ends in a
   carriage return: writing such a line turns it into a line ending, and the
   next edit drops it.
   */
  lemma {:induction false} LastRewriteWinsOnFilesIff(text: string, a: seq<string>, b: seq<string>)
    requires RewriteText(text, a).Some?
    requires forall i | 0 <= i < |a| :: OneLine(a[i])
    ensures RewriteText(RewriteText(text, a).value, b) == RewriteText(text, b) <==> KeptLinesAreClean(Lines(text))
  {
    var lines := Lines(text);
    var before, behind := Before(lines), Behind(lines);
    WrittenLinesReadBack(text, a);
    BlockIsBlock(a);
    RewriteOfWritten(before, Block(a), behind, b);
    var once := Unlines(before + Block(b) + behind);
    var twice := Unlines(DropCrs(before) + Block(b) + DropCrs(behind));
    Unlines3(before, Block(b), behind);
    Unlines3(DropCrs(before), Block(b), DropCrs(behind));
    DropCrsShortens(before);
    DropCrsShortens(behind);
    SurroundedEqual(Unlines(before), Unlines(DropCrs(before)), Unlines(Block(b)), Unlines(behind), Unlines(DropCrs(behind)));
    if KeptLinesAreClean(lines) {
      DropCrsKeeps(before);
      DropCrsKeeps(behind);
    }
  }

  lemma Unlines3(a: seq<string>, b: seq<string>, c: seq<string>)
    ensures Unlines(a + b + c) == Unlines(a) + Unlines(b) + Unlines(c)
  {
    UnlinesAppend(a + b, c);
    UnlinesAppend(a, b);
  }

  lemma {:induction false} WrittenLinesReadBack(text: string, a: seq<string>)
    requires RewriteText(text, a).Some?
    requires forall i | 0 <= i < |a| :: OneLine(a[i])
    ensures var lines := Lines(text);
            Lines(RewriteText(text, a).value) == DropCrs(Before(lines) + Block(a) + Behind(lines))
  {
    var lines := Lines(text);
    LinesAreOneLine(text);
    var written := Before(lines) + Block(a) + Behind(lines);
    BlockIsOneLine(a);
    OneLineAppend(Before(lines), Block(a));
    OneLineAppend(Before(lines) + Block(a), Behind(lines));
    LinesOfUnlines(written);
  }

  lemma BlockIsOneLine(a: seq<string>)
    requires forall i | 0 <= i < |a| :: OneLine(a[i])
    ensures forall i | 0 <= i < |Block(a)| :: OneLine(Block(a)[i])
  {
    forall i | 0 <= i < |Block(a)| ensures OneLine(Block(a)[i]) {
      if i > 0 {
        assert Block(a)[i] == ITEM + a[i - 1];
      }
    }
  }

  lemma OneLineAppend(a: seq<string>, b: seq<string>)
    requires forall i | 0 <= i < |a| :: OneLine(a[i])
    requires forall i | 0 <= i < |b| :: OneLine(b[i])
    ensures forall i | 0 <= i < |a + b| :: OneLine((a + b)[i])
  {
  }

  /** Text made of complete lines, each ended by a bare line feed. */
  predicate UnixLines(text: string) {
    && (text != [] ==> text[|text| - 1] == '\n')
    && forall i | 0 <= i < |text| - 1 :: !(text[i] == '\r' && text[i + 1] == '\n')
  }

  /** Text is what its lines are written back as exactly when it is in this form. */
  lemma {:induction false} RejoinsIff(text: string)
    ensures Unlines(Lines(text)) == text <==> UnixLines(text)
    decreases |text|
  {
    if text != [] {
      if LineFeed(text, 0) == |text| {
        assert |Unlines([text])| == |text| + 1;
      } else {
        var line, rest := CutFirst(text);
        LinesOfFirst(line, rest);
        RejoinsIff(rest);
        if EndsInCr(line) {
          LineShrinks(line, Unlines(Lines(rest)), rest);
          CrIsNotUnix(line, rest);
        } else {
          Cancel(line, "\n", Unlines(Lines(rest)), rest);
          UnixLinesSplit(line, rest);
        }
      }
    }
  }

  lemma CrIsNotUnix(line: string, rest: string)
    requires EndsInCr(line)
    ensures !UnixLines(line + "\n" + rest)
  {
    var text, i := line + "\n" + rest, |line| - 1;
    assert text[i] == '\r' && text[i + 1] == '\n';
  }

  lemma UnixLinesSplit(line: string, rest: string)
    requires OneLine(line) && !EndsInCr(line)
    ensures UnixLines(line + "\n" + rest) <==> UnixLines(rest)
  {
    var text := line + "\n" + rest;
    assert forall j | 0 <= j < |rest| :: rest[j] == text[|line| + 1 + j];
    assert text[|line|] == '\n';
    if UnixLines(text) {
      forall j | 0 <= j < |rest| - 1 ensures !(rest[j] == '\r' && rest[j + 1] == '\n') {
        assert !(text[|line| + 1 + j] == '\r' && text[(|line| + 1 + j) + 1] == '\n');
      }
    }
    if UnixLines(rest) {
      forall i | 0 <= i < |text| - 1 ensures !(text[i] == '\r' && text[i + 1] == '\n') {
        if i > |line| {
          assert text[i] == rest[i - |line| - 1] && text[i + 1] == rest[(i - |line| - 1) + 1];
        }
      }
    }
  }

  /** A file in three: what precedes the key line, the key line and its items, and what follows. */
  ghost predicate IsCut(text: string, pre: string, block: string, post: string) {
    && text == pre + (block + post)
    && Complete(pre) && (Complete(block) || post == [])
    && (forall j | 0 <= j < |Lines(pre)| :: !IsKey(Lines(pre)[j]))
    && Lines(block) != [] && IsKey(Lines(block)[0])
    && (forall j | 1 <= j < |Lines(block)| :: IsItem(Lines(block)[j]))
    && (Lines(post) != [] ==> !IsItem(Lines(post)[0]))
  }

  /** Every file an edit accepts can be cut so. */
  lemma {:induction false} EveryFileIsCut(text: string, entries: seq<string>) returns (pre: string, block: string, post: string)
    requires RewriteText(text, entries).Some?
    ensures IsCut(text, pre, block, post)
  {
    var lines := Lines(text);
    var k := KeyAt(lines, 0);
    var e := ItemsEnd(lines, k + 1);
    var rest;
    pre, rest := CutLines(text, k);
    block, post := CutLines(rest, e - k);
    CutSlices(lines, k, e);
  }

  lemma CutSlices(lines: seq<string>, k: nat, e: nat)
    requires k < e <= |lines|
    ensures lines[k..][..e - k] == lines[k..e] && lines[k..][e - k..] == lines[e..]
  {
  }

  lemma {:induction false} LinesOfCut(text: string, pre: string, block: string, post: string)
    requires text == pre + (block + post) && Complete(pre) && (Complete(block) || post == [])
    ensures Lines(text) == Lines(pre) + Lines(block) + Lines(post)
  {
    LinesAppend(pre, block + post);
    if Complete(block) {
      LinesAppend(block, post);
    } else {
      assert block + post == block;
      assert Lines(block) + Lines(post) == Lines(block);
    }
    assert Lines(pre) + (Lines(block) + Lines(post)) == Lines(pre) + Lines(block) + Lines(post);
  }

  lemma {:induction false} RewriteOfCut(text: string, pre: string, block: string, post: string, entries: seq<string>)
    requires IsCut(text, pre, block, post)
    ensures RewriteText(text, entries) ==
            Some(Unlines(Lines(pre)) + Unlines(Block(entries)) + Unlines(Lines(post)))
  {
    LinesOfCut(text, pre, block, post);
    BlockIsFound(Lines(pre), Lines(block), Lines(post));
    Append3(Lines(pre), Lines(block), Lines(post));
    Unlines3(Lines(pre), Block(entries), Lines(post));
  }

  /** Complete lines that are not in this form come back different, whatever follows them. */
  lemma {:induction false} RejoinDiffers(pre: string, x: string, y: string)
    requires Complete(pre) && !UnixLines(pre)
    ensures Unlines(Lines(pre)) + x != pre + y
    decreases |pre|
  {
    CompleteHasLineFeed(pre);
    var line, rest := CutFirst(pre);
    LinesOfFirst(line, rest);
    if EndsInCr(line) {
      LineShrinks(line, Unlines(Lines(rest)) + x, rest + y);
    } else {
      UnixLinesSplit(line, rest);
      RejoinDiffers(rest, x, y);
      Cancel(line, "\n", Unlines(Lines(rest)) + x, rest + y);
    }
    Associate(DropCr(line) + "\n", Unlines(Lines(rest)), x);
    Associate(line + "\n", rest, y);
  }

  /** A line that lost its carriage return cannot be made up for by what follows. */
  lemma LineShrinks(line: string, x: string, y: string)
    requires EndsInCr(line)
    ensures DropCr(line) + "\n" + x != line + "\n" + y
  {
    assert (DropCr(line) + "\n" + x)[|line| - 1] == '\n';
    assert (line + "\n" + y)[|line| - 1] == '\r';
  }

  lemma Cancel(pre: string, m: string, x: string, y: string)
    ensures pre + m + x == pre + m + y <==> x == y
  {
    if pre + m + x == pre + m + y {
      assert (pre + m + x)[|pre + m|..] == x;
      assert (pre + m + y)[|pre + m|..] == y;
    }
  }

  /**
   An edit keeps every byte outside the block exactly when the text before the
   block and the text after it are made of complete lines ended by bare line
   feeds; how the replaced lines were ended makes no difference.
   */
  lemma {:induction false} KeptBytesIff(text: string, pre: string, block: string, post: string, entries: seq<string>)
    requires IsCut(text, pre, block, post)
    ensures RewriteText(text, entries) == Some(pre + Unlines(Block(entries)) + post) <==> UnixLines(pre) && UnixLines(post)
  {
    var m := Unlines(Block(entries));
    RewriteOfCut(text, pre, block, post, entries);
    RejoinsIff(pre);
    RejoinsIff(post);
    if UnixLines(pre) {
      Cancel(pre, m, Unlines(Lines(post)), post);
    } else {
      RejoinDiffers(pre, m + Unlines(Lines(post)), m + post);
      Associate(Unlines(Lines(pre)), m, Unlines(Lines(post)));
      Associate(pre, m, post);
    }
  }

  /** One line, ended either way, and then only the key. */
  lemma {:induction false} LineThenKeyIsCut(line: string)
    requires OneLine(line) && !IsKey(DropCr(line))
    ensures IsCut(line + "\n" + (KEY + "\n"), line + "\n", KEY + "\n", "")
    ensures Lines(line + "\n" + (KEY + "\n")) == [DropCr(line), KEY]
  {
    KeyIsKey();
    assert line + "\n" + "" == line + "\n" && KEY + "\n" + "" == KEY + "\n";
    LinesOfFirst(line, "");
    LinesOfFirst(KEY, "");
    LinesOfFirst(line, KEY + "\n");
    assert KEY + "\n" + "" == KEY + "\n";
  }

  /** The documented promise fails on every line ended by CRLF: the carriage return is gone. */
  lemma {:induction false} KeptLineLosesCarriageReturn(line: string, entries: seq<string>)
    requires OneLine(line) && EndsInCr(line) && !IsKey(DropCr(line))
    ensures var text := line + "\n" + (KEY + "\n");
            && RewriteText(text, entries) == Some(DropCr(line) + "\n" + Unlines(Block(entries)) + "")
            && RewriteText(text, entries) != Some(line + "\n" + Unlines(Block(entries)) + "")
  {
    var pre, key := line + "\n", KEY + "\n";
    LineThenKeyIsCut(line);
    LinesOfFirst(line, "");
    assert line + "\n" + "" == pre;
    UnlinesOfOne(DropCr(line));
    RewriteOfCut(pre + key, pre, key, "", entries);
    assert pre[|line| - 1] == '\r' && pre[(|line| - 1) + 1] == '\n';
    assert !UnixLines(pre);
    KeptBytesIff(pre + key, pre, key, "", entries);
  }

  /** For one, a file of two lines. */
  lemma {:induction false} CrlfFileIsNotKept(entries: seq<string>)
    ensures RewriteText("x\r" + "\n" + (KEY + "\n"), entries) != Some("x\r" + "\n" + Unlines(Block(entries)) + "")
  {
    XIsNoKey();
    KeptLineLosesCarriageReturn("x\r", entries);
  }

  lemma XIsNoKey()
    ensures DropCr("x\r") == "x" && !IsKey("x") && !IsKey("x\r")
  {
    assert "x\r"[..1] == "x";
    assert TrimStart("x") == "x" && TrimStart("x\r") == "x\r";
  }

  lemma UnlinesOfOne(line: string)
    ensures Unlines([line]) == line + "\n"
  {
    assert [line][1..] == [];
  }

  /** And two edits differ from one where a kept line ends in a second carriage return. */
  lemma {:induction false} LastRewriteLoses(a: seq<string>, b: seq<string>)
    requires forall i | 0 <= i < |a| :: OneLine(a[i])
    ensures var text := "x\r\r" + "\n" + (KEY + "\n");
            RewriteText(text, a).Some? && RewriteText(RewriteText(text, a).value, b) != RewriteText(text, b)
  {
    var line := "x\r\r";
    assert line[..2] == "x\r";
    XIsNoKey();
    LineThenKeyIsCut(line);
    var text := line + "\n" + (KEY + "\n");
    var lines := ["x\r", KEY];
    assert lines[1] == KEY;
    KeyIsKey();
    KeyAtIs(lines, 0, 1);
    assert EndsInCr(Before(lines)[0]);
    RewriteOfCut(text, line + "\n", KEY + "\n", "", a);
    LastRewriteWinsOnFilesIff(text, a, b);
  }

  // ------------------------------------------------------------- whole files

  /** White space, the key with its colon, and anything. */
  ghost predicate OpensList(line: string) {
    exists indent: string, rest: string :: AllWhitespace(indent) && line == indent + ("command_allowlist:" + rest)
  }

  /** White space, a dash and a space, and anything. */
  ghost predicate ListsItem(line: string) {
    exists indent: string, rest: string :: AllWhitespace(indent) && line == indent + ("- " + rest)
  }

  lemma KeyIff(line: string)
    ensures IsKey(line) <==> OpensList(line)
  {
    assert !IsWhitespace(KEY[0]);
    StartsAfterBlanks(line, KEY);
  }

  lemma ItemIff(line: string)
    ensures IsItem(line) <==> ListsItem(line)
  {
    StartsAfterBlanks(line, ITEM);
  }

  lemma {:induction false} BareIndex(lines: seq<Ended>)
    ensures |Bare(lines)| == |lines| && forall i | 0 <= i < |lines| :: Bare(lines)[i] == lines[i].line
    decreases |lines|
  {
    if lines != [] {
      BareIndex(lines[1..]);
    }
  }

  lemma BareAppend3(a: seq<Ended>, b: seq<Ended>, c: seq<Ended>)
    ensures Bare(a + b + c) == Bare(a) + Bare(b) + Bare(c)
  {
    BareIndex(a);
    BareIndex(b);
    BareIndex(c);
    BareIndex(a + b + c);
  }

  /**
   The edit of a whole file, whatever its line endings: the lines before the key
   and the lines after its items are kept, every old item is gone however it was
   indented, and in their place stand the key and the new entries.
   */
  lemma {:induction false} RewriteOfFile(before: seq<Ended>, block: seq<Ended>, after: seq<Ended>, entries: seq<string>)
    requires WellEnded(before + block + after) && block != []
    requires forall i | 0 <= i < |before| :: !OpensList(before[i].line)
    requires OpensList(block[0].line) && forall i | 1 <= i < |block| :: ListsItem(block[i].line)
    requires after != [] ==> !ListsItem(after[0].line)
    ensures RewriteText(Whole(before + block + after), entries) ==
            Some(Unlines(Bare(before) +
                         (["command_allowlist:"] + seq(|entries|, i requires 0 <= i < |entries| => "- " + entries[i])) +
                         Bare(after)))
  {
    LinesOfWhole(before + block + after);
    BareAppend3(before, block, after);
    BareIsBlock(before, block, after);
    BlockIsFound(Bare(before), Bare(block), Bare(after));
    Append3(Bare(before), Bare(block), Bare(after));
    BareIndex(block);
    WrittenBlockIs(entries);
  }

  lemma BareIsBlock(before: seq<Ended>, block: seq<Ended>, after: seq<Ended>)
    requires block != []
    requires forall i | 0 <= i < |before| :: !OpensList(before[i].line)
    requires OpensList(block[0].line) && forall i | 1 <= i < |block| :: ListsItem(block[i].line)
    requires after != [] ==> !ListsItem(after[0].line)
    ensures forall j | 0 <= j < |Bare(before)| :: !IsKey(Bare(before)[j])
    ensures Bare(block) != [] && IsKey(Bare(block)[0])
    ensures forall j | 1 <= j < |Bare(block)| :: IsItem(Bare(block)[j])
    ensures Bare(after) != [] ==> !IsItem(Bare(after)[0])
  {
    BareIndex(before);
    BareIndex(block);
    BareIndex(after);
    forall j | 0 <= j < |before| ensures !IsKey(before[j].line) {
      KeyIff(before[j].line);
    }
    KeyIff(block[0].line);
    forall j | 1 <= j < |block| ensures IsItem(block[j].line) {
      ItemIff(block[j].line);
    }
    if after != [] {
      ItemIff(after[0].line);
    }
  }

  lemma WrittenBlockIs(entries: seq<string>)
    ensures Block(entries) == ["command_allowlist:"] + seq(|entries|, i requires 0 <= i < |entries| => "- " + entries[i])
  {
  }

  /** A file without the key is refused. */
  lemma {:induction false} NoKeyNoRewrite(lines: seq<Ended>, entries: seq<string>)
    requires WellEnded(lines) && forall i | 0 <= i < |lines| :: !OpensList(lines[i].line)
    ensures RewriteText(Whole(lines), entries) == None
  {
    LinesOfWhole(lines);
    BareIndex(lines);
    forall j | 0 <= j < |lines| ensures !IsKey(lines[j].line) {
      KeyIff(lines[j].line);
    }
  }

  // --------------------------------------------------------------- reading back

  predicate IsAsciiLetter(c: char) {
    'a' <= c <= 'z' || 'A' <= c <= 'Z'
  }

  /** What is left of text that begins inside an escape sequence. */
  function SkipEscape(s: string): (r: string)
    ensures |r| <= |s|
  {
    if s == [] then [] else if IsAsciiLetter(s[0]) then s[1..] else SkipEscape(s[1..])
  }

  /** Text without its colouring. */
  function Plain(s: string): string
    decreases |s|
  {
    if s == [] then [] else if s[0] == ESCAPE then Plain(SkipEscape(s[1..])) else [s[0]] + Plain(s[1..])
  }

  method StripColours(text: string) returns (out: string)
    ensures out == Plain(text)
  {
    out := "";
    var i := 0;
    while i < |text|
      invariant 0 <= i <= |text|
      invariant out + Plain(text[i..]) == Plain(text)
    {
      var c := text[i];
      assert text[i..][0] == c && text[i..][1..] == text[i + 1..];
      i := i + 1;
      if c == ESCAPE {
        ghost var start := i;
        while i < |text|
          invariant start <= i <= |text|
          invariant SkipEscape(text[i..]) == SkipEscape(text[start..])
        {
          var skip := text[i];
          assert text[i..][0] == skip && text[i..][1..] == text[i + 1..];
          i := i + 1;
          if IsAsciiLetter(skip) {
            break;
          }
        }
      } else {
        assert out + ([c] + Plain(text[i..])) == (out + [c]) + Plain(text[i..]);
        out := out + [c];
      }
    }
  }

  function TrimQuotesStart(s: string): string {
    if s != [] && s[0] == '"' then TrimQuotesStart(s[1..]) else s
  }

  function TrimQuotesEnd(s: string): string {
    if s != [] && s[|s| - 1] == '"' then TrimQuotesEnd(s[..|s| - 1]) else s
  }

  function ParseItem(line: string): Option<string> {
    var text := Trim(line);
    if !StartsWith(text, ITEM) then None
    else
      var entry := TrimQuotesEnd(TrimQuotesStart(Trim(text[|ITEM|..])));
      if entry == [] then None else Some(entry)
  }

  function ParseItems(lines: seq<string>): seq<string> {
    if lines == [] then []
    else
      var item := ParseItem(lines[|lines| - 1]);
      ParseItems(lines[..|lines| - 1]) + if item.Some? then [item.value] else []
  }

  function ParseAllowlist(output: string): seq<string> {
    ParseItems(Lines(Plain(output)))
  }

  /** An entry that survives being written and read: bare, trimmed, on one line. */
  predicate IsBare(entry: string) {
    && entry != []
    && OneLine(entry)
    && !IsWhitespace(entry[0]) && !IsWhitespace(entry[|entry| - 1])
    && entry[0] != '"' && entry[|entry| - 1] != '"'
    && forall i | 0 <= i < |entry| :: entry[i] != ESCAPE
  }

  lemma {:induction false} PlainKeeps(s: string)
    requires forall i | 0 <= i < |s| :: s[i] != ESCAPE
    ensures Plain(s) == s
    decreases |s|
  {
    if s != [] {
      PlainKeeps(s[1..]);
    }
  }

  lemma {:induction false} UnlinesHasNoEscape(lines: seq<string>)
    requires forall i | 0 <= i < |lines| :: forall j | 0 <= j < |lines[i]| :: lines[i][j] != ESCAPE
    ensures forall j | 0 <= j < |Unlines(lines)| :: Unlines(lines)[j] != ESCAPE
    decreases |lines|
  {
    if lines != [] {
      UnlinesHasNoEscape(lines[1..]);
    }
  }

  lemma ItemReadsBack(entry: string)
    requires IsBare(entry)
    ensures ParseItem(DropCr(ITEM + entry)) == Some(entry)
  {
    var line := ITEM + entry;
    assert line[|line| - 1] == entry[|entry| - 1] && line[0] == '-';
    assert Trim(line) == line;
    assert line[|ITEM|..] == entry;
    assert Trim(entry) == entry;
  }

  lemma {:induction false} BlockReadsBack(entries: seq<string>)
    requires forall i | 0 <= i < |entries| :: IsBare(entries[i])
    ensures ParseItems(DropCrs(Block(entries))) == entries
    decreases |entries|
  {
    if entries == [] {
      NoEntriesReadBack(entries);
    } else {
      var n := |entries| - 1;
      BlockReadsBack(entries[..n]);
      DroppedBlockGrows(entries, n);
      ItemReadsBack(entries[n]);
      ParseItemsAppend(DropCrs(Block(entries[..n])), ITEM + entries[n]);
      SliceGrows(entries, 0, n);
      assert entries[0..n + 1] == entries;
    }
  }

  lemma NoEntriesReadBack(entries: seq<string>)
    requires entries == []
    ensures ParseItems(DropCrs(Block(entries))) == []
  {
  }

  lemma DroppedBlockGrows(entries: seq<string>, n: nat)
    requires n + 1 == |entries|
    ensures DropCrs(Block(entries)) == DropCrs(Block(entries[..n])) + [DropCr(ITEM + entries[n])]
  {
  }

  lemma ParseItemsAppend(lines: seq<string>, line: string)
    ensures var item := ParseItem(DropCr(line));
            ParseItems(lines + [DropCr(line)]) == ParseItems(lines) + if item.Some? then [item.value] else []
  {
  }

  /** The written block, read as the runtime prints it, is exactly the entries. */
  lemma {:induction false} WrittenBlockParses(entries: seq<string>)
    requires forall i | 0 <= i < |entries| :: IsBare(entries[i])
    ensures ParseAllowlist(Unlines(Block(entries))) == entries
  {
    var lines := Block(entries);
    BlockIsOneLine(entries);
    forall i | 0 <= i < |lines|
      ensures forall j | 0 <= j < |lines[i]| :: lines[i][j] != ESCAPE
    {
      if i > 0 {
        assert lines[i] == ITEM + entries[i - 1];
      }
    }
    UnlinesHasNoEscape(lines);
    PlainKeeps(Unlines(lines));
    LinesOfUnlines(lines);
    BlockReadsBack(entries);
  }

  // ------------------------------------------------- coloured and quoted output

  /** A stretch of text, or an escape sequence: an escape, anything but letters, and a letter. */
  datatype Piece = Shown(text: string) | Colour(codes: string, letter: char)

  predicate IsLetter(c: char) {
    'a' <= c <= 'z' || 'A' <= c <= 'Z'
  }

  predicate WellColoured(pieces: seq<Piece>) {
    forall i | 0 <= i < |pieces| ::
      match pieces[i]
      case Shown(text) => forall j | 0 <= j < |text| :: text[j] != '\U{1B}'
      case Colour(codes, letter) => IsLetter(letter) && forall j | 0 <= j < |codes| :: !IsLetter(codes[j])
  }

  function Printed(pieces: seq<Piece>): string {
    if pieces == [] then ""
    else
      (match pieces[0]
       case Shown(text) => text
       case Colour(codes, letter) => "\U{1B}" + codes + [letter]) + Printed(pieces[1..])
  }

  function ShownText(pieces: seq<Piece>): string {
    if pieces == [] then ""
    else (if pieces[0].Shown? then pieces[0].text else "") + ShownText(pieces[1..])
  }

  lemma {:induction false} SkipEscapeOf(codes: string, letter: char, rest: string)
    requires IsLetter(letter) && forall j | 0 <= j < |codes| :: !IsLetter(codes[j])
    ensures SkipEscape(codes + [letter] + rest) == rest
    decreases |codes|
  {
    var s := codes + [letter] + rest;
    if codes == [] {
      assert s[1..] == rest;
    } else {
      SkipEscapeOf(codes[1..], letter, rest);
      assert s[1..] == codes[1..] + [letter] + rest;
    }
  }

  lemma {:induction false} PlainOfShown(text: string, rest: string)
    requires forall j | 0 <= j < |text| :: text[j] != '\U{1B}'
    ensures Plain(text + rest) == text + Plain(rest)
    decreases |text|
  {
    if text == [] {
      assert text + rest == rest;
    } else {
      PlainOfShown(text[1..], rest);
      assert (text + rest)[1..] == text[1..] + rest;
      assert [text[0]] + (text[1..] + Plain(rest)) == text + Plain(rest);
    }
  }

  /** Escape sequences vanish, and everything else stays. */
  lemma {:induction false} PlainOfPrinted(pieces: seq<Piece>)
    requires WellColoured(pieces)
    ensures Plain(Printed(pieces)) == ShownText(pieces)
    decreases |pieces|
  {
    if pieces != [] {
      var rest := Printed(pieces[1..]);
      PlainOfPrinted(pieces[1..]);
      match pieces[0]
      case Shown(text) => PlainOfShown(text, rest);
      case Colour(codes, letter) =>
        var s := "\U{1B}" + codes + [letter] + rest;
        assert s[1..] == codes + [letter] + rest;
        SkipEscapeOf(codes, letter, rest);
    }
  }

  predicate AllQuotes(s: string) {
    forall i | 0 <= i < |s| :: s[i] == '"'
  }

  /** A line of printed output: an item with an entry or without, spaced, indented and quoted in any way, or any other line. */
  datatype PrintedLine =
    | OtherLine(text: string)
    | ItemLine(indent: string, gap: string, open: string, entry: string, close: string, tail: string)

  /** An entry is what is left between the quotes: it does not begin or end with one, nor, where there is none, with white space. */
  ghost predicate WellPrinted(l: PrintedLine) {
    match l
    case OtherLine(text) => OneLine(text) && !ListsItem(text)
    case ItemLine(indent, gap, open, entry, close, tail) =>
      && AllWhitespace(indent) && AllWhitespace(gap) && AllWhitespace(tail)
      && AllQuotes(open) && AllQuotes(close)
      && open + entry + close != ""
      && (entry != "" ==>
            && entry[0] != '"' && entry[|entry| - 1] != '"'
            && (open == "" ==> !IsWhitespace(entry[0])) && (close == "" ==> !IsWhitespace(entry[|entry| - 1])))
      && OneLine(LineText(l))
  }

  function LineText(l: PrintedLine): string {
    match l
    case OtherLine(text) => text
    case ItemLine(indent, gap, open, entry, close, tail) => indent + ("- " + (gap + (open + entry + close))) + tail
  }

  function LineTexts(lines: seq<PrintedLine>): seq<string> {
    if lines == [] then [] else LineTexts(lines[..|lines| - 1]) + [LineText(lines[|lines| - 1])]
  }

  /** The entries that are printed, in order. */
  function EntriesOf(lines: seq<PrintedLine>): seq<string> {
    if lines == [] then []
    else
      var l := lines[|lines| - 1];
      EntriesOf(lines[..|lines| - 1]) + if l.ItemLine? && l.entry != "" then [l.entry] else []
  }

  lemma {:induction false} TrimQuotesStartOf(open: string, s: string)
    requires AllQuotes(open) && (s == "" || s[0] != '"')
    ensures TrimQuotesStart(open + s) == s
    decreases |open|
  {
    if open == [] {
      assert open + s == s;
    } else {
      TrimQuotesStartOf(open[1..], s);
      assert (open + s)[1..] == open[1..] + s;
    }
  }

  lemma {:induction false} TrimQuotesEndOf(s: string, close: string)
    requires AllQuotes(close) && (s == "" || s[|s| - 1] != '"')
    ensures TrimQuotesEnd(s + close) == s
    decreases |close|
  {
    if close == [] {
      assert s + close == s;
    } else {
      TrimQuotesEndOf(s, close[..|close| - 1]);
      assert (s + close)[..|s + close| - 1] == s + close[..|close| - 1];
    }
  }

  /** What stands between the quotes, or nothing when there are only quotes. */
  lemma QuotesComeOff(open: string, entry: string, close: string)
    requires AllQuotes(open) && AllQuotes(close)
    requires entry != "" ==> entry[0] != '"' && entry[|entry| - 1] != '"'
    ensures TrimQuotesEnd(TrimQuotesStart(open + entry + close)) == entry
  {
    if entry == "" {
      var quotes := open + entry + close;
      assert AllQuotes(quotes) && quotes + "" == quotes;
      TrimQuotesStartOf(quotes, "");
    } else {
      assert open + entry + close == open + (entry + close);
      assert (entry + close)[0] == entry[0];
      TrimQuotesStartOf(open, entry + close);
      TrimQuotesEndOf(entry, close);
    }
  }

  /** Text whose ends are not white space is what trimming leaves of it. */
  lemma TrimOfSolid(indent: string, solid: string, tail: string)
    requires AllWhitespace(indent) && AllWhitespace(tail)
    requires solid != "" && !IsWhitespace(solid[0]) && !IsWhitespace(solid[|solid| - 1])
    ensures Trim(indent + solid + tail) == solid
  {
    TrimEndSkips(indent + solid, tail);
    assert (indent + solid)[|indent + solid| - 1] == solid[|solid| - 1];
    TrimStartSkips(indent, solid);
  }

  lemma {:induction false} ItemParses(l: PrintedLine)
    requires l.ItemLine? && WellPrinted(l)
    ensures ParseItem(LineText(l)) == if l.entry != "" then Some(l.entry) else None
  {
    var quoted := l.open + l.entry + l.close;
    var item := "- " + (l.gap + quoted);
    SolidEnds(l.open, l.entry, l.close);
    assert item[0] == '-' && item[|item| - 1] == quoted[|quoted| - 1];
    TrimOfSolid(l.indent, item, l.tail);
    assert item[2..] == l.gap + quoted && item[..2] == "- ";
    assert l.gap + quoted == l.gap + quoted + "";
    TrimOfSolid(l.gap, quoted, "");
    QuotesComeOff(l.open, l.entry, l.close);
  }

  lemma SolidEnds(open: string, entry: string, close: string)
    requires AllQuotes(open) && AllQuotes(close) && open + entry + close != ""
    requires entry != "" ==> (open == "" ==> !IsWhitespace(entry[0])) && (close == "" ==> !IsWhitespace(entry[|entry| - 1]))
    ensures var s := open + entry + close; !IsWhitespace(s[0]) && !IsWhitespace(s[|s| - 1])
  {
    var s := open + entry + close;
    assert open != "" ==> s[0] == open[0];
    assert close != "" ==> s[|s| - 1] == close[|close| - 1];
  }

  lemma {:induction false} OtherDoesNotParse(text: string)
    requires !ListsItem(text)
    ensures ParseItem(text) == None
  {
    if StartsWith(Trim(text), ITEM) {
      TrimmedItemIsListed(text);
    }
  }

  lemma {:induction false} TrimmedItemIsListed(text: string)
    requires StartsWith(Trim(text), ITEM)
    ensures ListsItem(text)
  {
    var tail := BlanksAfter(text);
    var trimmed := TrimEnd(text);
    var indent := BlanksBefore(trimmed);
    ItemInTheMiddle(indent, TrimStart(trimmed), tail);
  }

  lemma ItemInTheMiddle(indent: string, item: string, tail: string)
    requires AllWhitespace(indent) && StartsWith(item, ITEM)
    ensures ListsItem(indent + item + tail)
  {
    var rest := item[|ITEM|..] + tail;
    assert indent + item + tail == indent + ("- " + rest);
  }

  lemma {:induction false} BlanksAfter(s: string) returns (tail: string)
    ensures s == TrimEnd(s) + tail
    decreases |s|
  {
    if s != [] && IsWhitespace(s[|s| - 1]) {
      var rest := BlanksAfter(s[..|s| - 1]);
      tail := rest + [s[|s| - 1]];
    } else {
      tail := [];
    }
  }

  lemma ParseItemIgnoresCr(line: string)
    ensures ParseItem(DropCr(line)) == ParseItem(line)
  {
  }

  lemma {:induction false} LinesParse(lines: seq<PrintedLine>)
    requires forall i | 0 <= i < |lines| :: WellPrinted(lines[i])
    ensures ParseItems(DropCrs(LineTexts(lines))) == EntriesOf(lines)
    ensures |LineTexts(lines)| == |lines| && forall i | 0 <= i < |lines| :: OneLine(LineTexts(lines)[i])
    decreases |lines|
  {
    if lines != [] {
      var init, l := lines[..|lines| - 1], lines[|lines| - 1];
      LinesParse(init);
      DropCrsGrow(LineTexts(init), LineText(l));
      ParseItemIgnoresCr(LineText(l));
      if l.ItemLine? {
        ItemParses(l);
      } else {
        OtherDoesNotParse(l.text);
      }
    }
  }

  lemma DropCrsGrow(lines: seq<string>, line: string)
    ensures DropCrs(lines + [line])[..|lines|] == DropCrs(lines) && DropCrs(lines + [line])[|lines|] == DropCr(line)
    ensures |DropCrs(lines + [line])| == |lines| + 1
  {
  }

  /**
   The runtime's own listing is read as its entries: coloured anywhere, indented,
   spaced and quoted in any way, in order, and nothing else.
   */
  lemma {:induction false} PrintedAllowlistParses(lines: seq<PrintedLine>, pieces: seq<Piece>)
    requires forall i | 0 <= i < |lines| :: WellPrinted(lines[i])
    requires WellColoured(pieces) && ShownText(pieces) == Unlines(LineTexts(lines))
    ensures ParseAllowlist(Printed(pieces)) == EntriesOf(lines)
  {
    PlainOfPrinted(pieces);
    LinesParse(lines);
    LinesOfUnlines(LineTexts(lines));
  }
}
