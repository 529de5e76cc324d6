/**
 The short-term history sent with a continued run: which runs open a turn,
 which answer each turn keeps, and which turns fit.

 `Build` follows the source's loops. `HistoryOf` is the history it returns, and
 `IsHistory` says what that is, as a statement about the records, with no order
 among them but their times.
 */
module ChatHistory {
  import opened Options
  import opened Sequences
  import opened Sorting
  import opened AttemptChains

  datatype Limits = Limits(maxTurns: nat, maxBytes: nat)

  datatype Turn = Turn(createdAt: int, user: string, assistant: string)

  datatype Message = Message(role: string, content: string)

  datatype BuiltHistory = BuiltHistory(messages: seq<Message>, omittedTurns: nat, bytes: nat)

  /** The serialized size of some turns, as the runtime will receive them. */
  type Size = seq<Turn> -> nat

  const TurnTime: Turn -> int := (t: Turn) => t.createdAt

  // -------------------------------------------------------------- answers

  /** `r` is an attempt at `root` that completed with output. */
  ghost predicate Answers(runs: seq<Run>, root: string, r: Run) {
    AttemptOf(runs, root, r) && r.completed && r.output != None
  }

  ghost predicate Newest(runs: seq<Run>, root: string, r: Run) {
    Answers(runs, root, r) && forall q | Answers(runs, root, q) :: q.createdAt <= r.createdAt
  }

  /** `answer` is the output of a newest answering attempt. */
  ghost predicate IsAnswer(runs: seq<Run>, root: string, answer: string) {
    exists r :: Newest(runs, root, r) && r.output == Some(answer)
  }

  ghost predicate Answered(runs: seq<Run>, root: string) {
    exists r :: Answers(runs, root, r)
  }

  predicate HasAnswer(r: Run) {
    r.completed && r.output.Some?
  }

  /** The output of the last attempt that has one. */
  function AnswerIn(attempts: seq<Run>): Option<string> {
    if attempts == [] then None
    else if HasAnswer(attempts[|attempts| - 1]) then attempts[|attempts| - 1].output
    else AnswerIn(attempts[..|attempts| - 1])
  }

  function AnswerTo(runs: seq<Run>, root: string): Option<string> {
    AnswerIn(ChainOf(runs, root))
  }

  method LatestCompletedAnswer(runs: seq<Run>, root: string, attempts: seq<Run>) returns (answer: Option<string>)
    requires IsChain(runs, root, attempts)
    ensures answer == AnswerIn(attempts)
    ensures answer.Some? <==> Answered(runs, root)
    ensures answer.Some? ==> IsAnswer(runs, root, answer.value)
  {
    AnswerIsNewest(runs, root, attempts);
    answer := LastAnswer(attempts);
  }

  method LastAnswer(attempts: seq<Run>) returns (answer: Option<string>)
    ensures answer == AnswerIn(attempts)
  {
    var i := |attempts|;
    TakeAll(attempts);
    while i > 0
      invariant 0 <= i <= |attempts|
      invariant AnswerIn(attempts[..i]) == AnswerIn(attempts)
    {
      i := i - 1;
      assert attempts[..i + 1][..i] == attempts[..i];
      if HasAnswer(attempts[i]) {
        return attempts[i].output;
      }
    }
    return None;
  }

  lemma {:induction false} AnswerInLast(attempts: seq<Run>) returns (i: nat)
    ensures i < |attempts| ==> HasAnswer(attempts[i]) && AnswerIn(attempts) == attempts[i].output
    ensures i >= |attempts| ==> AnswerIn(attempts).None?
    ensures forall j | i < j < |attempts| :: !HasAnswer(attempts[j])
    ensures i >= |attempts| ==> forall j | 0 <= j < |attempts| :: !HasAnswer(attempts[j])
    decreases |attempts|
  {
    if attempts == [] {
      i := 0;
    } else if HasAnswer(attempts[|attempts| - 1]) {
      i := |attempts| - 1;
    } else {
      var init := attempts[..|attempts| - 1];
      i := AnswerInLast(init);
      if i == |init| {
        i := |attempts|;
      }
    }
  }

  /** In the order of their times, the last attempt that has an answer is a newest one. */
  lemma AnswerIsNewest(runs: seq<Run>, root: string, attempts: seq<Run>)
    requires IsChain(runs, root, attempts)
    ensures AnswerIn(attempts).Some? <==> Answered(runs, root)
    ensures AnswerIn(attempts).Some? ==> IsAnswer(runs, root, AnswerIn(attempts).value)
  {
    var i := AnswerInLast(attempts);
    if i < |attempts| {
      NewestFound(runs, root, attempts, i);
    } else {
      forall r | r in attempts ensures !HasAnswer(r) {}
    }
  }

  lemma NewestFound(runs: seq<Run>, root: string, attempts: seq<Run>, i: nat)
    requires IsChain(runs, root, attempts) && i < |attempts| && HasAnswer(attempts[i])
    requires forall j | i < j < |attempts| :: !HasAnswer(attempts[j])
    ensures IsAnswer(runs, root, attempts[i].output.value) && Answered(runs, root)
  {
    var r := attempts[i];
    assert r in attempts;
    assert Answers(runs, root, r);
    forall q | Answers(runs, root, q) ensures q.createdAt <= r.createdAt {
      var j :| 0 <= j < |attempts| && attempts[j] == q;
      assert j < i ==> RunTime(attempts[j]) <= RunTime(attempts[i]);
    }
    assert Newest(runs, root, r);
  }

  lemma AnswerToIsNewest(runs: seq<Run>, root: string)
    requires UniqueIds(runs) && NoParent(runs, root)
    ensures AnswerTo(runs, root).Some? <==> Answered(runs, root)
    ensures AnswerTo(runs, root).Some? ==> IsAnswer(runs, root, AnswerTo(runs, root).value)
  {
    ChainHoldsAttempts(runs, root);
    AnswerIsNewest(runs, root, ChainOf(runs, root));
  }

  // ---------------------------------------------------------------- turns

  /** A root of this session with a message, and not the run being submitted. */
  predicate Asks(session: string, current: string, r: Run) {
    && r.id != current
    && r.session == Some(session)
    && r.retryOf.None?
    && r.input.Some?
  }

  /** `r` opens a turn of this session: a root with a message and an answer. */
  ghost predicate OpensTurn(runs: seq<Run>, session: string, current: string, r: Run) {
    && r.id != current && r.session == Some(session) && r.retryOf == None && r.input != None
    && Answered(runs, r.id)
  }

  /** The runs among `part` that open a turn, in the order of `part`. */
  ghost function Openers(runs: seq<Run>, session: string, current: string, part: seq<Run>): seq<Run> {
    if part == [] then []
    else
      var last := part[|part| - 1];
      Openers(runs, session, current, part[..|part| - 1]) +
      if OpensTurn(runs, session, current, last) then [last] else []
  }

  ghost predicate IsTurnOf(runs: seq<Run>, r: Run, t: Turn) {
    && t.createdAt == r.createdAt
    && r.input.Some? && t.user == r.input.value + r.attachments
    && IsAnswer(runs, r.id, t.assistant)
  }

  ghost predicate AreTurnsOf(runs: seq<Run>, openers: seq<Run>, turns: seq<Turn>) {
    |turns| == |openers| && forall i | 0 <= i < |turns| :: IsTurnOf(runs, openers[i], turns[i])
  }

  /** The turn that one record opens, or nothing. */
  function TurnOf(runs: seq<Run>, session: string, current: string, r: Run): seq<Turn> {
    if Asks(session, current, r) then
      var answer := AnswerTo(runs, r.id);
      if answer.Some? then [Turn(r.createdAt, r.input.value + r.attachments, answer.value)] else []
    else []
  }

  /** The turns that `part` opens, in the order of `part`. */
  function TurnsIn(runs: seq<Run>, session: string, current: string, part: seq<Run>): seq<Turn> {
    if part == [] then []
    else TurnsIn(runs, session, current, part[..|part| - 1]) + TurnOf(runs, session, current, part[|part| - 1])
  }

  lemma {:induction false} TurnsAreTurns(runs: seq<Run>, session: string, current: string, part: seq<Run>)
    requires UniqueIds(runs) && forall r | r in part :: r in runs
    ensures AreTurnsOf(runs, Openers(runs, session, current, part), TurnsIn(runs, session, current, part))
    decreases |part|
  {
    if part != [] {
      var last := part[|part| - 1];
      TurnsAreTurns(runs, session, current, part[..|part| - 1]);
      if Asks(session, current, last) {
        RootHasNoParent(runs, last);
        AnswerToIsNewest(runs, last.id);
      }
    }
  }

  method CollectTurns(runs: seq<Run>, session: string, current: string) returns (turns: seq<Turn>)
    requires UniqueIds(runs)
    ensures turns == TurnsIn(runs, session, current, runs)
    ensures AreTurnsOf(runs, Openers(runs, session, current, runs), turns)
  {
    turns := [];
    for i := 0 to |runs|
      invariant turns == TurnsIn(runs, session, current, runs[..i])
    {
      var run := runs[i];
      assert runs[..i + 1][..i] == runs[..i];
      if run.id == current || run.session != Some(session) || run.retryOf.Some? || run.input.None? {
        continue;
      }
      RootHasNoParent(runs, run);
      var attempts := AttemptChain(runs, run.id);
      var answer := LatestCompletedAnswer(runs, run.id, attempts);
      if answer.None? {
        continue;
      }
      turns := turns + [Turn(run.createdAt, run.input.value + run.attachments, answer.value)];
    }
    TakeAll(runs);
    TurnsAreTurns(runs, session, current, runs);
  }

  lemma RootHasNoParent(runs: seq<Run>, root: Run)
    requires UniqueIds(runs) && root in runs && root.retryOf.None?
    ensures NoParent(runs, root.id)
  {
    forall r | r in runs && r.id == root.id ensures r.retryOf.None? {
      SameIdSameRun(runs, r, root);
    }
  }

  // ----------------------------------------------------------- truncation

  predicate Fits(turns: seq<Turn>, limits: Limits, size: Size, k: nat)
    requires k <= |turns|
  {
    |turns| - k <= limits.maxTurns && size(turns[k..]) <= limits.maxBytes
  }

  /** `turns[k..]` is the longest suffix within both limits, or is empty because none is. */
  ghost predicate LongestSuffix(turns: seq<Turn>, limits: Limits, size: Size, k: nat) {
    && k <= |turns|
    && (k == |turns| || (|turns| - k <= limits.maxTurns && size(turns[k..]) <= limits.maxBytes))
    && forall j: nat | j < k :: |turns| - j > limits.maxTurns || size(turns[j..]) > limits.maxBytes
  }

  function Messages(turns: seq<Turn>): seq<Message> {
    if turns == [] then []
    else Messages(turns[..|turns| - 1]) +
         [Message("user", turns[|turns| - 1].user), Message("assistant", turns[|turns| - 1].assistant)]
  }

  /** What is sent is whole: each kept turn is its own two messages, uncut and in place. */
  lemma {:induction false} MessagesArePairs(turns: seq<Turn>)
    ensures |Messages(turns)| == 2 * |turns|
    ensures forall i | 0 <= i < |turns| ::
              && Messages(turns)[2 * i] == Message("user", turns[i].user)
              && Messages(turns)[2 * i + 1] == Message("assistant", turns[i].assistant)
    decreases |turns|
  {
    if turns != [] {
      MessagesArePairs(turns[..|turns| - 1]);
    }
  }

  ghost predicate IsTruncation(turns: seq<Turn>, limits: Limits, size: Size, built: BuiltHistory) {
    && LongestSuffix(turns, limits, size, built.omittedTurns)
    && built.messages == Messages(turns[built.omittedTurns..])
    && built.bytes == size(turns[built.omittedTurns..])
  }

  method Truncate(turns0: seq<Turn>, limits: Limits, size: Size) returns (built: BuiltHistory)
    ensures IsTruncation(turns0, limits, size, built)
  {
    var turns := turns0;
    var omitted: nat := if |turns| > limits.maxTurns then |turns| - limits.maxTurns else 0;
    if omitted > 0 {
      turns := turns[omitted..];
    }
    while turns != [] && size(turns) > limits.maxBytes
      invariant omitted <= |turns0| && turns == turns0[omitted..] && |turns| <= limits.maxTurns
      invariant forall j: nat | j < omitted :: |turns0| - j > limits.maxTurns || size(turns0[j..]) > limits.maxBytes
      decreases |turns|
    {
      assert turns0[omitted..][1..] == turns0[omitted + 1..];
      turns := turns[1..];
      omitted := omitted + 1;
    }
    var bytes := size(turns);
    var messages: seq<Message> := [];
    for i := 0 to |turns|
      invariant messages == Messages(turns[..i])
    {
      assert turns[..i + 1][..i] == turns[..i];
      messages := messages + [Message("user", turns[i].user)];
      messages := messages + [Message("assistant", turns[i].assistant)];
    }
    assert turns[..|turns|] == turns;
    built := BuiltHistory(messages, omitted, bytes);
  }

  lemma TruncationIsUnique(turns: seq<Turn>, limits: Limits, size: Size, a: BuiltHistory, b: BuiltHistory)
    requires IsTruncation(turns, limits, size, a) && IsTruncation(turns, limits, size, b)
    ensures a == b
  {
  }

  // ---------------------------------------------------------------- build

  /** `built` is the history of `session`, as the records alone call for it. */
  ghost predicate IsHistory(runs: seq<Run>, session: string, current: string, limits: Limits, size: Size,
                            built: BuiltHistory)
  {
    exists turns ::
      && AreTurnsOf(runs, Openers(runs, session, current, runs), turns)
      && IsTruncation(SortBy(turns, TurnTime), limits, size, built)
  }

  /** Where the longest suffix within the limits begins. */
  function FirstFit(turns: seq<Turn>, limits: Limits, size: Size, from: nat): (k: nat)
    requires from <= |turns|
    ensures from <= k <= |turns| && (k == |turns| || (|turns| - k <= limits.maxTurns && size(turns[k..]) <= limits.maxBytes))
    ensures forall j: nat | from <= j < k :: |turns| - j > limits.maxTurns || size(turns[j..]) > limits.maxBytes
    decreases |turns| - from
  {
    if from == |turns| || Fits(turns, limits, size, from) then from else FirstFit(turns, limits, size, from + 1)
  }

  function Truncated(turns: seq<Turn>, limits: Limits, size: Size): (built: BuiltHistory)
    ensures IsTruncation(turns, limits, size, built)
  {
    var k := FirstFit(turns, limits, size, 0);
    BuiltHistory(Messages(turns[k..]), k, size(turns[k..]))
  }

  function HistoryOf(runs: seq<Run>, session: string, current: string, limits: Limits, size: Size): BuiltHistory {
    Truncated(SortBy(TurnsIn(runs, session, current, runs), TurnTime), limits, size)
  }

  method Build(runs: seq<Run>, session: string, current: string, limits: Limits, size: Size)
    returns (built: BuiltHistory)
    requires UniqueIds(runs)
    ensures built == HistoryOf(runs, session, current, limits, size)
    ensures IsHistory(runs, session, current, limits, size, built)
    ensures |built.messages| % 2 == 0
    ensures forall i | 0 <= i < |built.messages| / 2 ::
              Stems(runs, session, current, built.messages[2 * i], built.messages[2 * i + 1])
  {
    var turns := CollectTurns(runs, session, current);
    built := Truncate(SortBy(turns, TurnTime), limits, size);
    MessagesStem(runs, session, current, turns, built.omittedTurns);
    TruncationIsUnique(SortBy(turns, TurnTime), limits, size, built, Truncated(SortBy(turns, TurnTime), limits, size));
  }

  /**
   A question and its answer as two records have them: a root of this session
   that is not the run being submitted, and an attempt at it that completed.
   */
  ghost predicate Stems(runs: seq<Run>, session: string, current: string, question: Message, answer: Message) {
    exists root, attempt ::
      && root in runs && root.id != current && root.session == Some(session) && root.retryOf == None
      && root.input.Some? && question == Message("user", root.input.value + root.attachments)
      && AttemptOf(runs, root.id, attempt)
      && attempt.completed && attempt.output.Some? && answer == Message("assistant", attempt.output.value)
  }

  lemma MessagesStem(runs: seq<Run>, session: string, current: string, turns: seq<Turn>, from: nat)
    requires AreTurnsOf(runs, Openers(runs, session, current, runs), turns)
    requires from <= |SortBy(turns, TurnTime)|
    ensures var messages := Messages(SortBy(turns, TurnTime)[from..]);
            && |messages| % 2 == 0
            && forall i | 0 <= i < |messages| / 2 :: Stems(runs, session, current, messages[2 * i], messages[2 * i + 1])
  {
    var kept := SortBy(turns, TurnTime)[from..];
    forall i | 0 <= i < |kept|
      ensures Stems(runs, session, current, Message("user", kept[i].user), Message("assistant", kept[i].assistant))
    {
      assert kept[i] in SortBy(turns, TurnTime);
      SortByKeepsElements(turns, TurnTime, kept[i]);
      TurnStems(runs, session, current, turns, kept[i]);
    }
    PairsStem(runs, session, current, kept);
  }

  lemma PairsStem(runs: seq<Run>, session: string, current: string, kept: seq<Turn>)
    requires forall i | 0 <= i < |kept| ::
               Stems(runs, session, current, Message("user", kept[i].user), Message("assistant", kept[i].assistant))
    ensures var messages := Messages(kept);
            && |messages| % 2 == 0
            && forall i | 0 <= i < |messages| / 2 :: Stems(runs, session, current, messages[2 * i], messages[2 * i + 1])
  {
    MessagesArePairs(kept);
  }

  lemma TurnStems(runs: seq<Run>, session: string, current: string, turns: seq<Turn>, t: Turn)
    requires AreTurnsOf(runs, Openers(runs, session, current, runs), turns) && t in turns
    ensures Stems(runs, session, current, Message("user", t.user), Message("assistant", t.assistant))
  {
    var openers := Openers(runs, session, current, runs);
    OpenersElements(runs, session, current, runs);
    var i :| 0 <= i < |turns| && turns[i] == t;
    var root := openers[i];
    assert root in openers && IsTurnOf(runs, root, t);
    var attempt :| Newest(runs, root.id, attempt) && attempt.output == Some(t.assistant);
  }

  lemma HistoryOfIsHistory(runs: seq<Run>, session: string, current: string, limits: Limits, size: Size)
    requires UniqueIds(runs)
    ensures IsHistory(runs, session, current, limits, size, HistoryOf(runs, session, current, limits, size))
  {
    TurnsAreTurns(runs, session, current, runs);
  }

  // ----------------------------------------------------- order independence

  ghost predicate DistinctTimes(runs: seq<Run>) {
    DistinctBy(runs, RunTime)
  }

  ghost predicate SameRuns(a: seq<Run>, b: seq<Run>) {
    forall r :: r in a <==> r in b
  }

  lemma {:induction false} RetriesIgnoreOrder(a: seq<Run>, b: seq<Run>, id: string, root: string, n: nat)
    requires SameRuns(a, b) && Retries(a, id, root, n)
    ensures Retries(b, id, root, n)
    decreases n
  {
    if n > 0 {
      var r :| r in a && r.id == id && r.retryOf.Some? && Retries(a, r.retryOf.value, root, n - 1);
      RetriesIgnoreOrder(a, b, r.retryOf.value, root, n - 1);
      assert r in b;
    }
  }

  lemma AttemptsIgnoreOrder(a: seq<Run>, b: seq<Run>, root: string)
    requires SameRuns(a, b)
    ensures forall r :: AttemptOf(a, root, r) <==> AttemptOf(b, root, r)
  {
    forall r ensures AttemptOf(a, root, r) <==> AttemptOf(b, root, r) {
      if AttemptOf(a, root, r) {
        var n: nat :| Retries(a, r.id, root, n);
        RetriesIgnoreOrder(a, b, r.id, root, n);
      }
      if AttemptOf(b, root, r) {
        var n: nat :| Retries(b, r.id, root, n);
        RetriesIgnoreOrder(b, a, r.id, root, n);
      }
    }
  }

  /** With distinct times a turn has one answer, whatever order the records come in. */
  lemma AnswerIgnoresOrder(a: seq<Run>, b: seq<Run>, root: string, x: string, y: string)
    requires SameRuns(a, b) && DistinctTimes(a)
    requires IsAnswer(a, root, x) && IsAnswer(b, root, y)
    ensures x == y
  {
    AttemptsIgnoreOrder(a, b, root);
    var r :| Newest(a, root, r) && r.output == Some(x);
    var s :| Newest(b, root, s) && s.output == Some(y);
    assert Answers(a, root, s) && Answers(b, root, r);
    SameTimeSameRun(a, r, s);
  }

  lemma SameTimeSameRun(runs: seq<Run>, r: Run, s: Run)
    requires DistinctTimes(runs) && r in runs && s in runs && r.createdAt == s.createdAt
    ensures r == s
  {
  }

  lemma {:induction false} OpenersElements(runs: seq<Run>, session: string, current: string, part: seq<Run>)
    ensures forall r :: r in Openers(runs, session, current, part) <==> r in part && OpensTurn(runs, session, current, r)
    ensures DistinctTimes(part) ==> DistinctTimes(Openers(runs, session, current, part))
    decreases |part|
  {
    if part != [] {
      var init, last := part[..|part| - 1], part[|part| - 1];
      OpenersElements(runs, session, current, init);
      SplitLast(part);
      if DistinctTimes(part) {
        assert DistinctTimes(init);
        forall r | r in init ensures RunTime(r) != RunTime(last) {}
        assert forall r | r in Openers(runs, session, current, init) :: r in init;
      }
    }
  }

  lemma TurnTimesDistinct(runs: seq<Run>, openers: seq<Run>, turns: seq<Turn>)
    requires AreTurnsOf(runs, openers, turns) && DistinctTimes(openers)
    ensures DistinctBy(turns, TurnTime)
  {
    forall i, j | 0 <= i < j < |turns| ensures TurnTime(turns[i]) != TurnTime(turns[j]) {
      assert RunTime(openers[i]) != RunTime(openers[j]);
    }
  }

  /** A turn collected from one order of the records is collected from the other. */
  lemma TurnIgnoresOrder(a: seq<Run>, b: seq<Run>, session: string, current: string,
                         turnsA: seq<Turn>, turnsB: seq<Turn>, t: Turn)
    requires SameRuns(a, b) && DistinctTimes(a)
    requires AreTurnsOf(a, Openers(a, session, current, a), turnsA)
    requires AreTurnsOf(b, Openers(b, session, current, b), turnsB)
    requires t in turnsA
    ensures t in turnsB
  {
    var openA, openB := Openers(a, session, current, a), Openers(b, session, current, b);
    OpenersElements(a, session, current, a);
    OpenersElements(b, session, current, b);
    var i :| 0 <= i < |turnsA| && turnsA[i] == t;
    var r := openA[i];
    assert r in openA;
    AttemptsIgnoreOrder(a, b, r.id);
    var s :| Answers(a, r.id, s);
    assert Answers(b, r.id, s);
    assert r in openB;
    var j :| 0 <= j < |openB| && openB[j] == r;
    AnswerIgnoresOrder(a, b, r.id, t.assistant, turnsB[j].assistant);
    assert turnsB[j] == t;
  }

  /** The records alone call for one history, whatever order they come in, when no two share a creation time. */
  lemma HistoryIsUnique(a: seq<Run>, b: seq<Run>, session: string, current: string, limits: Limits, size: Size,
                          builtA: BuiltHistory, builtB: BuiltHistory)
    requires SameRuns(a, b) && DistinctTimes(a) && DistinctTimes(b)
    requires IsHistory(a, session, current, limits, size, builtA)
    requires IsHistory(b, session, current, limits, size, builtB)
    ensures builtA == builtB
  {
    var turnsA :| AreTurnsOf(a, Openers(a, session, current, a), turnsA) &&
                  IsTruncation(SortBy(turnsA, TurnTime), limits, size, builtA);
    var turnsB :| AreTurnsOf(b, Openers(b, session, current, b), turnsB) &&
                  IsTruncation(SortBy(turnsB, TurnTime), limits, size, builtB);
    SortedTurnsIgnoreOrder(a, b, session, current, turnsA, turnsB);
    TruncationIsUnique(SortBy(turnsA, TurnTime), limits, size, builtA, builtB);
  }

  /**
   Records in any order give one and the same history, when ids are unique and
   no two records were created at the same time.
   */
  lemma BuildIgnoresOrder(a: seq<Run>, b: seq<Run>, session: string, current: string, limits: Limits, size: Size)
    requires SameRuns(a, b) && UniqueIds(a) && UniqueIds(b) && DistinctTimes(a) && DistinctTimes(b)
    ensures HistoryOf(a, session, current, limits, size) == HistoryOf(b, session, current, limits, size)
  {
    HistoryOfIsHistory(a, session, current, limits, size);
    HistoryOfIsHistory(b, session, current, limits, size);
    HistoryIsUnique(a, b, session, current, limits, size,
                    HistoryOf(a, session, current, limits, size), HistoryOf(b, session, current, limits, size));
  }

  lemma SortedTurnsIgnoreOrder(a: seq<Run>, b: seq<Run>, session: string, current: string,
                               turnsA: seq<Turn>, turnsB: seq<Turn>)
    requires SameRuns(a, b) && DistinctTimes(a) && DistinctTimes(b)
    requires AreTurnsOf(a, Openers(a, session, current, a), turnsA)
    requires AreTurnsOf(b, Openers(b, session, current, b), turnsB)
    ensures SortBy(turnsA, TurnTime) == SortBy(turnsB, TurnTime)
  {
    OpenersElements(a, session, current, a);
    OpenersElements(b, session, current, b);
    TurnTimesDistinct(a, Openers(a, session, current, a), turnsA);
    TurnTimesDistinct(b, Openers(b, session, current, b), turnsB);
    SortBySorts(turnsA, TurnTime);
    SortBySorts(turnsB, TurnTime);
    SortByKeepsDistinct(turnsA, TurnTime, TurnTime);
    SortByKeepsDistinct(turnsB, TurnTime, TurnTime);
    forall t ensures t in SortBy(turnsA, TurnTime) <==> t in SortBy(turnsB, TurnTime) {
      SortByKeepsElements(turnsA, TurnTime, t);
      SortByKeepsElements(turnsB, TurnTime, t);
      if t in turnsA {
        TurnIgnoresOrder(a, b, session, current, turnsA, turnsB, t);
      }
      if t in turnsB {
        TurnIgnoresOrder(b, a, session, current, turnsB, turnsA, t);
      }
    }
    SortedIsUnique(SortBy(turnsA, TurnTime), SortBy(turnsB, TurnTime), TurnTime);
  }
}
