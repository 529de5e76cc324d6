/**
 What other sessions contribute to a history: nothing, when a retry stays in the
 session of the run it retries, and exactly when that is so in general.
 */
module Sessions {
  import opened Options
  import opened Sequences
  import opened Sorting
  import opened AttemptChains
  import opened ChatHistory

  // ------------------------------------------------------ sessions apart

  function OnlySession(runs: seq<Run>, session: string): seq<Run> {
    Filter(runs, (r: Run) => r.session == Some(session))
  }

  lemma OnlySessionElements(runs: seq<Run>, session: string)
    ensures forall r :: r in OnlySession(runs, session) <==> r in runs && r.session == Some(session)
  {
    FilterElements(runs, (r: Run) => r.session == Some(session));
  }

  lemma OnlySessionKeepsDistinct(runs: seq<Run>, session: string)
    ensures |OnlySession(runs, session)| <= |runs|
    ensures UniqueIds(runs) ==> UniqueIds(OnlySession(runs, session))
    ensures DistinctTimes(runs) ==> DistinctTimes(OnlySession(runs, session))
  {
    var ours := (r: Run) => r.session == Some(session);
    FilterShrinks(runs, ours);
    if UniqueIds(runs) {
      FilterKeepsDistinct(runs, ours, RunId);
    }
    if DistinctTimes(runs) {
      FilterKeepsDistinct(runs, ours, RunTime);
    }
  }

  /** Every attempt at `root` belongs to the session. */
  ghost predicate Confined(runs: seq<Run>, session: string, root: string) {
    forall r | AttemptOf(runs, root, r) :: r.session == Some(session)
  }

  lemma {:induction false} ConfinedRetries(runs: seq<Run>, session: string, root: string, id: string, n: nat)
    requires Confined(runs, session, root) && Retries(runs, id, root, n)
    ensures Retries(OnlySession(runs, session), id, root, n)
    decreases n
  {
    if n > 0 {
      var r :| r in runs && r.id == id && r.retryOf.Some? && Retries(runs, r.retryOf.value, root, n - 1);
      ConfinedRetries(runs, session, root, r.retryOf.value, n - 1);
      assert AttemptOf(runs, root, r);
      OnlySessionElements(runs, session);
    }
  }

  lemma {:induction false} RetriesInPart(runs: seq<Run>, session: string, root: string, id: string, n: nat)
    requires Retries(OnlySession(runs, session), id, root, n)
    ensures Retries(runs, id, root, n)
    decreases n
  {
    if n > 0 {
      var part := OnlySession(runs, session);
      var r :| r in part && r.id == id && r.retryOf.Some? && Retries(part, r.retryOf.value, root, n - 1);
      RetriesInPart(runs, session, root, r.retryOf.value, n - 1);
      OnlySessionElements(runs, session);
    }
  }

  /** Other sessions can be deleted without changing a root's attempts exactly when they hold none of them. */
  lemma AttemptsSurviveDeletionIff(runs: seq<Run>, session: string, root: string)
    ensures (forall r :: AttemptOf(runs, root, r) <==> AttemptOf(OnlySession(runs, session), root, r))
            <==> Confined(runs, session, root)
  {
    OnlySessionElements(runs, session);
    var part := OnlySession(runs, session);
    forall r | AttemptOf(part, root, r) ensures AttemptOf(runs, root, r) {
      var n: nat :| Retries(part, r.id, root, n);
      RetriesInPart(runs, session, root, r.id, n);
    }
    if Confined(runs, session, root) {
      forall r | AttemptOf(runs, root, r) ensures AttemptOf(part, root, r) {
        var n: nat :| Retries(runs, r.id, root, n);
        ConfinedRetries(runs, session, root, r.id, n);
      }
    }
  }

  /** Every retry carries the session of the run it retries. */
  ghost predicate SessionsCarried(runs: seq<Run>) {
    forall c, p | c in runs && p in runs && c.retryOf == Some(p.id) :: c.session == p.session
  }

  lemma {:induction false} CarriedDown(runs: seq<Run>, root: Run, r: Run, n: nat)
    requires UniqueIds(runs) && SessionsCarried(runs) && root in runs && r in runs
    requires Retries(runs, r.id, root.id, n)
    ensures r.session == root.session
    decreases n
  {
    if n == 0 {
      SameIdSameRun(runs, r, root);
    } else {
      var q :| q in runs && q.id == r.id && q.retryOf.Some? && Retries(runs, q.retryOf.value, root.id, n - 1);
      SameIdSameRun(runs, q, r);
      if n - 1 > 0 {
        var p :| p in runs && p.id == q.retryOf.value && p.retryOf.Some? && Retries(runs, p.retryOf.value, root.id, n - 2);
        CarriedDown(runs, root, p, n - 1);
      }
    }
  }

  lemma CarriedIsConfined(runs: seq<Run>, session: string, root: Run)
    requires UniqueIds(runs) && SessionsCarried(runs) && root in runs && root.session == Some(session)
    ensures Confined(runs, session, root.id)
  {
    forall r | AttemptOf(runs, root.id, r) ensures r.session == Some(session) {
      var n: nat :| Retries(runs, r.id, root.id, n);
      CarriedDown(runs, root, r, n);
    }
  }

  /** No root of this session has an attempt in another. */
  ghost predicate AllConfined(runs: seq<Run>, session: string) {
    forall r | r in runs && r.session == Some(session) && r.retryOf.None? :: Confined(runs, session, r.id)
  }

  lemma CarriedSessionsAreEnough(runs: seq<Run>, session: string)
    requires UniqueIds(runs) && SessionsCarried(runs)
    ensures AllConfined(runs, session)
  {
    forall r | r in runs && r.session == Some(session) && r.retryOf.None? ensures Confined(runs, session, r.id) {
      CarriedIsConfined(runs, session, r);
    }
  }

  /** The search pops the same ids and finds the same records, while all it can find is in the session. */
  lemma {:induction false} ExploreSurvivesDeletion(runs: seq<Run>, session: string, root: string, found: set<Run>,
                                                   chain: seq<Run>, frontier: seq<string>, fuel: nat)
    requires ClosedUnderRetries(runs, root, found) && forall r | r in found :: r.session == Some(session)
    requires forall f | f in frontier :: f in KnownIds(root, found)
    ensures Explore(OnlySession(runs, session), chain, frontier, fuel) == Explore(runs, chain, frontier, fuel)
    decreases fuel
  {
    if frontier != [] && fuel > 0 {
      RetriesSurviveDeletion(runs, session, root, found, frontier[|frontier| - 1]);
      FrontierStaysKnown(runs, root, found, frontier);
      ExploreSurvivesDeletion(runs, session, root, found, NextChain(runs, chain, frontier), NextFrontier(runs, frontier), fuel - 1);
    }
  }

  ghost function KnownIds(root: string, found: set<Run>): set<string> {
    {root} + set c | c in found :: c.id
  }

  lemma RetriesSurviveDeletion(runs: seq<Run>, session: string, root: string, found: set<Run>, parent: string)
    requires ClosedUnderRetries(runs, root, found) && forall r | r in found :: r.session == Some(session)
    requires parent in KnownIds(root, found)
    ensures RetriesIn(OnlySession(runs, session), parent) == RetriesIn(runs, parent)
  {
    FilterTwice(runs, (r: Run) => r.session == Some(session), (r: Run) => r.retryOf == Some(parent));
  }

  lemma FrontierStaysKnown(runs: seq<Run>, root: string, found: set<Run>, frontier: seq<string>)
    requires ClosedUnderRetries(runs, root, found) && frontier != []
    requires forall f | f in frontier :: f in KnownIds(root, found)
    ensures forall f | f in NextFrontier(runs, frontier) :: f in KnownIds(root, found)
  {
    var parent := frontier[|frontier| - 1];
    assert parent in frontier;
    RetriesInElements(runs, parent);
    var added := RetriesIn(runs, parent);
    IdsIndex(added);
    forall f | f in Ids(added) ensures f in KnownIds(root, found) {
      var i :| 0 <= i < |added| && Ids(added)[i] == f;
      assert added[i] in added;
      assert added[i] in found;
    }
  }

  /** Equals included: the very chain is the same when no attempt is in another session. */
  lemma {:induction false} ChainSurvivesDeletion(runs: seq<Run>, session: string, root: string)
    requires UniqueIds(runs) && NoParent(runs, root) && Confined(runs, session, root)
    ensures ChainOf(OnlySession(runs, session), root) == ChainOf(runs, root)
  {
    var part := OnlySession(runs, session);
    AttemptsAreClosed(runs, root);
    assert forall r | r in runs && r.id == root :: Retries(runs, r.id, root, 0);
    FilterTwice(runs, (r: Run) => r.session == Some(session), (r: Run) => r.id == root);
    ExploreSurvivesDeletion(runs, session, root, Attempts(runs, root), WithId(runs, root), [root], |runs| + 1);
    PartFinishes(runs, session, root);
    FuelDoesNotMatter(part, WithId(runs, root), [root], |part| + 1, |runs| + 1);
  }

  lemma NoParentInPart(runs: seq<Run>, session: string, root: string)
    requires UniqueIds(runs) && NoParent(runs, root)
    ensures UniqueIds(OnlySession(runs, session)) && NoParent(OnlySession(runs, session), root)
  {
    OnlySessionElements(runs, session);
    OnlySessionKeepsDistinct(runs, session);
  }

  lemma PartFinishes(runs: seq<Run>, session: string, root: string)
    requires UniqueIds(runs) && NoParent(runs, root)
    ensures Finishes(OnlySession(runs, session), [root], |OnlySession(runs, session)| + 1)
    ensures Finishes(OnlySession(runs, session), [root], |runs| + 1)
  {
    var part := OnlySession(runs, session);
    NoParentInPart(runs, session, root);
    OnlySessionKeepsDistinct(runs, session);
    AttemptsAreClosed(part, root);
    var left := SearchFinishes(part, root, Attempts(part, root));
    MoreFuelFinishes(part, [root], |part| + 1, |runs| + 1);
  }

  lemma {:induction false} MoreFuelFinishes(runs: seq<Run>, frontier: seq<string>, fuel: nat, more: nat)
    requires Finishes(runs, frontier, fuel) && fuel <= more
    ensures Finishes(runs, frontier, more)
    decreases fuel
  {
    if frontier != [] {
      MoreFuelFinishes(runs, NextFrontier(runs, frontier), fuel - 1, more - 1);
    }
  }

  /** Every question of the session has the same answer without the other sessions. */
  ghost predicate SameAnswers(runs: seq<Run>, session: string, current: string, part: seq<Run>) {
    forall r | r in part && Asks(session, current, r) :: AnswerTo(OnlySession(runs, session), r.id) == AnswerTo(runs, r.id)
  }

  lemma {:induction false} TurnsSurviveDeletion(runs: seq<Run>, session: string, current: string, part: seq<Run>)
    requires SameAnswers(runs, session, current, part)
    ensures TurnsIn(OnlySession(runs, session), session, current, OnlySession(part, session)) ==
            TurnsIn(runs, session, current, part)
    decreases |part|
  {
    if part != [] {
      TurnsSurviveDeletion(runs, session, current, part[..|part| - 1]);
      OurTurnsGrow(OnlySession(runs, session), session, current, part);
      assert part[|part| - 1] in part;
    }
  }

  lemma {:induction false} OurTurnsGrow(ours: seq<Run>, session: string, current: string, part: seq<Run>)
    requires part != []
    ensures var last, init := part[|part| - 1], part[..|part| - 1];
            TurnsIn(ours, session, current, OnlySession(part, session)) ==
            TurnsIn(ours, session, current, OnlySession(init, session)) + TurnOf(ours, session, current, last)
  {
    var last, init := part[|part| - 1], part[..|part| - 1];
    var kept := OnlySession(part, session);
    if last.session == Some(session) {
      assert kept[..|kept| - 1] == OnlySession(init, session);
    } else {
      assert kept == OnlySession(init, session);
    }
  }

  /**
   A history is built from its own session alone: with every root's attempts in
   the root's session, deleting the records of all other sessions leaves the
   very same history, also when records share a creation time.
   */
  lemma OtherSessionsContributeNothing(runs: seq<Run>, session: string, current: string, limits: Limits, size: Size)
    requires UniqueIds(runs) && AllConfined(runs, session)
    ensures HistoryOf(OnlySession(runs, session), session, current, limits, size) ==
            HistoryOf(runs, session, current, limits, size)
  {
    forall r | r in runs && Asks(session, current, r)
      ensures AnswerTo(OnlySession(runs, session), r.id) == AnswerTo(runs, r.id)
    {
      RootHasNoParent(runs, r);
      ChainSurvivesDeletion(runs, session, r.id);
    }
    TurnsSurviveDeletion(runs, session, current, runs);
  }

  // ----------------------------------- exactly when another session matters

  /** `id` is `n` retry links away from `root`, every link a record of the session. */
  ghost predicate RetriesInside(runs: seq<Run>, session: string, id: string, root: string, n: nat)
    decreases n
  {
    if n == 0 then id == root
    else exists r ::
      && r in runs && r.session == Some(session) && r.id == id && r.retryOf.Some?
      && RetriesInside(runs, session, r.retryOf.value, root, n - 1)
  }

  /** An answering attempt that the session's own records lead to. */
  ghost predicate AnswersInside(runs: seq<Run>, session: string, root: string, r: Run) {
    && r in runs && r.session == Some(session) && r.completed && r.output != None
    && exists n: nat :: RetriesInside(runs, session, r.id, root, n)
  }

  ghost predicate NewestInside(runs: seq<Run>, session: string, root: string, r: Run) {
    && AnswersInside(runs, session, root, r)
    && forall q | AnswersInside(runs, session, root, q) :: q.createdAt <= r.createdAt
  }

  /**
   The newest answering attempt is one the session's own records lead to, or the
   newest they lead to says the same.
   */
  ghost predicate Undisturbed(runs: seq<Run>, session: string, root: string) {
    forall r | Newest(runs, root, r) ::
      || AnswersInside(runs, session, root, r)
      || exists q :: NewestInside(runs, session, root, q) && q.output == r.output
  }

  lemma {:induction false} InsideIsPart(runs: seq<Run>, session: string, id: string, root: string, n: nat)
    ensures RetriesInside(runs, session, id, root, n) <==> Retries(OnlySession(runs, session), id, root, n)
    decreases n
  {
    if n > 0 {
      var part := OnlySession(runs, session);
      OnlySessionElements(runs, session);
      if RetriesInside(runs, session, id, root, n) {
        var r :| r in runs && r.session == Some(session) && r.id == id && r.retryOf.Some?
                 && RetriesInside(runs, session, r.retryOf.value, root, n - 1);
        InsideIsPart(runs, session, r.retryOf.value, root, n - 1);
        assert r in part;
      }
      if Retries(part, id, root, n) {
        var r :| r in part && r.id == id && r.retryOf.Some? && Retries(part, r.retryOf.value, root, n - 1);
        InsideIsPart(runs, session, r.retryOf.value, root, n - 1);
        assert r in runs;
      }
    }
  }

  /** Without the other sessions, what answers is what the session's own records lead to. */
  lemma AnswersInsideIsPart(runs: seq<Run>, session: string, root: string)
    ensures forall r :: AnswersInside(runs, session, root, r) <==> Answers(OnlySession(runs, session), root, r)
    ensures forall r :: AnswersInside(runs, session, root, r) ==> Answers(runs, root, r)
  {
    var part := OnlySession(runs, session);
    OnlySessionElements(runs, session);
    forall r
      ensures AnswersInside(runs, session, root, r) <==> Answers(part, root, r)
      ensures AnswersInside(runs, session, root, r) ==> Answers(runs, root, r)
    {
      if AnswersInside(runs, session, root, r) {
        var n: nat :| RetriesInside(runs, session, r.id, root, n);
        InsideIsPart(runs, session, r.id, root, n);
        RetriesInPart(runs, session, root, r.id, n);
      }
      if Answers(part, root, r) {
        var n: nat :| Retries(part, r.id, root, n);
        InsideIsPart(runs, session, r.id, root, n);
      }
    }
  }

  /** Deleting other sessions can only lose answers. */
  lemma AnswersOnlyShrink(runs: seq<Run>, session: string, root: string)
    requires UniqueIds(runs) && NoParent(runs, root)
    ensures AnswerTo(OnlySession(runs, session), root).Some? ==> AnswerTo(runs, root).Some?
  {
    NoParentInPart(runs, session, root);
    AnswersInsideIsPart(runs, session, root);
    AnswerToIsNewest(runs, root);
    AnswerToIsNewest(OnlySession(runs, session), root);
  }

  lemma NewestInsideAnswers(runs: seq<Run>, session: string, root: string, r: Run)
    requires UniqueIds(runs) && DistinctTimes(runs) && NoParent(runs, root)
    requires NewestInside(runs, session, root, r)
    ensures AnswerTo(OnlySession(runs, session), root) == r.output
  {
    var part := OnlySession(runs, session);
    OnlySessionKeepsDistinct(runs, session);
    NoParentInPart(runs, session, root);
    AnswersInsideIsPart(runs, session, root);
    assert Newest(part, root, r);
    NewestAnswers(part, root, r);
  }

  lemma NewestAnswers(runs: seq<Run>, root: string, r: Run)
    requires UniqueIds(runs) && DistinctTimes(runs) && NoParent(runs, root) && Newest(runs, root, r)
    ensures AnswerTo(runs, root) == r.output
  {
    AnswerToIsNewest(runs, root);
    AnswerIgnoresOrder(runs, runs, root, r.output.value, AnswerTo(runs, root).value);
  }

  /** One root's answer survives the deletion of the other sessions exactly when it is undisturbed by them. */
  lemma AnswerSurvivesIff(runs: seq<Run>, session: string, root: string)
    requires UniqueIds(runs) && DistinctTimes(runs) && NoParent(runs, root)
    ensures AnswerTo(OnlySession(runs, session), root) == AnswerTo(runs, root) <==> Undisturbed(runs, session, root)
  {
    var part := OnlySession(runs, session);
    NoParentInPart(runs, session, root);
    AnswersInsideIsPart(runs, session, root);
    AnswerToIsNewest(runs, root);
    AnswerToIsNewest(part, root);
    if r :| Newest(runs, root, r) {
      NewestAnswers(runs, root, r);
      if AnswersInside(runs, session, root, r) {
        NewestInsideAnswers(runs, session, root, r);
      }
      if q :| NewestInside(runs, session, root, q) && q.output == r.output {
        NewestInsideAnswers(runs, session, root, q);
      }
      if AnswerTo(part, root) == AnswerTo(runs, root) {
        var q :| Newest(part, root, q) && q.output == AnswerTo(part, root);
        assert NewestInside(runs, session, root, q);
        assert forall r' | Newest(runs, root, r') :: r' == r by { OneNewest(runs, root, r); }
      }
    }
  }

  lemma OneNewest(runs: seq<Run>, root: string, r: Run)
    requires DistinctTimes(runs) && Newest(runs, root, r)
    ensures forall q | Newest(runs, root, q) :: q == r
  {
    forall q | Newest(runs, root, q) ensures q == r {
      SameTimeSameRun(runs, q, r);
    }
  }

  // ------------------------------------------------ histories tell answers apart

  /** Without the other sessions there are no more turns; if there are as many, they are the same but for answers. */
  lemma {:induction false} TurnsOnlyShrink(runs: seq<Run>, session: string, current: string, part: seq<Run>)
    requires UniqueIds(runs) && forall r | r in part :: r in runs
    ensures var ours := TurnsIn(OnlySession(runs, session), session, current, OnlySession(part, session));
            var all := TurnsIn(runs, session, current, part);
            |ours| <= |all| && (|ours| == |all| ==> SameKeys(ours, all, TurnTime))
    decreases |part|
  {
    if part != [] {
      var last := part[|part| - 1];
      assert last in part;
      TurnsOnlyShrink(runs, session, current, part[..|part| - 1]);
      OurTurnsGrow(OnlySession(runs, session), session, current, part);
      TurnOnlyShrinks(runs, session, current, last);
    }
  }

  lemma TurnOnlyShrinks(runs: seq<Run>, session: string, current: string, r: Run)
    requires UniqueIds(runs) && r in runs
    ensures var ours, all := TurnOf(OnlySession(runs, session), session, current, r), TurnOf(runs, session, current, r);
            && |ours| <= |all| <= 1 && (|ours| == 1 ==> ours[0].createdAt == all[0].createdAt)
            && (ours == all && Asks(session, current, r) ==>
                  AnswerTo(OnlySession(runs, session), r.id) == AnswerTo(runs, r.id))
  {
    if Asks(session, current, r) {
      RootHasNoParent(runs, r);
      AnswersOnlyShrink(runs, session, r.id);
    }
  }

  lemma {:induction false} SameTurnsSameAnswers(runs: seq<Run>, session: string, current: string, part: seq<Run>)
    requires UniqueIds(runs) && forall r | r in part :: r in runs
    requires TurnsIn(OnlySession(runs, session), session, current, OnlySession(part, session)) ==
             TurnsIn(runs, session, current, part)
    ensures SameAnswers(runs, session, current, part)
    decreases |part|
  {
    if part != [] {
      var init, last := part[..|part| - 1], part[|part| - 1];
      assert last in part;
      OurTurnsGrow(OnlySession(runs, session), session, current, part);
      TurnsOnlyShrink(runs, session, current, init);
      TurnOnlyShrinks(runs, session, current, last);
      SameEnds(TurnsIn(OnlySession(runs, session), session, current, OnlySession(init, session)),
               TurnOf(OnlySession(runs, session), session, current, last),
               TurnsIn(runs, session, current, init), TurnOf(runs, session, current, last));
      SameTurnsSameAnswers(runs, session, current, init);
      SplitLast(part);
    }
  }

  lemma SameEnds<T>(a: seq<T>, x: seq<T>, b: seq<T>, y: seq<T>)
    requires a + x == b + y && |a| <= |b| && |x| <= |y|
    ensures a == b && x == y
  {
    assert (a + x)[..|a|] == a && (b + y)[..|b|] == b;
    assert (a + x)[|a|..] == x && (b + y)[|b|..] == y;
  }

  lemma MessagesTellTurns(a: seq<Turn>, b: seq<Turn>)
    requires |a| == |b| ==> SameKeys(a, b, TurnTime)
    requires Messages(a) == Messages(b)
    ensures a == b
  {
    MessagesArePairs(a);
    MessagesArePairs(b);
    forall i | 0 <= i < |a| ensures a[i] == b[i] {
      assert TurnTime(a[i]) == TurnTime(b[i]);
      assert Messages(a)[2 * i] == Messages(b)[2 * i] && Messages(a)[2 * i + 1] == Messages(b)[2 * i + 1];
    }
  }

  const NO_SIZE: Size := (turns: seq<Turn>) => 0

  /** Under limits that omit nothing, the messages are those of all turns. */
  lemma NothingOmitted(turns: seq<Turn>, n: nat)
    requires |turns| <= n
    ensures Truncated(turns, Limits(n, 0), NO_SIZE).messages == Messages(turns)
  {
    assert Fits(turns, Limits(n, 0), NO_SIZE, 0);
    assert turns[0..] == turns;
  }

  /** If the histories under generous limits are the same, every question has the same answer. */
  lemma SameHistorySameAnswers(runs: seq<Run>, session: string, current: string, n: nat)
    requires UniqueIds(runs) && |TurnsIn(runs, session, current, runs)| <= n
    requires HistoryOf(OnlySession(runs, session), session, current, Limits(n, 0), NO_SIZE) ==
             HistoryOf(runs, session, current, Limits(n, 0), NO_SIZE)
    ensures SameAnswers(runs, session, current, runs)
  {
    var ours := TurnsIn(OnlySession(runs, session), session, current, OnlySession(runs, session));
    var all := TurnsIn(runs, session, current, runs);
    TurnsOnlyShrink(runs, session, current, runs);
    SortBySorts(ours, TurnTime);
    SortBySorts(all, TurnTime);
    SameLength(ours, SortBy(ours, TurnTime));
    SameLength(all, SortBy(all, TurnTime));
    NothingOmitted(SortBy(ours, TurnTime), n);
    NothingOmitted(SortBy(all, TurnTime), n);
    if |ours| == |all| {
      SortIsInjective(ours, all, TurnTime);
    }
    MessagesTellTurns(SortBy(ours, TurnTime), SortBy(all, TurnTime));
    SameTurnsSameAnswers(runs, session, current, runs);
  }

  lemma SameLength<T>(a: seq<T>, b: seq<T>)
    requires multiset(a) == multiset(b)
    ensures |a| == |b|
  {
    assert |multiset(a)| == |a| && |multiset(b)| == |b|;
  }

  /** The histories for all limits and sizes are the same without the other sessions, exactly when every answer is. */
  lemma HistoriesTellAnswers(runs: seq<Run>, session: string, current: string)
    requires UniqueIds(runs)
    ensures (forall limits, size: Size ::
               HistoryOf(OnlySession(runs, session), session, current, limits, size) ==
               HistoryOf(runs, session, current, limits, size))
            <==> SameAnswers(runs, session, current, runs)
  {
    if SameAnswers(runs, session, current, runs) {
      TurnsSurviveDeletion(runs, session, current, runs);
    }
    var n := |TurnsIn(runs, session, current, runs)|;
    if HistoryOf(OnlySession(runs, session), session, current, Limits(n, 0), NO_SIZE) ==
       HistoryOf(runs, session, current, Limits(n, 0), NO_SIZE)
    {
      SameHistorySameAnswers(runs, session, current, n);
    }
  }

  /**
   Exactly when other sessions contribute nothing: for all limits and sizes the
   history is the same without their records, if and only if every question of
   the session is undisturbed by them.
   */
  lemma DeletionIsHarmlessIff(runs: seq<Run>, session: string, current: string)
    requires UniqueIds(runs) && DistinctTimes(runs)
    ensures (forall limits, size: Size ::
               HistoryOf(OnlySession(runs, session), session, current, limits, size) ==
               HistoryOf(runs, session, current, limits, size))
            <==> (forall r | r in runs && Asks(session, current, r) :: Undisturbed(runs, session, r.id))
  {
    HistoriesTellAnswers(runs, session, current);
    forall r | r in runs && Asks(session, current, r)
      ensures AnswerTo(OnlySession(runs, session), r.id) == AnswerTo(runs, r.id) <==> Undisturbed(runs, session, r.id)
    {
      RootHasNoParent(runs, r);
      AnswerSurvivesIff(runs, session, r.id);
    }
  }

  /** What fails: an unanswered question whose retry was recorded, and answered, in another session. */
  predicate AnsweredElsewhere(session: string, current: string, ours: Run, theirs: Run) {
    && Asks(session, current, ours) && !HasAnswer(ours)
    && theirs.session != Some(session) && theirs.retryOf == Some(ours.id) && HasAnswer(theirs)
    && theirs.id != ours.id && theirs.createdAt != ours.createdAt
  }

  /** The other session's answer enters, and without its records the turn is gone. */
  lemma ForeignRetryLeaks(session: string, current: string, ours: Run, theirs: Run)
    requires AnsweredElsewhere(session, current, ours, theirs)
    ensures var runs := [ours, theirs];
            && OpensTurn(runs, session, current, ours)
            && IsAnswer(runs, ours.id, theirs.output.value)
            && !OpensTurn(OnlySession(runs, session), session, current, ours)
            && !Undisturbed(runs, session, ours.id)
  {
    var runs := [ours, theirs];
    assert theirs in runs && Retries(runs, ours.id, ours.id, 0);
    assert Retries(runs, theirs.id, ours.id, 1);
    assert Answers(runs, ours.id, theirs);
    assert Newest(runs, ours.id, theirs);
    OnlySessionElements(runs, session);
  }

  lemma ForeignRetryChangesHistory(session: string, current: string, ours: Run, theirs: Run)
    requires AnsweredElsewhere(session, current, ours, theirs)
    ensures exists limits, size: Size ::
              HistoryOf(OnlySession([ours, theirs], session), session, current, limits, size) !=
              HistoryOf([ours, theirs], session, current, limits, size)
  {
    ForeignRetryLeaks(session, current, ours, theirs);
    assert ours in [ours, theirs];
    DeletionIsHarmlessIff([ours, theirs], session, current);
  }

  lemma ForeignRetryExists()
    ensures AnsweredElsewhere("s", "current",
                              Run("r1", Some("s"), 1, false, Some("question"), "", None, None),
                              Run("r2", Some("t"), 2, true, Some("question"), "", Some("answer"), Some("r1")))
  {
    assert "s"[0] != "t"[0] && "r1"[1] != "r2"[1] && |"current"| != |"r1"|;
  }
}
