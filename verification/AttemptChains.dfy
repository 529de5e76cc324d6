/**
 Which runs are attempts at one user message: a root run and every retry that
 descends from it. `AttemptChain` follows the source's search with a stack;
 `ChainOf` is the sequence it returns, order of equals included, and `AttemptOf`
 says what must be in it, in terms of the retry links alone.
 */
module AttemptChains {
  import opened Options
  import opened Sequences
  import opened Sorting

  /**
   A run record, as far as history reads it. `input` and `output` are the
   trimmed, non-empty texts of the payloads (absent otherwise), and
   `attachments` is the suffix that names the images of the request.
   */
  datatype Run = Run(
    id: string,
    session: Option<string>,
    createdAt: int,
    completed: bool,
    input: Option<string>,
    attachments: string,
    output: Option<string>,
    retryOf: Option<string>
  )

  const RunTime: Run -> int := (r: Run) => r.createdAt
  const RunId: Run -> string := (r: Run) => r.id

  ghost predicate UniqueIds(runs: seq<Run>) {
    DistinctBy(runs, RunId)
  }

  ghost predicate NoParent(runs: seq<Run>, root: string) {
    forall r | r in runs && r.id == root :: r.retryOf.None?
  }

  // ------------------------------------------------------------- attempts

  /** `id` is `n` retry links away from `root`. */
  ghost predicate Retries(runs: seq<Run>, id: string, root: string, n: nat)
    decreases n
  {
    if n == 0 then id == root
    else exists r :: r in runs && r.id == id && r.retryOf.Some? && Retries(runs, r.retryOf.value, root, n - 1)
  }

  /** `r` is the root run or one of its transitive retries. */
  ghost predicate AttemptOf(runs: seq<Run>, root: string, r: Run) {
    r in runs && exists n: nat :: Retries(runs, r.id, root, n)
  }

  ghost function Attempts(runs: seq<Run>, root: string): set<Run> {
    set r | r in runs && AttemptOf(runs, root, r)
  }

  /** Exactly the attempts of `root`, each once, oldest first. */
  ghost predicate IsChain(runs: seq<Run>, root: string, chain: seq<Run>) {
    && (forall r :: r in chain <==> AttemptOf(runs, root, r))
    && UniqueIds(chain)
    && Sorted(chain, RunTime)
  }

  /** Holds the root run and, with any record, its retries. */
  ghost predicate ClosedUnderRetries(runs: seq<Run>, root: string, found: set<Run>) {
    && (forall r | r in runs && r.id == root :: r in found)
    && (forall r | r in runs && r.retryOf == Some(root) :: r in found)
    && (forall r, c | r in runs && c in found && r.retryOf == Some(c.id) :: r in found)
  }

  ghost function Known(root: string, chain: seq<Run>): set<string> {
    {root} + set c | c in chain :: c.id
  }

  /** The frontier is what has been found and not been expanded, each once. */
  ghost predicate Pending(root: string, chain: seq<Run>, frontier: seq<string>, expanded: set<string>) {
    && (forall i, j | 0 <= i < j < |frontier| :: frontier[i] != frontier[j])
    && (forall f | f in frontier :: f !in expanded)
    && Known(root, chain) == expanded + (set f | f in frontier)
  }

  /**
   Where the search for attempts stands: `expanded` are the ids whose retries
   are all in `chain`, and `chain` stays inside any closed set `bound`.
   */
  ghost predicate Reached(runs: seq<Run>, root: string, bound: set<Run>, chain: seq<Run>, expanded: set<string>) {
    && UniqueIds(chain)
    && (forall c | c in chain :: c in runs && c in bound)
    && (forall r | r in runs && r.id == root :: r in chain)
    && (forall r | r in runs && r.retryOf.Some? && r.retryOf.value in expanded :: r in chain)
    && (forall c | c in chain :: c.id == root || (c.retryOf.Some? && c.retryOf.value in expanded))
  }

  lemma SameIdSameRun(runs: seq<Run>, a: Run, b: Run)
    requires UniqueIds(runs) && a in runs && b in runs && a.id == b.id
    ensures a == b
  {
  }

  /** The attempts are closed under retries, and every closed set holds them. */
  lemma AttemptsAreClosed(runs: seq<Run>, root: string)
    ensures ClosedUnderRetries(runs, root, Attempts(runs, root))
  {
    assert Retries(runs, root, root, 0);
    forall r | r in runs && r.retryOf == Some(root) ensures AttemptOf(runs, root, r) {
      assert Retries(runs, r.id, root, 1);
    }
    forall r, c | r in runs && AttemptOf(runs, root, c) && r.retryOf == Some(c.id)
      ensures AttemptOf(runs, root, r)
    {
      var n: nat :| Retries(runs, c.id, root, n);
      assert Retries(runs, r.id, root, n + 1);
    }
  }

  lemma {:induction false} ClosedHoldsAttempts(runs: seq<Run>, root: string, found: set<Run>, r: Run, n: nat)
    requires UniqueIds(runs) && ClosedUnderRetries(runs, root, found)
    requires r in runs && Retries(runs, r.id, root, n)
    ensures r in found
    decreases n
  {
    if n > 0 {
      var q :| q in runs && q.id == r.id && q.retryOf.Some? && Retries(runs, q.retryOf.value, root, n - 1);
      SameIdSameRun(runs, q, r);
      if n - 1 > 0 {
        var p :| p in runs && p.id == q.retryOf.value && p.retryOf.Some? && Retries(runs, p.retryOf.value, root, n - 2);
        ClosedHoldsAttempts(runs, root, found, p, n - 1);
      }
    }
  }

  lemma Pop(root: string, chain: seq<Run>, frontier: seq<string>, parent: string, expanded: set<string>)
    requires Pending(root, chain, frontier + [parent], expanded)
    ensures parent !in expanded && parent !in frontier
    ensures forall f | f in frontier :: f !in expanded
    ensures expanded + (set f | f in frontier) + {parent} == Known(root, chain)
  {
    var whole := frontier + [parent];
    assert whole[|frontier|] == parent;
    assert forall i | 0 <= i < |frontier| :: whole[i] == frontier[i];
    assert (set f | f in whole) == (set f | f in frontier) + {parent};
  }

  lemma PopShrinks(runs: seq<Run>, root: string, bound: set<Run>, chain: seq<Run>, parent: string, expanded: set<string>)
    requires Reached(runs, root, bound, chain, expanded)
    requires parent in Known(root, chain) && parent !in expanded
    ensures |Remaining(runs, root, expanded + {parent})| < |Remaining(runs, root, expanded)|
  {
    assert parent in Remaining(runs, root, expanded);
    assert Remaining(runs, root, expanded + {parent}) == Remaining(runs, root, expanded) - {parent};
  }

  /** Ids that can be expanded and have not been. */
  ghost function Remaining(runs: seq<Run>, root: string, expanded: set<string>): set<string> {
    ({root} + set r | r in runs :: r.id) - expanded
  }

  // -------------------------------------------------------------- the search

  function WithId(runs: seq<Run>, id: string): seq<Run> {
    Filter(runs, (r: Run) => r.id == id)
  }

  /** The retries of `parent`, in the order of the records. */
  function RetriesIn(runs: seq<Run>, parent: string): seq<Run> {
    Filter(runs, (r: Run) => r.retryOf == Some(parent))
  }

  function Ids(runs: seq<Run>): seq<string> {
    if runs == [] then [] else Ids(runs[..|runs| - 1]) + [runs[|runs| - 1].id]
  }

  /** One id is popped, and its retries join the frontier in its place. */
  function NextFrontier(runs: seq<Run>, frontier: seq<string>): seq<string>
    requires frontier != []
  {
    frontier[..|frontier| - 1] + Ids(RetriesIn(runs, frontier[|frontier| - 1]))
  }

  function NextChain(runs: seq<Run>, chain: seq<Run>, frontier: seq<string>): seq<Run>
    requires frontier != []
  {
    chain + RetriesIn(runs, frontier[|frontier| - 1])
  }

  /** The chain after as many ids are popped as there are, or as `fuel` allows. */
  function Explore(runs: seq<Run>, chain: seq<Run>, frontier: seq<string>, fuel: nat): seq<Run>
    decreases fuel
  {
    if frontier == [] || fuel == 0 then chain
    else Explore(runs, NextChain(runs, chain, frontier), NextFrontier(runs, frontier), fuel - 1)
  }

  /** What the search finds, in the order it finds it; `SearchFinishes` says the fuel is enough. */
  function Discovered(runs: seq<Run>, root: string): seq<Run> {
    Explore(runs, WithId(runs, root), [root], |runs| + 1)
  }

  /** The root and every retry descending from it, oldest first, and among equals the first found. */
  function ChainOf(runs: seq<Run>, root: string): seq<Run> {
    SortBy(Discovered(runs, root), RunTime)
  }

  /** The frontier empties before the fuel does. */
  ghost predicate Finishes(runs: seq<Run>, frontier: seq<string>, fuel: nat)
    decreases fuel
  {
    frontier == [] || (fuel > 0 && Finishes(runs, NextFrontier(runs, frontier), fuel - 1))
  }

  lemma {:induction false} FuelDoesNotMatter(runs: seq<Run>, chain: seq<Run>, frontier: seq<string>, fuel: nat, more: nat)
    requires Finishes(runs, frontier, fuel) && Finishes(runs, frontier, more)
    ensures Explore(runs, chain, frontier, fuel) == Explore(runs, chain, frontier, more)
    decreases fuel
  {
    if frontier != [] {
      FuelDoesNotMatter(runs, NextChain(runs, chain, frontier), NextFrontier(runs, frontier), fuel - 1, more - 1);
    }
  }

  /** Whatever every popped id keeps, and that leaves fuel while ids remain, holds when the search is over. */
  lemma {:induction false} ExploreKeeps(runs: seq<Run>, inv: (seq<Run>, seq<string>, nat) -> bool,
                                        chain: seq<Run>, frontier: seq<string>, fuel: nat) returns (left: nat)
    requires inv(chain, frontier, fuel)
    requires forall c, f, n: nat | f != [] && inv(c, f, n) ::
               n > 0 && inv(NextChain(runs, c, f), NextFrontier(runs, f), n - 1)
    ensures Finishes(runs, frontier, fuel)
    ensures inv(Explore(runs, chain, frontier, fuel), [], left)
    decreases fuel
  {
    if frontier == [] {
      left := fuel;
    } else {
      left := ExploreKeeps(runs, inv, NextChain(runs, chain, frontier), NextFrontier(runs, frontier), fuel - 1);
    }
  }

  /** The search stands somewhere between its start and its end, with fuel for every id left. */
  ghost predicate UnderWay(runs: seq<Run>, root: string, bound: set<Run>, chain: seq<Run>, frontier: seq<string>, fuel: nat) {
    exists expanded ::
      && Reached(runs, root, bound, chain, expanded)
      && Pending(root, chain, frontier, expanded)
      && |Remaining(runs, root, expanded)| <= fuel
  }

  lemma PopKeeps(runs: seq<Run>, root: string, bound: set<Run>, chain: seq<Run>, frontier: seq<string>, fuel: nat)
    requires UniqueIds(runs) && NoParent(runs, root) && ClosedUnderRetries(runs, root, bound)
    requires UnderWay(runs, root, bound, chain, frontier, fuel) && frontier != []
    ensures fuel > 0
    ensures UnderWay(runs, root, bound, NextChain(runs, chain, frontier), NextFrontier(runs, frontier), fuel - 1)
  {
    var expanded :| Reached(runs, root, bound, chain, expanded) && Pending(root, chain, frontier, expanded)
                    && |Remaining(runs, root, expanded)| <= fuel;
    PopKeepsBounds(runs, root, bound, chain, frontier[..|frontier| - 1], frontier[|frontier| - 1], expanded) by {
      SplitLast(frontier);
    }
  }

  lemma PopKeepsBounds(runs: seq<Run>, root: string, bound: set<Run>, chain: seq<Run>, rest: seq<string>, parent: string,
                       expanded: set<string>)
    requires UniqueIds(runs) && NoParent(runs, root) && ClosedUnderRetries(runs, root, bound)
    requires Reached(runs, root, bound, chain, expanded) && Pending(root, chain, rest + [parent], expanded)
    ensures var added := RetriesIn(runs, parent);
            && Reached(runs, root, bound, chain + added, expanded + {parent})
            && Pending(root, chain + added, rest + Ids(added), expanded + {parent})
            && |Remaining(runs, root, expanded + {parent})| < |Remaining(runs, root, expanded)|
  {
    RetriesInElements(runs, parent);
    Pop(root, chain, rest, parent, expanded);
    PopShrinks(runs, root, bound, chain, parent, expanded);
    PushReaches(runs, root, bound, parent, chain, expanded, RetriesIn(runs, parent));
    PushPends(root, parent, chain, rest, expanded, RetriesIn(runs, parent));
  }

  lemma SearchStarts(runs: seq<Run>, root: string, bound: set<Run>)
    requires UniqueIds(runs) && ClosedUnderRetries(runs, root, bound)
    ensures UnderWay(runs, root, bound, WithId(runs, root), [root], |runs| + 1)
  {
    FilterElements(runs, (r: Run) => r.id == root);
    FilterKeepsDistinct(runs, (r: Run) => r.id == root, RunId);
    IdsAreFew(runs);
    FewRemain(runs, root);
    assert Reached(runs, root, bound, WithId(runs, root), {});
    RootPends(runs, root);
  }

  lemma RootPends(runs: seq<Run>, root: string)
    ensures Pending(root, WithId(runs, root), [root], {})
  {
    FilterElements(runs, (r: Run) => r.id == root);
    assert (set f | f in [root]) == {root};
  }

  lemma FewRemain(runs: seq<Run>, root: string)
    ensures |Remaining(runs, root, {})| <= |runs| + 1
  {
    IdsAreFew(runs);
    var ids := set r | r in runs :: r.id;
    assert Remaining(runs, root, {}) == ids + {root};
  }

  lemma {:induction false} IdsAreFew(runs: seq<Run>)
    ensures |set r | r in runs :: r.id| <= |runs|
    decreases |runs|
  {
    if runs != [] {
      var init, last := runs[..|runs| - 1], runs[|runs| - 1];
      IdsAreFew(init);
      SplitLast(runs);
      assert (set r | r in runs :: r.id) == (set r | r in init :: r.id) + {last.id};
    }
  }

  lemma EveryPopKeeps(runs: seq<Run>, root: string, bound: set<Run>)
    requires UniqueIds(runs) && NoParent(runs, root) && ClosedUnderRetries(runs, root, bound)
    ensures forall c, f, n: nat | f != [] && UnderWay(runs, root, bound, c, f, n) ::
              n > 0 && UnderWay(runs, root, bound, NextChain(runs, c, f), NextFrontier(runs, f), n - 1)
  {
    forall c, f, n: nat | f != [] && UnderWay(runs, root, bound, c, f, n)
      ensures n > 0 && UnderWay(runs, root, bound, NextChain(runs, c, f), NextFrontier(runs, f), n - 1)
    {
      PopKeeps(runs, root, bound, c, f, n);
    }
  }

  /** The search ends, having reached every retry and stayed inside any set closed under retries. */
  lemma {:induction false} SearchFinishes(runs: seq<Run>, root: string, bound: set<Run>) returns (left: nat)
    requires UniqueIds(runs) && NoParent(runs, root) && ClosedUnderRetries(runs, root, bound)
    ensures Finishes(runs, [root], |runs| + 1)
    ensures UnderWay(runs, root, bound, Discovered(runs, root), [], left)
  {
    var inv := (c, f, n: nat) => UnderWay(runs, root, bound, c, f, n);
    SearchStarts(runs, root, bound);
    EveryPopKeeps(runs, root, bound);
    left := ExploreKeeps(runs, inv, WithId(runs, root), [root], |runs| + 1);
  }

  lemma DoneIsClosed(runs: seq<Run>, root: string, bound: set<Run>, chain: seq<Run>, expanded: set<string>)
    requires Reached(runs, root, bound, chain, expanded) && Pending(root, chain, [], expanded)
    ensures ClosedUnderRetries(runs, root, set c | c in chain)
  {
    assert Known(root, chain) == expanded;
  }

  lemma SearchEnds(runs: seq<Run>, root: string, chain: seq<Run>, left: nat)
    requires UniqueIds(runs) && UnderWay(runs, root, Attempts(runs, root), chain, [], left)
    ensures UniqueIds(chain) && forall r :: r in chain <==> AttemptOf(runs, root, r)
  {
    var expanded :| Reached(runs, root, Attempts(runs, root), chain, expanded) && Pending(root, chain, [], expanded);
    var found := set c | c in chain;
    DoneIsClosed(runs, root, Attempts(runs, root), chain, expanded);
    forall r ensures r in chain <==> AttemptOf(runs, root, r) {
      if AttemptOf(runs, root, r) {
        var n: nat :| Retries(runs, r.id, root, n);
        ClosedHoldsAttempts(runs, root, found, r, n);
      }
    }
  }

  /** What the search returns is exactly the attempts, each once, oldest first. */
  lemma ChainHoldsAttempts(runs: seq<Run>, root: string)
    requires UniqueIds(runs) && NoParent(runs, root)
    ensures IsChain(runs, root, ChainOf(runs, root))
  {
    AttemptsAreClosed(runs, root);
    var left := SearchFinishes(runs, root, Attempts(runs, root));
    SearchEnds(runs, root, Discovered(runs, root), left);
    SortKeepsRecords(Discovered(runs, root));
  }

  /**
   The root and every retry descending from it, oldest first.

   Ends, and finds each attempt once, because every record has one parent: a
   record can be pushed only when that one parent is popped.
   */
  method AttemptChain(runs: seq<Run>, root: string) returns (chain: seq<Run>)
    requires UniqueIds(runs) && NoParent(runs, root)
    ensures chain == ChainOf(runs, root)
    ensures IsChain(runs, root, chain)
  {
    ChainHoldsAttempts(runs, root);
    chain := Search(runs, root);
    chain := SortBy(chain, RunTime);
  }

  method Search(runs: seq<Run>, root: string) returns (chain: seq<Run>)
    requires UniqueIds(runs) && NoParent(runs, root)
    ensures chain == Discovered(runs, root)
  {
    AttemptsAreClosed(runs, root);
    ghost var left := SearchFinishes(runs, root, Attempts(runs, root));
    chain := RootRuns(runs, root);
    var frontier := [root];
    ghost var fuel: nat := |runs| + 1;
    while frontier != []
      invariant Finishes(runs, frontier, fuel)
      invariant Explore(runs, chain, frontier, fuel) == Discovered(runs, root)
      decreases fuel
    {
      var parent, rest := frontier[|frontier| - 1], frontier[..|frontier| - 1];
      chain, frontier := PushRetries(runs, parent, chain, rest);
      fuel := fuel - 1;
    }
  }

  method RootRuns(runs: seq<Run>, root: string) returns (chain: seq<Run>)
    ensures chain == WithId(runs, root)
  {
    chain := [];
    for i := 0 to |runs|
      invariant chain == WithId(runs[..i], root)
    {
      FilterGrows(runs, (r: Run) => r.id == root, i);
      if runs[i].id == root {
        chain := chain + [runs[i]];
      }
    }
    TakeAll(runs);
  }

  lemma RetriesInElements(runs: seq<Run>, parent: string)
    ensures forall r :: r in RetriesIn(runs, parent) <==> r in runs && r.retryOf == Some(parent)
    ensures UniqueIds(runs) ==> UniqueIds(RetriesIn(runs, parent))
  {
    FilterElements(runs, (r: Run) => r.retryOf == Some(parent));
    if UniqueIds(runs) {
      FilterKeepsDistinct(runs, (r: Run) => r.retryOf == Some(parent), RunId);
    }
  }

  /** One turn of the search: every retry of `parent` joins the chain and the frontier. */
  method PushRetries(runs: seq<Run>, parent: string, chain0: seq<Run>, frontier0: seq<string>)
    returns (chain: seq<Run>, frontier: seq<string>)
    ensures chain == chain0 + RetriesIn(runs, parent)
    ensures frontier == frontier0 + Ids(RetriesIn(runs, parent))
  {
    chain, frontier := chain0, frontier0;
    for i := 0 to |runs|
      invariant chain == chain0 + RetriesIn(runs[..i], parent)
      invariant frontier == frontier0 + Ids(RetriesIn(runs[..i], parent))
    {
      PushGrows(runs, parent, chain0, frontier0, i);
      if runs[i].retryOf == Some(parent) {
        chain := chain + [runs[i]];
        frontier := frontier + [runs[i].id];
      }
    }
    TakeAll(runs);
  }

  lemma PushGrows(runs: seq<Run>, parent: string, chain: seq<Run>, frontier: seq<string>, i: nat)
    requires i < |runs|
    ensures var now, next := RetriesIn(runs[..i], parent), RetriesIn(runs[..i + 1], parent);
            if runs[i].retryOf == Some(parent)
            then chain + next == chain + now + [runs[i]] && frontier + Ids(next) == frontier + Ids(now) + [runs[i].id]
            else next == now
  {
    FilterGrows(runs, (r: Run) => r.retryOf == Some(parent), i);
    var now := RetriesIn(runs[..i], parent);
    IdsGrow(now, runs[i]);
    Associate(chain, now, [runs[i]]);
    Associate(frontier, Ids(now), [runs[i].id]);
  }

  lemma IdsGrow(runs: seq<Run>, r: Run)
    ensures Ids(runs + [r]) == Ids(runs) + [r.id]
  {
    assert (runs + [r])[..|runs|] == runs;
  }

  lemma {:induction false} IdsIndex(runs: seq<Run>)
    ensures |Ids(runs)| == |runs| && forall i | 0 <= i < |runs| :: Ids(runs)[i] == runs[i].id
    decreases |runs|
  {
    if runs != [] {
      IdsIndex(runs[..|runs| - 1]);
    }
  }

  lemma IdsElements(runs: seq<Run>)
    ensures (set f | f in Ids(runs)) == set r | r in runs :: r.id
  {
    IdsIndex(runs);
    forall r | r in runs ensures r.id in Ids(runs) {
      var i :| 0 <= i < |runs| && runs[i] == r;
      assert Ids(runs)[i] == r.id;
    }
  }

  /** A record whose parent is only now popped was not found before. */
  lemma RetryIsNew(runs: seq<Run>, root: string, bound: set<Run>, parent: string,
                   chain: seq<Run>, expanded: set<string>, r: Run)
    requires UniqueIds(runs) && NoParent(runs, root)
    requires Reached(runs, root, bound, chain, expanded) && parent !in expanded
    requires r in runs && r.retryOf == Some(parent)
    ensures r.id !in Known(root, chain)
  {
    forall c | c in chain ensures c.id != r.id {
      if c.id == r.id {
        SameIdSameRun(runs, c, r);
      }
    }
  }

  lemma PushReaches(runs: seq<Run>, root: string, bound: set<Run>, parent: string,
                    chain: seq<Run>, expanded: set<string>, added: seq<Run>)
    requires UniqueIds(runs) && NoParent(runs, root) && ClosedUnderRetries(runs, root, bound)
    requires Reached(runs, root, bound, chain, expanded)
    requires parent in Known(root, chain) && parent !in expanded
    requires forall r :: r in added <==> r in runs && r.retryOf == Some(parent)
    requires UniqueIds(added)
    ensures Reached(runs, root, bound, chain + added, expanded + {parent})
    ensures forall r | r in added :: r.id !in Known(root, chain)
  {
    forall r | r in added
      ensures r.id !in Known(root, chain) && r in bound
    {
      RetryIsNew(runs, root, bound, parent, chain, expanded, r);
    }
  }

  lemma PushPends(root: string, parent: string, chain: seq<Run>, frontier: seq<string>,
                  expanded: set<string>, added: seq<Run>)
    requires Pending(root, chain, frontier + [parent], expanded)
    requires forall r | r in added :: r.id !in Known(root, chain)
    requires UniqueIds(added)
    ensures Pending(root, chain + added, frontier + Ids(added), expanded + {parent})
  {
    Pop(root, chain, frontier, parent, expanded);
    IdsElements(added);
    assert Known(root, chain + added) == Known(root, chain) + (set r | r in added :: r.id);
    var frontier' := frontier + Ids(added);
    assert (set f | f in frontier') == (set f | f in frontier) + (set f | f in Ids(added));
    FrontierDistinct(frontier, parent, Known(root, chain), added);
  }

  lemma FrontierDistinct(frontier: seq<string>, parent: string, known: set<string>, added: seq<Run>)
    requires forall i, j | 0 <= i < j < |frontier + [parent]| :: (frontier + [parent])[i] != (frontier + [parent])[j]
    requires forall f | f in frontier :: f in known
    requires forall r | r in added :: r.id !in known
    requires UniqueIds(added)
    ensures var frontier' := frontier + Ids(added);
            forall i, j | 0 <= i < j < |frontier'| :: frontier'[i] != frontier'[j]
  {
    IdsIndex(added);
    var frontier' := frontier + Ids(added);
    forall i, j | 0 <= i < j < |frontier'| ensures frontier'[i] != frontier'[j] {
      if j < |frontier| {
        assert (frontier + [parent])[i] == frontier[i] && (frontier + [parent])[j] == frontier[j];
      } else {
        assert frontier'[j] == RunId(added[j - |frontier|]) && added[j - |frontier|] in added;
        if i < |frontier| {
          assert frontier[i] in frontier;
        } else {
          assert frontier'[i] == RunId(added[i - |frontier|]);
        }
      }
    }
  }

  lemma SortKeepsRecords(chain: seq<Run>)
    requires UniqueIds(chain)
    ensures var sorted := SortBy(chain, RunTime);
            UniqueIds(sorted) && Sorted(sorted, RunTime) && forall r :: r in sorted <==> r in chain
  {
    SortBySorts(chain, RunTime);
    SortByKeepsDistinct(chain, RunTime, RunId);
    forall r ensures r in SortBy(chain, RunTime) <==> r in chain {
      SortByKeepsElements(chain, RunTime, r);
    }
  }
}
