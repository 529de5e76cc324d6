/**
 Waiting for restarted services to become, and stay, the processes they are
 meant to be. `Converge` is the polling loop; `Report` is what its answer means
 in terms of the looks that were taken, with no mention of the loop's own
 bookkeeping.

 A look is numbered by its round. `look(k, i)` is what round `k` sees of target
 `i`, and `clock(k)` is the instant read once at the start of round `k`; `start`
 is the instant read before the first round, from which the deadline counts.
 */
module Convergence {
  import opened Options

  datatype ActiveState = Active | Activating | Deactivating | Reloading | Inactive | Failed | Unknown

  datatype ExecutableClass = Expected | Previous | Deleted | Replaced | Outside | Unreadable | NoProcess

  datatype Observation = Observation(
    activeState: ActiveState,
    mainPid: Option<nat>,
    executable: ExecutableClass,
    identity: Option<(nat, nat)>
  ) {
    predicate Good() {
      activeState.Active? && mainPid.Some? && executable.Expected?
    }

    /** What must not change while a service settles. */
    function Key(): Option<Held> {
      if mainPid.Some? && identity.Some?
      then Some(Held(mainPid.value, identity.value.0, identity.value.1))
      else None
    }

    /** A look that counts towards settling. */
    predicate Countable() {
      Good() && Key().Some?
    }
  }

  /** A main process and the device and inode it executes. */
  datatype Held = Held(pid: nat, device: nat, inode: nat)

  datatype Policy = Policy(deadline: nat, interval: nat, settle: nat)

  datatype Reason = NotActive | NoMainProcess | WrongExecutable | Unsettled

  datatype Converged = Converged(role: string, mainPid: nat)

  datatype NotConverged = NotConverged(role: string, reason: Reason, last: Observation)

  datatype Outcome = Ok(converged: seq<Converged>) | Err(failed: seq<NotConverged>)

  datatype Watch = Watch(last: Option<Observation>, since: Option<(nat, Held)>, done: Option<nat>)

  type Looks = (nat, nat) -> Observation
  type Clock = nat -> nat

  const NOTHING_SEEN := Observation(Unknown, None, NoProcess, None)

  function FromLast(role: string, last: Observation): NotConverged {
    var reason :=
      if !last.activeState.Active? then NotActive
      else if last.mainPid.None? then NoMainProcess
      else if !last.executable.Expected? then WrongExecutable
      else Unsettled;
    NotConverged(role, reason, last)
  }

  // ---------------------------------------------------------- specification

  ghost predicate Monotone(clock: Clock) {
    forall j: nat, k: nat | j <= k :: clock(j) <= clock(k)
  }

  /** Active, with a main process that runs the expected executable and a file that could be told. */
  ghost predicate Up(o: Observation) {
    o.activeState == Active && o.executable == Expected && o.mainPid.Some? && o.identity.Some?
  }

  /** Every look from `a` to `b` finds the service up, and shows one process and one file. */
  ghost predicate Steady(look: Looks, i: nat, a: nat, b: nat) {
    forall k | a <= k <= b ::
      Up(look(k, i)) && look(k, i).mainPid == look(b, i).mainPid && look(k, i).identity == look(b, i).identity
  }

  /** Two distinct looks, steady between them, at least `settle` apart. */
  ghost predicate Window(look: Looks, clock: Clock, settle: nat, i: nat, a: nat, b: nat) {
    a < b && Steady(look, i, a, b) && clock(b) - clock(a) >= settle
  }

  /** Some settling window has closed by round `k`. */
  ghost predicate SettledBy(look: Looks, clock: Clock, settle: nat, i: nat, k: nat) {
    exists a: nat, b: nat :: b <= k && Window(look, clock, settle, i, a, b)
  }

  /** The first settling window of `i` closes at round `b`, on process `pid`. */
  ghost predicate FirstSettledOn(look: Looks, clock: Clock, settle: nat, i: nat, b: nat, pid: nat) {
    && SettledBy(look, clock, settle, i, b)
    && (forall k: nat | k < b :: !SettledBy(look, clock, settle, i, k))
    && look(b, i).mainPid == Some(pid)
  }

  ghost predicate Expired(clock: Clock, start: nat, policy: Policy, k: nat) {
    clock(k) - start >= policy.deadline
  }

  ghost predicate AllSettledBy(look: Looks, clock: Clock, policy: Policy, roles: seq<string>, k: nat) {
    forall i | 0 <= i < |roles| :: SettledBy(look, clock, policy.settle, i, k)
  }

  /** In target order, every target among the first `n` with no window by round `k`. */
  ghost function Unsettleds(look: Looks, clock: Clock, policy: Policy, k: nat, n: nat): seq<nat> {
    if n == 0 then []
    else
      Unsettleds(look, clock, policy, k, n - 1) +
      if SettledBy(look, clock, policy.settle, n - 1, k) then [] else [n - 1]
  }

  /** A failure report on a service last seen like this: the first thing that was wrong, or that it kept changing. */
  ghost predicate Explains(f: NotConverged, role: string, last: Observation) {
    && f.role == role && f.last == last
    && (f.reason == NotActive <==> last.activeState != Active)
    && (f.reason == NoMainProcess <==> last.activeState == Active && last.mainPid == None)
    && (f.reason == WrongExecutable <==>
          last.activeState == Active && last.mainPid != None && last.executable != Expected)
    && (f.reason == Unsettled <==>
          last.activeState == Active && last.mainPid != None && last.executable == Expected)
  }

  /** These reports explain these targets, one by one. */
  ghost predicate ExplainsAll(failed: seq<NotConverged>, look: Looks, roles: seq<string>, k: nat, targets: seq<nat>) {
    && |failed| == |targets|
    && forall j | 0 <= j < |targets| :: targets[j] < |roles| && Explains(failed[j], roles[targets[j]], look(k, targets[j]))
  }

  /** The answer `out`, given in round `k`, is the one the looks up to `k` call for. */
  ghost predicate Report(look: Looks, clock: Clock, start: nat, policy: Policy, roles: seq<string>, k: nat, out: Outcome) {
    // It is given at the first round that can decide.
    && (forall j: nat | j < k :: !AllSettledBy(look, clock, policy, roles, j) && !Expired(clock, start, policy, j))
    && match out {
      case Ok(all) =>
        && AllSettledBy(look, clock, policy, roles, k)
        && |all| == |roles|
        && forall i | 0 <= i < |roles| ::
             all[i].role == roles[i] &&
             exists b: nat :: b <= k && FirstSettledOn(look, clock, policy.settle, i, b, all[i].mainPid)
      case Err(failed) =>
        && !AllSettledBy(look, clock, policy, roles, k)
        && Expired(clock, start, policy, k)
        && ExplainsAll(failed, look, roles, k, Unsettleds(look, clock, policy, k, |roles|))
    }
  }

  // --------------------------------------------------------------- the loop

  /** `a` starts the longest steady stretch that ends at round `k`. */
  ghost predicate StretchStart(look: Looks, i: nat, a: nat, k: nat) {
    && a <= k
    && Steady(look, i, a, k)
    && (a > 0 ==> !(look(a - 1, i).Countable() && look(a - 1, i).Key() == look(k, i).Key()))
  }

  /** What one watch records after round `k`. */
  ghost predicate Tracks(look: Looks, clock: Clock, settle: nat, i: nat, k: nat, w: Watch) {
    if w.done.Some? then
      exists b: nat :: b <= k && FirstSettledOn(look, clock, settle, i, b, w.done.value)
    else
      && !SettledBy(look, clock, settle, i, k)
      && w.last == Some(look(k, i))
      && (w.since.None? <==> !look(k, i).Countable())
      && (w.since.Some? ==>
            && look(k, i).Key() == Some(w.since.value.1)
            && exists a: nat :: StretchStart(look, i, a, k) && clock(a) == w.since.value.0)
  }

  /** What one watch records before its first look. */
  ghost predicate Ready(look: Looks, clock: Clock, settle: nat, i: nat, k: nat, w: Watch) {
    if k == 0 then w == Watch(None, None, None) else Tracks(look, clock, settle, i, k - 1, w)
  }

  lemma SettledStays(look: Looks, clock: Clock, settle: nat, i: nat, j: nat, k: nat)
    requires j <= k && SettledBy(look, clock, settle, i, j)
    ensures SettledBy(look, clock, settle, i, k)
  {
  }

  lemma UnsettledBefore(look: Looks, clock: Clock, settle: nat, i: nat, j: nat, k: nat)
    requires j <= k && !SettledBy(look, clock, settle, i, k)
    ensures !SettledBy(look, clock, settle, i, j)
  {
    if SettledBy(look, clock, settle, i, j) {
      SettledStays(look, clock, settle, i, j, k);
    }
  }

  /** Any window that closes at `k` lies inside the stretch that ends at `k`. */
  lemma WindowInsideStretch(look: Looks, clock: Clock, settle: nat, i: nat, start: nat, a: nat, k: nat)
    requires Monotone(clock)
    requires StretchStart(look, i, start, k)
    requires Window(look, clock, settle, i, a, k)
    ensures start <= a && clock(k) - clock(start) >= settle
  {
    if start > 0 {
      var before := look(start - 1, i);
      assert a <= start - 1 ==> before.Countable() && before.Key() == look(k, i).Key();
    }
  }

  lemma NothingNewSettles(look: Looks, clock: Clock, settle: nat, i: nat, k: nat)
    requires k > 0 ==> !SettledBy(look, clock, settle, i, k - 1)
    requires forall a: nat :: !Window(look, clock, settle, i, a, k)
    ensures !SettledBy(look, clock, settle, i, k)
  {
    forall a: nat, b: nat | b <= k ensures !Window(look, clock, settle, i, a, b) {
      if b < k {
        assert b <= k - 1;
      }
    }
  }

  /** One look at one target, as the body of the inner loop takes it. */
  function Step(w: Watch, seen: Observation, now: nat, settle: nat): Watch {
    if w.done.Some? then w
    else
      var w' :=
        if seen.Countable() then
          var key := seen.Key().value;
          if w.since.Some? && w.since.value.1 == key then
            if now - w.since.value.0 >= settle then w.(done := Some(key.pid)) else w
          else w.(since := Some((now, key)))
        else w.(since := None);
      w'.(last := Some(seen))
  }

  /** A stretch carried on by one more look with the same key keeps its start. */
  lemma StretchExtends(look: Looks, i: nat, a: nat, k: nat)
    requires k > 0 && StretchStart(look, i, a, k - 1)
    requires look(k, i).Countable() && look(k, i).Key() == look(k - 1, i).Key()
    ensures StretchStart(look, i, a, k)
  {
  }

  lemma StepTracks(look: Looks, clock: Clock, settle: nat, i: nat, k: nat, w: Watch)
    requires Monotone(clock)
    requires Ready(look, clock, settle, i, k, w)
    ensures Tracks(look, clock, settle, i, k, Step(w, look(k, i), clock(k), settle))
  {
    if w.done.Some? {
      return;
    }
    var seen := look(k, i);
    if !seen.Countable() {
      NothingNewSettles(look, clock, settle, i, k);
    } else if w.since.Some? && w.since.value.1 == seen.Key().value {
      var a: nat :| StretchStart(look, i, a, k - 1) && clock(a) == w.since.value.0;
      StretchExtends(look, i, a, k);
      if clock(k) - clock(a) >= settle {
        assert Window(look, clock, settle, i, a, k);
        forall j: nat | j < k ensures !SettledBy(look, clock, settle, i, j) {
          UnsettledBefore(look, clock, settle, i, j, k - 1);
        }
        assert FirstSettledOn(look, clock, settle, i, k, seen.mainPid.value);
      } else {
        forall b: nat ensures !Window(look, clock, settle, i, b, k) {
          if Window(look, clock, settle, i, b, k) {
            WindowInsideStretch(look, clock, settle, i, a, b, k);
          }
        }
        NothingNewSettles(look, clock, settle, i, k);
      }
    } else {
      assert StretchStart(look, i, k, k);
      forall b: nat ensures !Window(look, clock, settle, i, b, k) {
        if Window(look, clock, settle, i, b, k) {
          WindowInsideStretch(look, clock, settle, i, k, b, k);
        }
      }
      NothingNewSettles(look, clock, settle, i, k);
    }
  }

  lemma DoneIffSettled(look: Looks, clock: Clock, settle: nat, i: nat, k: nat, w: Watch)
    requires Tracks(look, clock, settle, i, k, w)
    ensures w.done.Some? <==> SettledBy(look, clock, settle, i, k)
  {
    if w.done.Some? {
      var b: nat :| b <= k && FirstSettledOn(look, clock, settle, i, b, w.done.value);
      SettledStays(look, clock, settle, i, b, k);
    }
  }

  /** From one look to another, at least `settle` apart, the service was up on this process and one file. */
  ghost predicate HeldOn(look: Looks, clock: Clock, settle: nat, i: nat, a: nat, b: nat, pid: nat) {
    && a < b && clock(b) - clock(a) >= settle
    && forall k | a <= k <= b ::
         && look(k, i).activeState == Active && look(k, i).executable == Expected && look(k, i).mainPid == Some(pid)
         && look(k, i).identity.Some? && look(k, i).identity == look(b, i).identity
  }

  ghost predicate WasHeld(look: Looks, clock: Clock, settle: nat, i: nat, pid: nat) {
    exists a: nat, b: nat :: HeldOn(look, clock, settle, i, a, b, pid)
  }

  lemma ConvergedHeldOn(look: Looks, clock: Clock, start: nat, policy: Policy, roles: seq<string>, k: nat, out: Outcome)
    requires out.Ok? && Report(look, clock, start, policy, roles, k, out)
    ensures forall i | 0 <= i < |roles| :: WasHeld(look, clock, policy.settle, i, out.converged[i].mainPid)
  {
    forall i | 0 <= i < |roles|
      ensures WasHeld(look, clock, policy.settle, i, out.converged[i].mainPid)
    {
      var b: nat :| b <= k && FirstSettledOn(look, clock, policy.settle, i, b, out.converged[i].mainPid);
      var a: nat, b': nat :| b' <= b && Window(look, clock, policy.settle, i, a, b');
      if b' < b {
        assert SettledBy(look, clock, policy.settle, i, b');
      }
      assert HeldOn(look, clock, policy.settle, i, a, b', out.converged[i].mainPid);
    }
  }

  /**
   The polling loop. The clock must at some round reach the deadline, which is
   what makes the loop end; `horizon` names such a round.
   */
  method Converge(look: Looks, clock: Clock, start: nat, policy: Policy, roles: seq<string>, ghost horizon: nat)
    returns (out: Outcome)
    requires Monotone(clock) && start <= clock(0) && Expired(clock, start, policy, horizon)
    ensures exists k: nat :: k <= horizon && Report(look, clock, start, policy, roles, k, out)
    ensures out.Ok? ==>
              |out.converged| == |roles| &&
              forall i | 0 <= i < |roles| ::
                && out.converged[i].role == roles[i]
                && WasHeld(look, clock, policy.settle, i, out.converged[i].mainPid)
    ensures out.Err? ==> out.failed != []
  {
    var watches := new Watch[|roles|](_ => Watch(None, None, None));
    var k := 0;
    while true
      invariant k <= horizon
      invariant forall i | 0 <= i < |roles| :: Ready(look, clock, policy.settle, i, k, watches[i])
      invariant forall j: nat | j < k :: !AllSettledBy(look, clock, policy, roles, j) && !Expired(clock, start, policy, j)
      decreases horizon - k
    {
      var now := clock(k);
      var allDone := LookAtAll(look, clock, policy, roles, k, watches);
      if allDone {
        out := ReportConverged(look, clock, start, policy, roles, k, watches);
        ConvergedHeldOn(look, clock, start, policy, roles, k, out);
        return;
      }
      if now - start >= policy.deadline {
        out := ReportFailed(look, clock, start, policy, roles, k, watches);
        FailedAreTheUnsettled(look, clock, policy, k, |roles|);
        return;
      }
      k := k + 1;
    }
  }

  /** One round: every target not yet done is looked at, in order. */
  method LookAtAll(look: Looks, clock: Clock, policy: Policy, roles: seq<string>, k: nat, watches: array<Watch>)
    returns (allDone: bool)
    requires Monotone(clock) && watches.Length == |roles|
    requires forall i | 0 <= i < |roles| :: Ready(look, clock, policy.settle, i, k, watches[i])
    modifies watches
    ensures forall i | 0 <= i < |roles| :: Tracks(look, clock, policy.settle, i, k, watches[i])
    ensures allDone <==> AllSettledBy(look, clock, policy, roles, k)
  {
    allDone := true;
    for i := 0 to |roles|
      invariant forall j | 0 <= j < i :: watches[j] == Step(old(watches[j]), look(k, j), clock(k), policy.settle)
      invariant forall j | i <= j < |roles| :: watches[j] == old(watches[j])
      invariant allDone <==> forall j | 0 <= j < i :: watches[j].done.Some?
    {
      watches[i] := Step(watches[i], look(k, i), clock(k), policy.settle);
      allDone := allDone && watches[i].done.Some?;
    }
    forall i | 0 <= i < |roles|
      ensures Tracks(look, clock, policy.settle, i, k, watches[i])
      ensures watches[i].done.Some? <==> SettledBy(look, clock, policy.settle, i, k)
    {
      StepTracks(look, clock, policy.settle, i, k, old(watches[i]));
      DoneIffSettled(look, clock, policy.settle, i, k, watches[i]);
    }
  }

  method ReportConverged(look: Looks, clock: Clock, start: nat, policy: Policy, roles: seq<string>, k: nat, watches: array<Watch>)
    returns (out: Outcome)
    requires watches.Length == |roles|
    requires forall j: nat | j < k :: !AllSettledBy(look, clock, policy, roles, j) && !Expired(clock, start, policy, j)
    requires forall i | 0 <= i < |roles| :: Tracks(look, clock, policy.settle, i, k, watches[i])
    requires AllSettledBy(look, clock, policy, roles, k)
    ensures out.Ok? && Report(look, clock, start, policy, roles, k, out)
  {
    var all: seq<Converged> := [];
    for i := 0 to |roles|
      invariant |all| == i
      invariant forall j | 0 <= j < i ::
          all[j].role == roles[j] &&
          exists b: nat :: b <= k && FirstSettledOn(look, clock, policy.settle, j, b, all[j].mainPid)
    {
      DoneIffSettled(look, clock, policy.settle, i, k, watches[i]);
      all := all + [Converged(roles[i], watches[i].done.value)];
    }
    out := Ok(all);
  }

  method ReportFailed(look: Looks, clock: Clock, start: nat, policy: Policy, roles: seq<string>, k: nat, watches: array<Watch>)
    returns (out: Outcome)
    requires watches.Length == |roles|
    requires forall j: nat | j < k :: !AllSettledBy(look, clock, policy, roles, j) && !Expired(clock, start, policy, j)
    requires forall i | 0 <= i < |roles| :: Tracks(look, clock, policy.settle, i, k, watches[i])
    requires !AllSettledBy(look, clock, policy, roles, k) && Expired(clock, start, policy, k)
    ensures out.Err? && Report(look, clock, start, policy, roles, k, out)
  {
    var failed: seq<NotConverged> := [];
    for i := 0 to |roles|
      invariant ExplainsAll(failed, look, roles, k, Unsettleds(look, clock, policy, k, i))
    {
      DoneIffSettled(look, clock, policy.settle, i, k, watches[i]);
      if watches[i].done.None? {
        var last := if watches[i].last.Some? then watches[i].last.value else NOTHING_SEEN;
        failed := failed + [FromLast(roles[i], last)];
      }
    }
    out := Err(failed);
  }

  // ----------------------------------------------------- what a report means

  /** One script of looks allows one answer, given in one round. */
  lemma ReportIsUnique(look: Looks, clock: Clock, start: nat, policy: Policy, roles: seq<string>,
                       k: nat, out: Outcome, k': nat, out': Outcome)
    requires Report(look, clock, start, policy, roles, k, out)
    requires Report(look, clock, start, policy, roles, k', out')
    ensures k == k' && out == out'
  {
    assert k == k';
    if out.Ok? && out'.Ok? {
      forall i | 0 <= i < |roles| ensures out.converged[i] == out'.converged[i] {
        var b: nat :| b <= k && FirstSettledOn(look, clock, policy.settle, i, b, out.converged[i].mainPid);
        var b': nat :| b' <= k && FirstSettledOn(look, clock, policy.settle, i, b', out'.converged[i].mainPid);
        assert b == b';
      }
    }
    if out.Err? && out'.Err? {
      OneExplanation(look, roles, k, Unsettleds(look, clock, policy, k, |roles|), out.failed, out'.failed);
    }
  }

  lemma OneExplanation(look: Looks, roles: seq<string>, k: nat, targets: seq<nat>, a: seq<NotConverged>, b: seq<NotConverged>)
    requires ExplainsAll(a, look, roles, k, targets) && ExplainsAll(b, look, roles, k, targets)
    ensures a == b
  {
    forall j | 0 <= j < |a| ensures a[j] == b[j] {
      assert Explains(a[j], roles[targets[j]], look(k, targets[j])) && Explains(b[j], roles[targets[j]], look(k, targets[j]));
    }
  }

  /** The failed list names exactly the unsettled targets, in target order. */
  lemma {:induction false} FailedAreTheUnsettled(look: Looks, clock: Clock, policy: Policy, k: nat, n: nat)
    ensures var targets := Unsettleds(look, clock, policy, k, n);
            && (forall p, q | 0 <= p < q < |targets| :: targets[p] < targets[q])
            && (forall i | 0 <= i < n :: i in targets <==> !SettledBy(look, clock, policy.settle, i, k))
            && (forall p | 0 <= p < |targets| :: targets[p] < n)
  {
    if n > 0 {
      FailedAreTheUnsettled(look, clock, policy, k, n - 1);
      var before := Unsettleds(look, clock, policy, k, n - 1);
      assert forall p | 0 <= p < |before| :: before[p] < n - 1;
      assert n - 1 !in before;
    }
  }

  /** A clock moved only by the loop's own sleeps. */
  ghost predicate MovedBySleep(clock: Clock, interval: nat) {
    forall k: nat :: clock(k + 1) == clock(k) + interval
  }

  lemma {:induction false} SleptTime(clock: Clock, interval: nat, k: nat)
    requires MovedBySleep(clock, interval)
    ensures clock(k) == clock(0) + k * interval
  {
    if k > 0 {
      SleptTime(clock, interval, k - 1);
      assert clock((k - 1) + 1) == clock(k - 1) + interval;
      assert k * interval == (k - 1) * interval + interval;
    }
  }

  /** With a positive interval the loop always has a round at which to stop. */
  lemma HorizonExists(clock: Clock, start: nat, policy: Policy)
    requires MovedBySleep(clock, policy.interval) && policy.interval > 0 && start <= clock(0)
    ensures Expired(clock, start, policy, policy.deadline)
  {
    SleptTime(clock, policy.interval, policy.deadline);
    assert policy.deadline * policy.interval >= policy.deadline;
  }

  /** The answer never comes later than one interval past the deadline. */
  lemma AnsweredInTime(look: Looks, clock: Clock, start: nat, policy: Policy, roles: seq<string>, k: nat, out: Outcome)
    requires MovedBySleep(clock, policy.interval)
    requires Report(look, clock, start, policy, roles, k, out)
    ensures k > 0 ==> clock(k) - start < policy.deadline + policy.interval
  {
    if k > 0 {
      assert !Expired(clock, start, policy, k - 1);
      assert clock((k - 1) + 1) == clock(k - 1) + policy.interval;
    }
  }

  /** Steady from a look early enough to settle: never reported as a failure. */
  lemma SteadyTargetIsNotFailed(look: Looks, clock: Clock, start: nat, policy: Policy, roles: seq<string>,
                                k: nat, out: Outcome, i: nat, s: nat)
    requires policy.settle > 0 && Monotone(clock)
    requires Report(look, clock, start, policy, roles, k, out)
    requires i < |roles|
    requires clock(s) - start + policy.settle <= policy.deadline
    requires forall j: nat | s <= j ::
               Up(look(j, i)) && look(j, i).mainPid == look(s, i).mainPid && look(j, i).identity == look(s, i).identity
    ensures out.Err? ==> SettledBy(look, clock, policy.settle, i, k)
  {
    if out.Err? {
      assert clock(k) - clock(s) >= policy.settle;
      assert k <= s ==> clock(k) <= clock(s);
      assert Window(look, clock, policy.settle, i, s, k);
    }
  }
}
