/**
 Replacing what one credential holds, by renames that a power cut may separate.

 `CredentialHome` performs the operations file by file. Each takes a `budget`:
 the number of file operations that still reach the disk before the host stops
 (or before one of them fails), so every prefix of an operation is a behaviour.
 The functions beside the class say what each leaves behind; the theorems are
 about every sequence of such operations.
 */
module CredentialSwap {
  import opened Options

  /** The bytes of a credential store. Nothing here inspects them. */
  type Material = nat

  datatype Files = Files(staged: Option<Material>, live: Option<Material>, rollback: Option<Material>)

  datatype SwapState = Settled | Swapped | Interrupted

  datatype Outcome = Done | Refused | Stopped

  function Shape(f: Files): SwapState {
    match (f.live, f.rollback)
    case (Some(_), None) => Settled
    case (Some(_), Some(_)) => Swapped
    case (None, Some(_)) => Interrupted
    case (None, None) => Settled
  }

  /** `swap_in` gets past its checks: a plain staged store and nothing waiting. */
  predicate MaySwap(f: Files, plain: bool) {
    f.staged.Some? && plain && f.rollback.None?
  }

  function AfterSwapIn(f: Files, plain: bool, budget: nat): (Files, Outcome) {
    if !MaySwap(f, plain) then (f, Refused)
    else if budget == 0 then (f, Stopped)
    else if f.live.None? then (Files(None, f.staged, None), Done)
    else if budget == 1 then (Files(f.staged, None, f.live), Stopped)
    else (Files(None, f.staged, f.live), Done)
  }

  function AfterRollBack(f: Files, budget: nat): (Files, Outcome) {
    if f.rollback.None? then (f, Refused)
    else if budget == 0 then (f, Stopped)
    else if f.live.None? || budget > 1 then (Files(f.staged, f.rollback, None), Done)
    else (Files(f.staged, None, f.rollback), Stopped)
  }

  function AfterAccept(f: Files, budget: nat): (Files, Outcome) {
    if f.rollback.None? then (f, Done)
    else if budget == 0 then (f, Stopped)
    else (f.(rollback := None), Done)
  }

  class CredentialHome {
    var staged: Option<Material>
    var live: Option<Material>
    var rollback: Option<Material>

    function Contents(): Files
      reads this
    {
      Files(staged, live, rollback)
    }

    constructor (staged: Option<Material>, live: Option<Material>)
      ensures Contents() == Files(staged, live, None)
    {
      this.staged := staged;
      this.live := live;
      this.rollback := None;
    }

    method ReadState() returns (state: SwapState)
      ensures state == Shape(Contents())
      ensures state == Swapped <==> live.Some? && rollback.Some?
      ensures state == Interrupted <==> live.None? && rollback.Some?
      ensures state == Settled <==> rollback.None?
    {
      if live.Some? && rollback.Some? {
        state := Swapped;
      } else if rollback.Some? {
        state := Interrupted;
      } else {
        state := Settled;
      }
    }

    /** Moves the old store aside, then the staged one in. */
    method SwapIn(plain: bool, budget: nat) returns (outcome: Outcome)
      modifies this
      ensures (Contents(), outcome) == AfterSwapIn(old(Contents()), plain, budget)
      // Refused exactly without a plain staged store or with a rollback store waiting, and then nothing moves.
      ensures outcome == Refused <==> old(staged).None? || !plain || old(rollback).Some?
      ensures outcome == Refused ==> staged == old(staged) && live == old(live) && rollback == old(rollback)
      // Done exactly when enough renames reached the disk, and exactly when both stores have moved.
      ensures outcome == Done <==> outcome != Refused && budget >= if old(live).Some? then 2 else 1
      ensures outcome == Done <==> outcome != Refused && live == old(staged) && rollback == old(live)
      ensures outcome == Done ==> staged == None
      // Stopped: the live store is still in place, or is set aside with the staged one still to come.
      ensures outcome == Stopped ==>
                && staged == old(staged)
                && if budget == 0 then live == old(live) && rollback == None else live == None && rollback == old(live)
    {
      if staged.None? || !plain {
        return Refused;
      }
      if rollback.Some? {
        return Refused;
      }
      var left := budget;
      if live.Some? {
        if left == 0 {
          return Stopped;
        }
        live, rollback := None, live;
        left := left - 1;
      }
      if left == 0 {
        return Stopped;
      }
      staged, live := None, staged;
      return Done;
    }

    /** Removes the new store, then moves the old one back. */
    method RollBack(budget: nat) returns (outcome: Outcome)
      modifies this
      ensures (Contents(), outcome) == AfterRollBack(old(Contents()), budget)
      ensures staged == old(staged)
      ensures outcome == Refused <==> old(rollback) == None
      ensures outcome == Refused ==> live == old(live) && rollback == None
      ensures outcome == Done <==> old(rollback).Some? && budget >= if old(live).Some? then 2 else 1
      ensures outcome == Done <==> old(rollback).Some? && live == old(rollback) && rollback == None
      ensures outcome == Stopped ==> rollback == old(rollback) && live == if budget == 0 then old(live) else None
    {
      if rollback.None? {
        return Refused;
      }
      var left := budget;
      if live.Some? {
        if left == 0 {
          return Stopped;
        }
        live := None;
        left := left - 1;
      }
      if left == 0 {
        return Stopped;
      }
      rollback, live := None, rollback;
      return Done;
    }

    method Accept(budget: nat) returns (outcome: Outcome)
      modifies this
      ensures (Contents(), outcome) == AfterAccept(old(Contents()), budget)
      ensures staged == old(staged) && live == old(live)
      ensures outcome == Done <==> rollback == None
      ensures outcome == Done <==> old(rollback) == None || budget > 0
      ensures outcome != Done ==> outcome == Stopped && rollback == old(rollback)
    {
      if rollback.Some? {
        if budget == 0 {
          return Stopped;
        }
        rollback := None;
      }
      return Done;
    }
  }

  // -------------------------------------------------------------- whole runs

  datatype Op =
    | Stage(material: Material)
    | SwapIn(plain: bool, budget: nat)
    | RollBack(budget: nat)
    | Accept(budget: nat)

  /**
   A home, the material last accepted into it, and the material last renamed
   in. A home's first store counts as accepted: there is nothing else to keep.
   */
  datatype History = History(files: Files, accepted: Option<Material>, incoming: Option<Material>)

  function Perform(f: Files, op: Op): Files {
    match op
    case Stage(m) => f.(staged := Some(m))
    case SwapIn(plain, budget) => AfterSwapIn(f, plain, budget).0
    case RollBack(budget) => AfterRollBack(f, budget).0
    case Accept(budget) => AfterAccept(f, budget).0
  }

  function Advance(h: History, op: Op): History {
    var f := h.files;
    var f' := Perform(f, op);
    match op
    case Stage(_) => h.(files := f')
    case SwapIn(plain, budget) =>
      if AfterSwapIn(f, plain, budget).1 != Done then h.(files := f')
      else History(f', if f.live.None? then f.staged else h.accepted, f.staged)
    case RollBack(_) => h.(files := f')
    case Accept(budget) =>
      History(f', if f.rollback.Some? && budget > 0 then f.live else h.accepted, h.incoming)
  }

  /** The caller accepts only after a swap that completed, so a store is live. */
  predicate Allowed(f: Files, op: Op) {
    op.Accept? ==> f.live.Some?
  }

  ghost predicate Run(h: History, ops: seq<Op>, end: History)
    decreases |ops|
  {
    if ops == [] then end == h
    else Allowed(h.files, ops[0]) && Run(Advance(h, ops[0]), ops[1..], end)
  }

  function Start(staged: Option<Material>, live: Option<Material>): History {
    History(Files(staged, live, None), live, None)
  }

  /** What the shape of the home says about where the accepted material is. */
  ghost predicate Sound(h: History) {
    match Shape(h.files)
    case Settled => h.files.live == h.accepted
    case Swapped => h.accepted.Some? && h.files.rollback == h.accepted && h.files.live == h.incoming
    case Interrupted => h.accepted.Some? && h.files.rollback == h.accepted
  }

  lemma AdvanceIsSound(h: History, op: Op)
    requires Sound(h) && Allowed(h.files, op)
    ensures Sound(Advance(h, op))
    ensures h.accepted.Some? ==> Advance(h, op).accepted.Some?
  {
  }

  /**
   Over any number of generations, with every operation cut off anywhere, the
   shape of the home says where the accepted material is, and a home that once
   held a store never loses it.
   */
  lemma {:induction false} EveryRunIsSound(h: History, ops: seq<Op>, end: History)
    requires Sound(h) && Run(h, ops, end)
    ensures Sound(end)
    ensures h.accepted.Some? ==>
              end.accepted.Some? && (end.files.live == end.accepted || end.files.rollback == end.accepted)
    decreases |ops|
  {
    if ops != [] {
      AdvanceIsSound(h, ops[0]);
      EveryRunIsSound(Advance(h, ops[0]), ops[1..], end);
    }
  }

  /** A home as it is found, with or without a store and with nothing waiting, is where every run begins. */
  lemma EveryHomeIsSound(staged: Option<Material>, live: Option<Material>, ops: seq<Op>, end: History)
    requires Run(Start(staged, live), ops, end)
    ensures Sound(end)
    ensures live.Some? ==>
              end.accepted.Some? && (end.files.live == end.accepted || end.files.rollback == end.accepted)
  {
    EveryRunIsSound(Start(staged, live), ops, end);
  }

  /** Only acceptance changes what is accepted in a home that has a store. */
  lemma {:induction false} OnlyAcceptReplaces(h: History, ops: seq<Op>, end: History)
    requires Sound(h) && h.accepted.Some? && Run(h, ops, end)
    requires forall i | 0 <= i < |ops| :: !ops[i].Accept?
    ensures end.accepted == h.accepted
    decreases |ops|
  {
    if ops != [] {
      AdvanceIsSound(h, ops[0]);
      OnlyAcceptReplaces(Advance(h, ops[0]), ops[1..], end);
    }
  }

  /**
   The caller's discipline is exactly what is needed: dropping the rollback
   store keeps a recoverable store if and only if a store is live.
   */
  lemma AcceptIsSafeIff(h: History, budget: nat)
    requires Sound(h) && h.accepted.Some? && budget > 0
    ensures var f := AfterAccept(h.files, budget).0;
            (f.live.Some? || f.rollback.Some?) <==> Shape(h.files) != Interrupted
  {
  }

  // ------------------------------------------------------------ the round trip

  /** Attempts at `roll_back`, each with its own budget, one after another. */
  function RollBacks(f: Files, budgets: seq<nat>): Files
    decreases |budgets|
  {
    if budgets == [] then f else RollBacks(AfterRollBack(f, budgets[0]).0, budgets[1..])
  }

  function Sum(budgets: seq<nat>): nat {
    if budgets == [] then 0 else budgets[0] + Sum(budgets[1..])
  }

  /** File operations that separate a home from being rolled back. */
  function Distance(f: Files): nat {
    match Shape(f)
    case Settled => 0
    case Interrupted => 1
    case Swapped => 2
  }

  /** The store a roll back makes live again. */
  function Restorable(f: Files): Option<Material> {
    if f.rollback.Some? then f.rollback else f.live
  }

  /**
   Rolling back, however often it is cut off, never loses what it restores, and
   is complete exactly when enough file operations have reached the disk.
   */
  lemma {:induction false} RollBacksRestore(f: Files, budgets: seq<nat>)
    ensures var g := RollBacks(f, budgets);
            && g.staged == f.staged
            && Restorable(g) == Restorable(f)
            && (Sum(budgets) >= Distance(f) <==> g.rollback.None?)
    decreases |budgets|
  {
    if budgets != [] {
      RollBacksRestore(AfterRollBack(f, budgets[0]).0, budgets[1..]);
    }
  }

  /** After any run, rolling back makes the accepted store the live one again. */
  lemma AcceptedIsRecoverable(h: History, ops: seq<Op>, end: History, budgets: seq<nat>)
    requires Sound(h) && Run(h, ops, end) && Sum(budgets) >= Distance(end.files)
    ensures RollBacks(end.files, budgets).live == end.accepted && RollBacks(end.files, budgets).rollback.None?
  {
    EveryRunIsSound(h, ops, end);
    RollBacksRestore(end.files, budgets);
  }

  /**
   A swap cut off anywhere, then rolled back as often as it takes, leaves the
   credential exactly as it was.
   */
  lemma SwapThenRollBackIsIdentity(f: Files, plain: bool, budget: nat, budgets: seq<nat>)
    requires f.live.Some? && f.rollback.None?
    ensures var swapped := AfterSwapIn(f, plain, budget).0;
            var g := RollBacks(swapped, budgets);
            g == f.(staged := swapped.staged) <==> Sum(budgets) >= Distance(swapped)
  {
    RollBacksRestore(AfterSwapIn(f, plain, budget).0, budgets);
  }

  /** In how many of the three places this material is. */
  function Copies(f: Files, m: Material): nat {
    (if f.staged == Some(m) then 1 else 0) + (if f.live == Some(m) then 1 else 0) + (if f.rollback == Some(m) then 1 else 0)
  }

  /** Renames move stores; wherever a swap stops, nothing was copied or lost. */
  lemma SwapInConserves(f: Files, plain: bool, budget: nat, m: Material)
    ensures Copies(AfterSwapIn(f, plain, budget).0, m) == Copies(f, m)
    ensures Shape(f) != Settled ==> AfterSwapIn(f, plain, budget) == (f, Refused)
  {
  }
}
