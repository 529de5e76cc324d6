/**
 Bringing the credential registry into agreement with the shared pool.

 `Registry.Reconcile` repairs the rows in place, in the source's two passes;
 `Reconciled` is the same repair as a function of the rows, and the lemmas are
 about it.
 */
module Credentials {
  import opened Options

  const MAX_CREDENTIALS: nat := 16
  const ADOPTED_LABEL := "Existing credential"

  datatype CredentialState =
    | Required
    | Authorizing
    | Authorized
    | Failed
    | Revoked
    | Reauthorizing
    | ReauthorizationRequired
    | RuntimeMissing

  datatype Storage = Isolated | LegacySharedPool

  datatype Credential = Credential(
    id: string,
    providerId: string,
    authMethod: string,
    displayLabel: string,
    state: CredentialState,
    storage: Storage,
    poolEntry: Option<string>,
    generation: nat,
    createdAt: nat,
    updatedAt: nat
  )

  datatype PoolEntry = PoolEntry(id: string, kind: string)

  type Rows = seq<Credential>

  /** The id given to an adopted entry: a digest of the provider and the entry's name. */
  type Naming = (string, string) -> string

  /** The rows a reconcile of `provider` may touch. */
  predicate Pooled(c: Credential, provider: string) {
    c.storage.LegacySharedPool? && c.providerId == provider
  }

  predicate HoldsEntry(c: Credential, provider: string, entry: string) {
    Pooled(c, provider) && c.poolEntry == Some(entry)
  }

  predicate Tracked(rows: Rows, provider: string, entry: string) {
    exists i | 0 <= i < |rows| :: HoldsEntry(rows[i], provider, entry)
  }

  /** A login this Node started under this label and is still waiting on. */
  predicate Waiting(c: Credential, provider: string, entry: string) {
    Pooled(c, provider) && c.poolEntry.None? && c.displayLabel == entry && (c.state.Authorizing? || c.state.Failed?)
  }

  /** The first waiting row at or after `from`, or the number of rows. */
  function FirstWaiting(rows: Rows, provider: string, entry: string, from: nat): (i: nat)
    requires from <= |rows|
    ensures from <= i <= |rows|
    ensures i < |rows| ==> Waiting(rows[i], provider, entry)
    ensures forall j | from <= j < i :: !Waiting(rows[j], provider, entry)
    decreases |rows| - from
  {
    if from == |rows| || Waiting(rows[from], provider, entry) then from
    else FirstWaiting(rows, provider, entry, from + 1)
  }

  function Bind(c: Credential, entry: string, now: nat): Credential {
    c.(poolEntry := Some(entry), state := Authorized, updatedAt := now)
  }

  function Adopted(provider: string, entry: string, now: nat, naming: Naming): Credential {
    Credential(naming(provider, entry), provider, "device_authorization", ADOPTED_LABEL,
               Authorized, LegacySharedPool, Some(entry), 0, now, now)
  }

  /** The first pass at one entry; `None` when the registry is full and the pass stops. */
  function Admit(rows: Rows, provider: string, entry: string, now: nat, naming: Naming): Option<Rows> {
    if Tracked(rows, provider, entry) then Some(rows)
    else
      var i := FirstWaiting(rows, provider, entry, 0);
      if i < |rows| then Some(rows[i := Bind(rows[i], entry, now)])
      else if |rows| >= MAX_CREDENTIALS then None
      else Some(rows + [Adopted(provider, entry, now, naming)])
  }

  function AdmitAll(rows: Rows, provider: string, pool: seq<PoolEntry>, now: nat, naming: Naming): Rows
    decreases |pool|
  {
    if pool == [] then rows
    else
      match Admit(rows, provider, pool[0].id, now, naming)
      case None => rows
      case Some(rows') => AdmitAll(rows', provider, pool[1..], now, naming)
  }

  predicate InPool(pool: seq<PoolEntry>, entry: string) {
    exists i | 0 <= i < |pool| :: pool[i].id == entry
  }

  /** The second pass at one row. */
  function Refresh(c: Credential, provider: string, pool: seq<PoolEntry>, now: nat): Credential {
    if !Pooled(c, provider) then c
    else
      var holds := c.poolEntry.Some? && InPool(pool, c.poolEntry.value);
      if holds && !c.state.Authorized? then c.(state := Authorized, updatedAt := now)
      else if !holds && c.state.Authorized? then c.(state := Required, updatedAt := now)
      else c
  }

  function RefreshAll(rows: Rows, provider: string, pool: seq<PoolEntry>, now: nat): Rows {
    seq(|rows|, i requires 0 <= i < |rows| => Refresh(rows[i], provider, pool, now))
  }

  function Reconciled(rows: Rows, provider: string, pool: seq<PoolEntry>, now: nat, naming: Naming): Rows {
    RefreshAll(AdmitAll(rows, provider, pool, now, naming), provider, pool, now)
  }

  // ------------------------------------------------------- the in-place repair

  class Registry {
    var credentials: Rows

    constructor ()
      ensures credentials == []
    {
      credentials := [];
    }

    /** The answer says whether anything changed, and is right about it. */
    method Reconcile(provider: string, pool: seq<PoolEntry>, now: nat, naming: Naming) returns (changed: bool)
      modifies this
      ensures credentials == Reconciled(old(credentials), provider, pool, now, naming)
      ensures changed <==> credentials != old(credentials)
    {
      changed := AdmitPool(provider, pool, now, naming);
      ghost var admitted := credentials;
      var i := 0;
      while i < |credentials|
        invariant 0 <= i <= |credentials| == |admitted|
        invariant credentials[..i] == RefreshAll(admitted, provider, pool, now)[..i]
        invariant credentials[i..] == admitted[i..]
        invariant changed <==> admitted != old(credentials) || credentials != admitted
      {
        var c := Refresh(credentials[i], provider, pool, now);
        if c != credentials[i] {
          credentials := credentials[i := c];
          changed := true;
        }
        i := i + 1;
      }
      RefreshKeepsProgress(old(credentials), provider, pool, now, naming);
    }

    method AdmitPool(provider: string, pool: seq<PoolEntry>, now: nat, naming: Naming) returns (changed: bool)
      modifies this
      ensures credentials == AdmitAll(old(credentials), provider, pool, now, naming)
      ensures changed <==> credentials != old(credentials)
    {
      changed := false;
      var k := 0;
      while k < |pool|
        invariant 0 <= k <= |pool|
        invariant AdmitAll(credentials, provider, pool[k..], now, naming) ==
                  AdmitAll(old(credentials), provider, pool, now, naming)
        invariant changed ==> Beyond(old(credentials), credentials)
        invariant !changed ==> credentials == old(credentials)
      {
        var entry := pool[k].id;
        assert pool[k..][0] == pool[k] && pool[k..][1..] == pool[k + 1..];
        var already := IsTracked(provider, entry);
        if !already {
          var w := FindWaiting(provider, entry);
          if w < |credentials| {
            credentials := credentials[w := Bind(credentials[w], entry, now)];
          } else {
            if |credentials| >= MAX_CREDENTIALS {
              break;
            }
            credentials := credentials + [Adopted(provider, entry, now, naming)];
          }
          changed := true;
        }
        k := k + 1;
      }
    }

    method IsTracked(provider: string, entry: string) returns (already: bool)
      ensures already == Tracked(credentials, provider, entry)
    {
      for i := 0 to |credentials|
        invariant forall j | 0 <= j < i :: !HoldsEntry(credentials[j], provider, entry)
      {
        if HoldsEntry(credentials[i], provider, entry) {
          return true;
        }
      }
      return false;
    }

    method FindWaiting(provider: string, entry: string) returns (w: nat)
      ensures w == FirstWaiting(credentials, provider, entry, 0)
    {
      w := 0;
      while w < |credentials|
        invariant w <= |credentials|
        invariant FirstWaiting(credentials, provider, entry, w) == FirstWaiting(credentials, provider, entry, 0)
      {
        if Waiting(credentials[w], provider, entry) {
          return;
        }
        w := w + 1;
      }
    }
  }

  // ------------------------------------------------------------ what one pass keeps

  /** `rows'` has an entry where `rows` had none, or a row more: it can never equal `rows` again. */
  ghost predicate Beyond(rows: Rows, rows': Rows) {
    || |rows'| > |rows|
    || (|rows'| == |rows| && exists i | 0 <= i < |rows| :: rows[i].poolEntry.None? && rows'[i].poolEntry.Some?)
  }

  /** How the first pass may change the rows. */
  ghost predicate Grown(rows: Rows, rows': Rows, provider: string) {
    && |rows| <= |rows'|
    && (forall i | 0 <= i < |rows| && rows'[i] != rows[i] ::
          && Pooled(rows[i], provider)
          && rows[i].poolEntry.None?
          && rows'[i].poolEntry.Some?
          && rows'[i] == rows[i].(poolEntry := rows'[i].poolEntry, state := Authorized, updatedAt := rows'[i].updatedAt))
    && (forall i | |rows| <= i < |rows'| :: Pooled(rows'[i], provider) && rows'[i].poolEntry.Some?)
    && |rows'| <= if |rows| > MAX_CREDENTIALS then |rows| else MAX_CREDENTIALS
  }

  lemma {:induction false} AdmitAllGrows(rows: Rows, provider: string, pool: seq<PoolEntry>, now: nat, naming: Naming)
    ensures Grown(rows, AdmitAll(rows, provider, pool, now, naming), provider)
    decreases |pool|
  {
    if pool != [] {
      var step := Admit(rows, provider, pool[0].id, now, naming);
      if step.Some? {
        AdmitAllGrows(step.value, provider, pool[1..], now, naming);
      }
    }
  }

  lemma RefreshKeepsProgress(rows: Rows, provider: string, pool: seq<PoolEntry>, now: nat, naming: Naming)
    ensures var admitted := AdmitAll(rows, provider, pool, now, naming);
            admitted != rows ==> RefreshAll(admitted, provider, pool, now) != rows
  {
    AdmitAllGrows(rows, provider, pool, now, naming);
    var admitted := AdmitAll(rows, provider, pool, now, naming);
    var refreshed := RefreshAll(admitted, provider, pool, now);
    if admitted != rows && |admitted| == |rows| {
      var i :| 0 <= i < |rows| && admitted[i] != rows[i];
      assert refreshed[i].poolEntry == admitted[i].poolEntry;
    }
  }

  // -------------------------------------------------------------- idempotence

  /** A first pass over `pool` would find nothing to do: all tracked, up to where it stops. */
  ghost predicate NothingToAdmit(rows: Rows, provider: string, pool: seq<PoolEntry>)
    decreases |pool|
  {
    pool == [] ||
    if Tracked(rows, provider, pool[0].id) then NothingToAdmit(rows, provider, pool[1..])
    else |rows| >= MAX_CREDENTIALS && FirstWaiting(rows, provider, pool[0].id, 0) == |rows|
  }

  lemma {:induction false} NothingToAdmitIsFixed(rows: Rows, provider: string, pool: seq<PoolEntry>, now: nat, naming: Naming)
    requires NothingToAdmit(rows, provider, pool)
    ensures AdmitAll(rows, provider, pool, now, naming) == rows
    decreases |pool|
  {
    if pool != [] && Tracked(rows, provider, pool[0].id) {
      NothingToAdmitIsFixed(rows, provider, pool[1..], now, naming);
    }
  }

  lemma TrackedStays(rows: Rows, rows': Rows, provider: string, entry: string)
    requires Grown(rows, rows', provider) && Tracked(rows, provider, entry)
    ensures Tracked(rows', provider, entry)
  {
  }

  lemma AdmitTracks(rows: Rows, provider: string, entry: string, now: nat, naming: Naming)
    requires Admit(rows, provider, entry, now, naming).Some?
    ensures Tracked(Admit(rows, provider, entry, now, naming).value, provider, entry)
  {
    if !Tracked(rows, provider, entry) {
      var rows' := Admit(rows, provider, entry, now, naming).value;
      var i := FirstWaiting(rows, provider, entry, 0);
      assert HoldsEntry(rows'[i], provider, entry);
    }
  }

  lemma {:induction false} AdmitAllLeavesNothing(rows: Rows, provider: string, pool: seq<PoolEntry>, now: nat, naming: Naming)
    ensures NothingToAdmit(AdmitAll(rows, provider, pool, now, naming), provider, pool)
    decreases |pool|
  {
    if pool != [] {
      var step := Admit(rows, provider, pool[0].id, now, naming);
      if step.Some? {
        AdmitAllLeavesNothing(step.value, provider, pool[1..], now, naming);
        AdmitTracks(rows, provider, pool[0].id, now, naming);
        AdmitAllGrows(step.value, provider, pool[1..], now, naming);
        TrackedStays(step.value, AdmitAll(step.value, provider, pool[1..], now, naming), provider, pool[0].id);
      }
    }
  }

  /** The second pass moves no entry and starts no wait, so it leaves the first pass nothing either. */
  lemma {:induction false} RefreshLeavesNothing(rows: Rows, provider: string, pool: seq<PoolEntry>, now: nat, part: seq<PoolEntry>)
    requires NothingToAdmit(rows, provider, part)
    ensures NothingToAdmit(RefreshAll(rows, provider, pool, now), provider, part)
    decreases |part|
  {
    if part != [] {
      var refreshed := RefreshAll(rows, provider, pool, now);
      if Tracked(rows, provider, part[0].id) {
        var i :| 0 <= i < |rows| && HoldsEntry(rows[i], provider, part[0].id);
        assert HoldsEntry(refreshed[i], provider, part[0].id);
        RefreshLeavesNothing(rows, provider, pool, now, part[1..]);
      } else {
        assert forall i | 0 <= i < |rows| :: !HoldsEntry(rows[i], provider, part[0].id) && !Waiting(rows[i], provider, part[0].id);
        assert forall i | 0 <= i < |rows| :: !HoldsEntry(refreshed[i], provider, part[0].id) && !Waiting(refreshed[i], provider, part[0].id);
      }
    }
  }

  lemma RefreshIsFixed(rows: Rows, provider: string, pool: seq<PoolEntry>, now: nat, later: nat)
    ensures var refreshed := RefreshAll(rows, provider, pool, now);
            RefreshAll(refreshed, provider, pool, later) == refreshed
  {
  }

  /**
   A second reconcile with the same pool, at any later time, changes nothing,
   also when the first one stopped at the cap.
   */
  lemma ReconcileIsIdempotent(rows: Rows, provider: string, pool: seq<PoolEntry>, now: nat, later: nat, naming: Naming)
    ensures var once := Reconciled(rows, provider, pool, now, naming);
            Reconciled(once, provider, pool, later, naming) == once
  {
    var admitted := AdmitAll(rows, provider, pool, now, naming);
    AdmitAllLeavesNothing(rows, provider, pool, now, naming);
    RefreshLeavesNothing(admitted, provider, pool, now, pool);
    NothingToAdmitIsFixed(RefreshAll(admitted, provider, pool, now), provider, pool, later, naming);
    RefreshIsFixed(admitted, provider, pool, now, later);
  }

  // ----------------------------------------------------- frame and invariants

  /** Isolated rows and other providers' rows stay as they are, and every row keeps its place and its name. */
  lemma ReconcileFrame(rows: Rows, provider: string, pool: seq<PoolEntry>, now: nat, naming: Naming)
    ensures var after := Reconciled(rows, provider, pool, now, naming);
            && |rows| <= |after|
            && |after| <= (if |rows| > 16 then |rows| else 16)
            && (forall i | 0 <= i < |rows| && (rows[i].storage.Isolated? || rows[i].providerId != provider) :: after[i] == rows[i])
            && (forall i | 0 <= i < |rows| ::
                  && after[i] == rows[i].(state := after[i].state, poolEntry := after[i].poolEntry, updatedAt := after[i].updatedAt)
                  && (rows[i].poolEntry.Some? ==> after[i].poolEntry == rows[i].poolEntry))
            && (forall i | |rows| <= i < |after| :: Pooled(after[i], provider))
  {
    AdmitAllGrows(rows, provider, pool, now, naming);
  }

  /** No two pooled rows of the provider share an entry. */
  ghost predicate EntriesDistinct(rows: Rows, provider: string) {
    forall i, j | 0 <= i < j < |rows| && Pooled(rows[i], provider) && Pooled(rows[j], provider) && rows[i].poolEntry.Some? ::
      rows[i].poolEntry != rows[j].poolEntry
  }

  lemma {:induction false} AdmitAllKeepsDistinct(rows: Rows, provider: string, pool: seq<PoolEntry>, now: nat, naming: Naming)
    requires EntriesDistinct(rows, provider)
    ensures EntriesDistinct(AdmitAll(rows, provider, pool, now, naming), provider)
    decreases |pool|
  {
    if pool != [] {
      var step := Admit(rows, provider, pool[0].id, now, naming);
      if step.Some? {
        AdmitKeepsDistinct(rows, provider, pool[0].id, now, naming);
        AdmitAllKeepsDistinct(step.value, provider, pool[1..], now, naming);
      }
    }
  }

  lemma AdmitKeepsDistinct(rows: Rows, provider: string, entry: string, now: nat, naming: Naming)
    requires EntriesDistinct(rows, provider) && Admit(rows, provider, entry, now, naming).Some?
    ensures EntriesDistinct(Admit(rows, provider, entry, now, naming).value, provider)
  {
    if !Tracked(rows, provider, entry) {
      assert forall i | 0 <= i < |rows| :: !HoldsEntry(rows[i], provider, entry);
    }
  }

  lemma ReconcileKeepsEntriesDistinct(rows: Rows, provider: string, pool: seq<PoolEntry>, now: nat, naming: Naming)
    requires EntriesDistinct(rows, provider)
    ensures EntriesDistinct(Reconciled(rows, provider, pool, now, naming), provider)
  {
    AdmitAllKeepsDistinct(rows, provider, pool, now, naming);
  }

  /** Afterwards a pooled row of the provider is authorized exactly when the pool holds its entry. */
  lemma AuthorizedIffInPool(rows: Rows, provider: string, pool: seq<PoolEntry>, now: nat, naming: Naming)
    ensures var after := Reconciled(rows, provider, pool, now, naming);
            forall i | 0 <= i < |after| && after[i].storage.LegacySharedPool? && after[i].providerId == provider ::
              after[i].state.Authorized? <==>
              after[i].poolEntry.Some? && exists k | 0 <= k < |pool| :: pool[k].id == after[i].poolEntry.value
  {
  }

  lemma {:induction false} NothingToAdmitTracks(rows: Rows, provider: string, pool: seq<PoolEntry>, k: nat)
    requires NothingToAdmit(rows, provider, pool) && k < |pool| && |rows| < MAX_CREDENTIALS
    ensures Tracked(rows, provider, pool[k].id)
    decreases |pool|
  {
    if k > 0 {
      NothingToAdmitTracks(rows, provider, pool[1..], k - 1);
    }
  }

  /** Every pool entry ends up with a row, unless the registry is full. */
  lemma EveryEntryIsTracked(rows: Rows, provider: string, pool: seq<PoolEntry>, now: nat, naming: Naming, k: nat)
    requires k < |pool|
    ensures var after := Reconciled(rows, provider, pool, now, naming);
            || |after| >= 16
            || exists i | 0 <= i < |after| ::
                 after[i].storage == LegacySharedPool && after[i].providerId == provider && after[i].poolEntry == Some(pool[k].id)
  {
    var admitted := AdmitAll(rows, provider, pool, now, naming);
    AdmitAllLeavesNothing(rows, provider, pool, now, naming);
    RefreshLeavesNothing(admitted, provider, pool, now, pool);
    if |admitted| < MAX_CREDENTIALS {
      NothingToAdmitTracks(RefreshAll(admitted, provider, pool, now), provider, pool, k);
      assert Tracked(RefreshAll(admitted, provider, pool, now), provider, pool[k].id);
    }
  }

  // -------------------------------------------- which row each entry is given to

  /** Row `i` was the first to wait for its label, which the pool has and no row held, and now holds it. */
  ghost predicate BoundAt(rows: Rows, i: nat, c: Credential, provider: string, pool: seq<PoolEntry>, now: nat)
    requires i < |rows|
  {
    var entry := rows[i].displayLabel;
    && InPool(pool, entry) && !Tracked(rows, provider, entry)
    && FirstWaiting(rows, provider, entry, 0) == i
    && c == Bind(rows[i], entry, now)
  }

  /** The row was added for an entry of the pool that no row held and none waited for. */
  ghost predicate AddedFor(rows: Rows, c: Credential, provider: string, pool: seq<PoolEntry>, now: nat, naming: Naming) {
    && c.poolEntry.Some?
    && var entry := c.poolEntry.value;
       && InPool(pool, entry) && !Tracked(rows, provider, entry)
       && FirstWaiting(rows, provider, entry, 0) == |rows|
       && c == Adopted(provider, entry, now, naming)
  }

  ghost predicate Placed(rows: Rows, rows': Rows, provider: string, pool: seq<PoolEntry>, now: nat, naming: Naming) {
    && |rows| <= |rows'|
    && (forall i | 0 <= i < |rows| :: rows'[i] == rows[i] || BoundAt(rows, i, rows'[i], provider, pool, now))
    && (forall i | |rows| <= i < |rows'| :: AddedFor(rows, rows'[i], provider, pool, now, naming))
  }

  /** Another entry finds its rows as if this one had not been admitted. */
  lemma AdmitIsLocal(rows: Rows, provider: string, entry: string, now: nat, naming: Naming, other: string)
    requires Admit(rows, provider, entry, now, naming).Some? && other != entry
    ensures var rows' := Admit(rows, provider, entry, now, naming).value;
            && (Tracked(rows', provider, other) <==> Tracked(rows, provider, other))
            && (forall j | 0 <= j < |rows| :: Waiting(rows'[j], provider, other) <==> Waiting(rows[j], provider, other))
            && (forall j | |rows| <= j < |rows'| :: !Waiting(rows'[j], provider, other))
  {
    var rows' := Admit(rows, provider, entry, now, naming).value;
    assert forall j | 0 <= j < |rows| :: HoldsEntry(rows'[j], provider, other) <==> HoldsEntry(rows[j], provider, other);
  }

  lemma FirstWaitingIs(rows: Rows, provider: string, entry: string, i: nat)
    requires i <= |rows| && (i < |rows| ==> Waiting(rows[i], provider, entry))
    requires forall j | 0 <= j < i :: !Waiting(rows[j], provider, entry)
    ensures FirstWaiting(rows, provider, entry, 0) == i
  {
  }

  /** What the rest of the pool does to the rows that the first entry left is what it does to the rows before. */
  lemma SameWaiting(rows: Rows, provider: string, entry: string, now: nat, naming: Naming, other: string)
    requires Admit(rows, provider, entry, now, naming).Some? && other != entry
    ensures var rows' := Admit(rows, provider, entry, now, naming).value;
            var w, w' := FirstWaiting(rows, provider, other, 0), FirstWaiting(rows', provider, other, 0);
            if w == |rows| then w' == |rows'| else w' == w
  {
    var rows' := Admit(rows, provider, entry, now, naming).value;
    AdmitIsLocal(rows, provider, entry, now, naming, other);
    var w := FirstWaiting(rows, provider, other, 0);
    FirstWaitingIs(rows', provider, other, if w == |rows| then |rows'| else w);
  }

  lemma {:induction false} AdmitAllPlaces(rows: Rows, provider: string, pool: seq<PoolEntry>, now: nat, naming: Naming)
    ensures Placed(rows, AdmitAll(rows, provider, pool, now, naming), provider, pool, now, naming)
    decreases |pool|
  {
    if pool != [] {
      var step := Admit(rows, provider, pool[0].id, now, naming);
      if step.Some? {
        AdmitAllPlaces(step.value, provider, pool[1..], now, naming);
        PlacedBefore(rows, AdmitAll(step.value, provider, pool[1..], now, naming), provider, pool, now, naming);
      }
    }
  }

  lemma PlacedBefore(rows: Rows, rows': Rows, provider: string, pool: seq<PoolEntry>, now: nat, naming: Naming)
    requires pool != [] && Admit(rows, provider, pool[0].id, now, naming).Some?
    requires Placed(Admit(rows, provider, pool[0].id, now, naming).value, rows', provider, pool[1..], now, naming)
    ensures Placed(rows, rows', provider, pool, now, naming)
  {
    var first := pool[0].id;
    var mid := Admit(rows, provider, first, now, naming).value;
    AdmitTracks(rows, provider, first, now, naming);
    InPoolGrows(pool);
    forall i | 0 <= i < |rows| && rows'[i] != rows[i] ensures BoundAt(rows, i, rows'[i], provider, pool, now) {
      if rows'[i] != mid[i] {
        var entry := mid[i].displayLabel;
        assert mid[i].poolEntry.None? && mid[i] == rows[i];
        AdmitIsLocal(rows, provider, first, now, naming, entry);
        SameWaiting(rows, provider, first, now, naming, entry);
      }
    }
    forall i | |rows| <= i < |rows'| ensures AddedFor(rows, rows'[i], provider, pool, now, naming) {
      if i >= |mid| {
        var entry := rows'[i].poolEntry.value;
        AdmitIsLocal(rows, provider, first, now, naming, entry);
        SameWaiting(rows, provider, first, now, naming, entry);
      }
    }
  }

  lemma InPoolGrows(pool: seq<PoolEntry>)
    requires pool != []
    ensures InPool(pool, pool[0].id) && forall e | InPool(pool[1..], e) :: InPool(pool, e)
  {
    forall e | InPool(pool[1..], e) ensures InPool(pool, e) {
      var i :| 0 <= i < |pool[1..]| && pool[1..][i].id == e;
      assert pool[i + 1].id == e;
    }
  }

  /**
   What becomes of every row there was. A row of another provider or with its
   own storage is left alone. A row with an entry is authorized while the pool
   has the entry, and if it was authorized it is required when the pool has it
   no more. A row without one is given an entry only as the first login that
   waits under that label, when the pool has it and no row held it.
   */
  lemma EveryRowAfter(rows: Rows, provider: string, pool: seq<PoolEntry>, now: nat, naming: Naming, i: nat)
    requires i < |rows|
    ensures |rows| <= |Reconciled(rows, provider, pool, now, naming)|
    ensures var c, after := rows[i], Reconciled(rows, provider, pool, now, naming);
            var c' := after[i];
            var ids := set k | 0 <= k < |pool| :: pool[k].id;
            if c.storage != LegacySharedPool || c.providerId != provider then c' == c
            else if c'.poolEntry == c.poolEntry then
              if c.poolEntry.Some? && c.poolEntry.value in ids then
                c' == if c.state == Authorized then c else c.(state := Authorized, updatedAt := now)
              else
                c' == if c.state == Authorized then c.(state := Required, updatedAt := now) else c
            else
              && c.poolEntry == None && (c.state == Authorizing || c.state == Failed) && c.displayLabel in ids
              && c' == c.(poolEntry := Some(c.displayLabel), state := Authorized, updatedAt := now)
              && (forall j | 0 <= j < |rows| && rows[j].storage == LegacySharedPool && rows[j].providerId == provider ::
                    rows[j].poolEntry != Some(c.displayLabel))
              && (forall j | 0 <= j < i && rows[j].storage == LegacySharedPool && rows[j].providerId == provider ::
                    !(rows[j].poolEntry == None && rows[j].displayLabel == c.displayLabel
                      && (rows[j].state == Authorizing || rows[j].state == Failed)))
  {
    AdmitAllPlaces(rows, provider, pool, now, naming);
    IdsOfPool(pool);
    var admitted := AdmitAll(rows, provider, pool, now, naming);
    if admitted[i] != rows[i] {
      assert BoundAt(rows, i, admitted[i], provider, pool, now);
      Untracked(rows, provider, rows[i].displayLabel);
    }
  }

  lemma IdsOfPool(pool: seq<PoolEntry>)
    ensures forall e :: InPool(pool, e) <==> e in set k | 0 <= k < |pool| :: pool[k].id
  {
  }

  lemma Untracked(rows: Rows, provider: string, entry: string)
    requires !Tracked(rows, provider, entry)
    ensures forall j | 0 <= j < |rows| && rows[j].storage == LegacySharedPool && rows[j].providerId == provider ::
              rows[j].poolEntry != Some(entry)
  {
    assert forall j | 0 <= j < |rows| :: !HoldsEntry(rows[j], provider, entry);
  }

  /** Every added row stands for a pool entry that no row held and no login waited for, and is this row. */
  lemma EveryAddedRow(rows: Rows, provider: string, pool: seq<PoolEntry>, now: nat, naming: Naming, i: nat)
    requires |rows| <= i < |Reconciled(rows, provider, pool, now, naming)|
    ensures var c := Reconciled(rows, provider, pool, now, naming)[i];
            && c.poolEntry.Some?
            && var entry := c.poolEntry.value;
               && c == Credential(naming(provider, entry), provider, "device_authorization", "Existing credential",
                                  Authorized, LegacySharedPool, Some(entry), 0, now, now)
               && entry in (set k | 0 <= k < |pool| :: pool[k].id)
               && forall j | 0 <= j < |rows| && rows[j].storage == LegacySharedPool && rows[j].providerId == provider ::
                    && rows[j].poolEntry != Some(entry)
                    && !(rows[j].poolEntry == None && rows[j].displayLabel == entry
                         && (rows[j].state == Authorizing || rows[j].state == Failed))
  {
    AdmitAllPlaces(rows, provider, pool, now, naming);
    IdsOfPool(pool);
    var c := AdmitAll(rows, provider, pool, now, naming)[i];
    assert AddedFor(rows, c, provider, pool, now, naming);
    Untracked(rows, provider, c.poolEntry.value);
  }

  lemma {:induction false} WaitingIsAdmitted(rows: Rows, provider: string, pool: seq<PoolEntry>, now: nat, naming: Naming,
                                             k: nat, i: nat)
    requires k < |pool| && i < |rows| && !Tracked(rows, provider, pool[k].id)
    requires FirstWaiting(rows, provider, pool[k].id, 0) == i
    ensures |rows| <= |AdmitAll(rows, provider, pool, now, naming)|
    ensures var rows' := AdmitAll(rows, provider, pool, now, naming);
            || rows'[i] == Bind(rows[i], pool[k].id, now)
            || exists m | 0 <= m < k :: !Tracked(rows', provider, pool[m].id)
    decreases |pool|
  {
    var step := Admit(rows, provider, pool[0].id, now, naming);
    if step.Some? {
      AdmitAllPlaces(step.value, provider, pool[1..], now, naming);
      if pool[0].id != pool[k].id {
        AdmitIsLocal(rows, provider, pool[0].id, now, naming, pool[k].id);
        SameWaiting(rows, provider, pool[0].id, now, naming, pool[k].id);
        WaitingIsAdmitted(step.value, provider, pool[1..], now, naming, k - 1, i);
        assert step.value[i] == rows[i];
        LaterIsStopped(AdmitAll(rows, provider, pool, now, naming), provider, pool, k);
      }
    } else {
      assert !Tracked(rows, provider, pool[0].id);
      assert pool[0].id != pool[k].id;
    }
  }

  lemma LaterIsStopped(rows: Rows, provider: string, pool: seq<PoolEntry>, k: nat)
    requires 0 < k < |pool|
    ensures (exists m | 0 <= m < k - 1 :: !Tracked(rows, provider, pool[1..][m].id)) ==>
            exists m | 0 <= m < k :: !Tracked(rows, provider, pool[m].id)
  {
    if m :| 0 <= m < k - 1 && !Tracked(rows, provider, pool[1..][m].id) {
      assert pool[m + 1].id == pool[1..][m].id;
    }
  }

  /**
   A login that a person started gets its entry: of the rows that wait under an
   entry no row holds, the first is given it, and no row is added for it, unless
   the pass stopped at an earlier entry because the registry was full.
   */
  lemma WaitingLoginIsBound(rows: Rows, provider: string, pool: seq<PoolEntry>, now: nat, naming: Naming, k: nat, i: nat)
    requires k < |pool| && i < |rows|
    requires forall j | 0 <= j < |rows| && rows[j].storage == LegacySharedPool && rows[j].providerId == provider ::
               rows[j].poolEntry != Some(pool[k].id)
    requires rows[i].storage == LegacySharedPool && rows[i].providerId == provider && rows[i].poolEntry == None
    requires rows[i].displayLabel == pool[k].id && (rows[i].state == Authorizing || rows[i].state == Failed)
    requires forall j | 0 <= j < i :: !Waiting(rows[j], provider, pool[k].id)
    ensures |rows| <= |Reconciled(rows, provider, pool, now, naming)|
    ensures var after := Reconciled(rows, provider, pool, now, naming);
            || after[i] == rows[i].(poolEntry := Some(pool[k].id), state := Authorized, updatedAt := now)
            || (|after| >= 16 && exists m | 0 <= m < k :: !Tracked(after, provider, pool[m].id))
    ensures forall j | |rows| <= j < |Reconciled(rows, provider, pool, now, naming)| ::
              Reconciled(rows, provider, pool, now, naming)[j].poolEntry != Some(pool[k].id)
  {
    FirstWaitingIs(rows, provider, pool[k].id, i);
    WaitingIsAdmitted(rows, provider, pool, now, naming, k, i);
    AdmitAllPlaces(rows, provider, pool, now, naming);
    var admitted := AdmitAll(rows, provider, pool, now, naming);
    var after := Reconciled(rows, provider, pool, now, naming);
    if m :| 0 <= m < k && !Tracked(admitted, provider, pool[m].id) {
      RefreshTracksAlike(admitted, provider, pool, now, pool[m].id);
      EveryEntryIsTracked(rows, provider, pool, now, naming, m);
    }
    forall j | |rows| <= j < |after| ensures after[j].poolEntry != Some(pool[k].id) {
      assert AddedFor(rows, admitted[j], provider, pool, now, naming);
    }
  }

  // ------------------------------------------------------ the order of the pool

  /** Some place in the pool before `k` has this entry. */
  ghost predicate InPoolBefore(pool: seq<PoolEntry>, k: nat, entry: string)
    requires k <= |pool|
  {
    exists m | 0 <= m < k :: pool[m].id == entry
  }

  /** Rows are added in the order of the pool. */
  ghost predicate AddedInOrder(rows: Rows, rows': Rows, pool: seq<PoolEntry>) {
    forall i, j, k | |rows| <= i < j < |rows'| && 0 <= k < |pool| && rows'[j].poolEntry == Some(pool[k].id) ::
      rows'[i].poolEntry.Some? && InPoolBefore(pool, k, rows'[i].poolEntry.value)
  }

  lemma {:induction false} AdmitAllAddsInOrder(rows: Rows, provider: string, pool: seq<PoolEntry>, now: nat, naming: Naming)
    ensures AddedInOrder(rows, AdmitAll(rows, provider, pool, now, naming), pool)
    decreases |pool|
  {
    if pool != [] {
      var step := Admit(rows, provider, pool[0].id, now, naming);
      if step.Some? {
        var mid, rest := step.value, pool[1..];
        var rows' := AdmitAll(mid, provider, rest, now, naming);
        AdmitAllAddsInOrder(mid, provider, rest, now, naming);
        AdmitAllPlaces(mid, provider, rest, now, naming);
        AdmitTracks(rows, provider, pool[0].id, now, naming);
        forall i, j, k | |rows| <= i < j < |rows'| && 0 <= k < |pool| && rows'[j].poolEntry == Some(pool[k].id)
          ensures rows'[i].poolEntry.Some? && InPoolBefore(pool, k, rows'[i].poolEntry.value)
        {
          assert AddedFor(mid, rows'[j], provider, rest, now, naming);
          assert k > 0 && rest[k - 1] == pool[k];
          if i < |mid| {
            assert rows'[i] == mid[i] && pool[0].id == rows'[i].poolEntry.value;
          } else {
            var m :| 0 <= m < k - 1 && rest[m].id == rows'[i].poolEntry.value;
            assert pool[m + 1].id == rows'[i].poolEntry.value;
          }
        }
      }
    }
  }

  /** Rows are added in pool order, and once an entry found no room no later entry gets a row either. */
  lemma PoolOrderDecides(rows: Rows, provider: string, pool: seq<PoolEntry>, now: nat, naming: Naming)
    ensures var after := Reconciled(rows, provider, pool, now, naming);
            forall i, j, k | |rows| <= i < j < |after| && 0 <= k < |pool| && after[j].poolEntry == Some(pool[k].id) ::
              after[i].poolEntry.Some? && exists m | 0 <= m < k :: pool[m].id == after[i].poolEntry.value
    ensures var after := Reconciled(rows, provider, pool, now, naming);
            forall e, k | 0 <= k < |pool| && !Tracked(after, provider, pool[k].id) && Tracked(after, provider, e) ::
              Tracked(rows, provider, e) || exists m | 0 <= m < k :: pool[m].id == e
  {
    AdmitAllAddsInOrder(rows, provider, pool, now, naming);
    var admitted := AdmitAll(rows, provider, pool, now, naming);
    var after := Reconciled(rows, provider, pool, now, naming);
    forall i, j, k | |rows| <= i < j < |after| && 0 <= k < |pool| && after[j].poolEntry == Some(pool[k].id)
      ensures after[i].poolEntry.Some? && exists m | 0 <= m < k :: pool[m].id == after[i].poolEntry.value
    {
      assert InPoolBefore(pool, k, admitted[i].poolEntry.value);
    }
    forall e, k | 0 <= k < |pool| && !Tracked(after, provider, pool[k].id) && Tracked(after, provider, e)
      ensures Tracked(rows, provider, e) || exists m | 0 <= m < k :: pool[m].id == e
    {
      RefreshTracksAlike(admitted, provider, pool, now, e);
      RefreshTracksAlike(admitted, provider, pool, now, pool[k].id);
      NothingAfterTheStop(rows, provider, pool, now, naming, e, k);
      assert Tracked(rows, provider, e) || InPoolBefore(pool, k, e);
    }
  }

  lemma RefreshTracksAlike(rows: Rows, provider: string, pool: seq<PoolEntry>, now: nat, entry: string)
    ensures Tracked(RefreshAll(rows, provider, pool, now), provider, entry) <==> Tracked(rows, provider, entry)
  {
    var refreshed := RefreshAll(rows, provider, pool, now);
    assert forall i | 0 <= i < |rows| :: HoldsEntry(refreshed[i], provider, entry) <==> HoldsEntry(rows[i], provider, entry);
  }

  lemma {:induction false} NothingAfterTheStop(rows: Rows, provider: string, pool: seq<PoolEntry>, now: nat, naming: Naming,
                                               entry: string, k: nat)
    requires k < |pool|
    requires !Tracked(AdmitAll(rows, provider, pool, now, naming), provider, pool[k].id)
    requires Tracked(AdmitAll(rows, provider, pool, now, naming), provider, entry)
    ensures Tracked(rows, provider, entry) || InPoolBefore(pool, k, entry)
    decreases |pool|
  {
    var step := Admit(rows, provider, pool[0].id, now, naming);
    if step.Some? {
      if k == 0 {
        AdmitTracks(rows, provider, pool[0].id, now, naming);
        AdmitAllGrows(step.value, provider, pool[1..], now, naming);
        TrackedStays(step.value, AdmitAll(step.value, provider, pool[1..], now, naming), provider, pool[0].id);
      } else if entry != pool[0].id {
        NothingAfterTheStop(step.value, provider, pool[1..], now, naming, entry, k - 1);
        AdmitIsLocal(rows, provider, pool[0].id, now, naming, entry);
        if m :| 0 <= m < k - 1 && pool[1..][m].id == entry {
          assert pool[m + 1].id == entry;
        }
      }
    }
  }
}
