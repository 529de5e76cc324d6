/**
 Reserving loopback ports: any number of reservers, each searching outside any
 transaction and claiming in one atomic statement, interleaved in every order
 with each other, with releases and with the unconditional writes of an endpoint
 that registering a project, recording its profile or an operator make.

 A reserver's position in `reserve_endpoint` is its `Phase`. Each step reads or
 writes the shared project table once, as the source's statements do.
 */
module Inventory {
  import opened Options
  import opened Endpoints

  datatype ProfileState = Pending | Provisioning | Ready | Failed | Disabled

  datatype Row = Row(endpoint: Option<string>, state: ProfileState)

  type Table = map<string, Row>

  datatype Result = Ok(endpoint: string) | NotRegistered | NoFreePort | KeptChanging

  datatype Phase =
    | Looking                                    // about to read its own row
    | Reading                                    // about to read every endpoint
    | Probing(taken: set<nat>)                   // about to search and probe
    | Claiming(port: nat, occupied: set<nat>)    // about to claim
    | Done(result: Result)

  /** One call; `left` attempts remain, `lost` are the ports it failed to claim, `seen` those it probed and found occupied. */
  datatype Reserver = Reserver(
    project: string, lo: nat, hi: nat, reserved: set<nat>,
    left: nat, phase: Phase, lost: set<nat>, seen: set<nat>
  ) {
    predicate Active() {
      !phase.Done?
    }

    predicate InRange(port: nat) {
      lo <= port <= hi
    }

    function Attempts(): nat {
      if lo <= hi then hi - lo + 1 else 1
    }
  }

  datatype World = World(table: Table, reservers: map<nat, Reserver>)

  datatype Step =
    | Call(rid: nat, project: string, lo: nat, hi: nat, reserved: set<nat>)
    | CheckOwn(rid: nat)
    | ReadTaken(rid: nat)
    | Probe(rid: nat, occupied: set<nat>)
    | Claim(rid: nat)
    | Abandon(rid: nat)
    | Release(project: string)
    | SetState(project: string, state: ProfileState)
    | Register(project: string, endpoint: Option<string>)
    | Write(project: string, endpoint: Option<string>, state: ProfileState)
    | Unregister(project: string)

  /** The ports of all endpoints in the table that name one. */
  function PortsIn(table: Table): set<nat> {
    set p | p in table && table[p].endpoint.Some? && EndpointPort(table[p].endpoint.value).Some?
      :: EndpointPort(table[p].endpoint.value).value
  }

  /** The first port from `from` to `hi` neither taken nor occupied. */
  function FirstFree(from: nat, hi: nat, taken: set<nat>, occupied: set<nat>): (r: Option<nat>)
    ensures r.Some? ==>
              && from <= r.value <= hi && r.value !in taken && r.value !in occupied
              && forall p | from <= p < r.value :: p in taken || p in occupied
    ensures r.None? ==> forall p | from <= p <= hi :: p in taken || p in occupied
    decreases hi + 1 - from
  {
    if from > hi then None
    else if from !in taken && from !in occupied then Some(from)
    else FirstFree(from + 1, hi, taken, occupied)
  }

  /** The ports that some endpoints name. */
  function PortsOf(endpoints: seq<string>): set<nat> {
    if endpoints == [] then {}
    else
      var port := EndpointPort(endpoints[|endpoints| - 1]);
      PortsOf(endpoints[..|endpoints| - 1]) + if port.Some? then {port.value} else {}
  }

  /** The search of one attempt, over the endpoints as read. */
  method ChoosePort(lo: nat, hi: nat, reserved: seq<nat>, endpoints: seq<string>, occupied: set<nat>)
    returns (port: Option<nat>)
    ensures port == FirstFree(lo, hi, (set p | p in reserved) + PortsOf(endpoints), occupied)
  {
    var taken := CollectTaken(reserved, endpoints);
    port := FindFree(lo, hi, taken, occupied);
    assert (set p | p in taken) == (set p | p in reserved) + PortsOf(endpoints);
  }

  method CollectTaken(reserved: seq<nat>, endpoints: seq<string>) returns (taken: seq<nat>)
    ensures forall p :: p in taken <==> p in reserved || p in PortsOf(endpoints)
  {
    taken := reserved;
    for i := 0 to |endpoints|
      invariant forall p :: p in taken <==> p in reserved || p in PortsOf(endpoints[..i])
    {
      assert endpoints[..i + 1][..i] == endpoints[..i];
      var p := EndpointPort(endpoints[i]);
      if p.Some? {
        taken := taken + [p.value];
      }
    }
    assert endpoints[..|endpoints|] == endpoints;
  }

  method FindFree(lo: nat, hi: nat, taken: seq<nat>, occupied: set<nat>) returns (port: Option<nat>)
    ensures port == FirstFree(lo, hi, (set p | p in taken), occupied)
  {
    ghost var all := set p | p in taken;
    var candidate := lo;
    while candidate <= hi
      invariant lo <= candidate
      invariant FirstFree(candidate, hi, all, occupied) == FirstFree(lo, hi, all, occupied)
      decreases hi + 1 - candidate
    {
      if candidate !in taken && candidate !in occupied {
        return Some(candidate);
      }
      candidate := candidate + 1;
    }
    return None;
  }

  /** However the table's endpoints are listed, the search avoids the same ports. */
  lemma {:induction false} ListingGivesPorts(endpoints: seq<string>, port: nat)
    ensures port in PortsOf(endpoints) <==> exists e :: e in endpoints && EndpointPort(e) == Some(port)
    decreases |endpoints|
  {
    if endpoints != [] {
      var init, last := endpoints[..|endpoints| - 1], endpoints[|endpoints| - 1];
      ListingGivesPorts(init, port);
      assert endpoints == init + [last];
    }
  }

  lemma SearchReadsTheTable(table: Table, endpoints: seq<string>)
    requires forall e :: e in endpoints <==> exists p :: p in table && table[p].endpoint == Some(e)
    ensures PortsOf(endpoints) == PortsIn(table)
  {
    forall port ensures port in PortsOf(endpoints) <==> port in PortsIn(table) {
      ListingGivesPorts(endpoints, port);
      if port in PortsIn(table) {
        var p :| p in table && table[p].endpoint.Some? && EndpointPort(table[p].endpoint.value) == Some(port);
        assert table[p].endpoint.value in endpoints;
      }
    }
  }

  /** The guard of the claiming UPDATE: still unreserved, and nobody has this very endpoint. */
  predicate MayClaim(table: Table, project: string, port: nat) {
    && project in table
    && table[project].endpoint.None?
    && forall q | q in table :: table[q].endpoint != Some(Endpoint(port))
  }

  predicate Enabled(w: World, step: Step) {
    match step
    case Call(rid, _, _, hi, _) => rid !in w.reservers && hi <= MAX_PORT
    case CheckOwn(rid) => rid in w.reservers && w.reservers[rid].phase.Looking?
    case ReadTaken(rid) => rid in w.reservers && w.reservers[rid].phase.Reading?
    case Probe(rid, _) => rid in w.reservers && w.reservers[rid].phase.Probing?
    case Claim(rid) => rid in w.reservers && w.reservers[rid].phase.Claiming? && w.reservers[rid].left > 0
    case Abandon(rid) => rid in w.reservers
    case Release(_) => true
    case SetState(p, _) => p in w.table
    case Register(p, _) => p !in w.table
    case Write(p, _, _) => p in w.table
    case Unregister(p) => p in w.table
  }

  function Own(table: Table, r: Reserver): Reserver {
    r.(phase :=
        if r.project !in table then Done(NotRegistered)
        else if table[r.project].endpoint.Some? then Done(Ok(table[r.project].endpoint.value))
        else Reading)
  }

  function Search(r: Reserver, occupied: set<nat>): Reserver
    requires r.phase.Probing?
  {
    var found := FirstFree(r.lo, r.hi, r.phase.taken, occupied);
    var probed := set p | p in occupied && r.InRange(p) && p !in r.phase.taken && (found.None? || p < found.value);
    r.(seen := r.seen + probed, phase := if found.Some? then Claiming(found.value, occupied) else Done(NoFreePort))
  }

  function Lose(r: Reserver): Reserver
    requires r.phase.Claiming? && r.left > 0
  {
    r.(left := r.left - 1, lost := r.lost + {r.phase.port}, phase := if r.left == 1 then Done(KeptChanging) else Looking)
  }

  function Apply(w: World, step: Step): World
    requires Enabled(w, step)
  {
    match step
    case Call(rid, project, lo, hi, reserved) =>
      var r := Reserver(project, lo, hi, reserved, 0, Looking, {}, {});
      w.(reservers := w.reservers[rid := r.(left := r.Attempts())])
    case CheckOwn(rid) => w.(reservers := w.reservers[rid := Own(w.table, w.reservers[rid])])
    case ReadTaken(rid) =>
      var r := w.reservers[rid];
      w.(reservers := w.reservers[rid := r.(phase := Probing(r.reserved + PortsIn(w.table)))])
    case Probe(rid, occupied) => w.(reservers := w.reservers[rid := Search(w.reservers[rid], occupied)])
    case Claim(rid) =>
      var r := w.reservers[rid];
      if MayClaim(w.table, r.project, r.phase.port) then
        var e := Endpoint(r.phase.port);
        World(w.table[r.project := w.table[r.project].(endpoint := Some(e))],
              w.reservers[rid := r.(phase := Done(Ok(e)))])
      else w.(reservers := w.reservers[rid := Lose(r)])
    case Abandon(rid) => w.(reservers := w.reservers - {rid})
    case Release(p) =>
      if p in w.table && !w.table[p].state.Ready?
      then w.(table := w.table[p := w.table[p].(endpoint := None)])
      else w
    case SetState(p, state) => w.(table := w.table[p := w.table[p].(state := state)])
    case Register(p, endpoint) => w.(table := w.table[p := Row(endpoint, Pending)])
    case Write(p, endpoint, state) => w.(table := w.table[p := Row(endpoint, state)])
    case Unregister(p) => w.(table := w.table - {p})
  }

  // ------------------------------------------------------------------ safety

  predicate Holds(table: Table, p: string, port: nat) {
    p in table && table[p].endpoint.Some? && EndpointPort(table[p].endpoint.value) == Some(port)
  }

  ghost predicate Unreserved(table: Table, project: string) {
    project in table && table[project].endpoint.None?
  }

  /** No two projects are on one port, however their endpoints are spelled. */
  ghost predicate NoSharedPort(table: Table) {
    forall p, q, port | Holds(table, p, port) && Holds(table, q, port) :: p == q
  }

  /** A port the reserver can still claim on what it has already read. */
  predicate Threatens(r: Reserver, port: nat) {
    match r.phase
    case Probing(taken) => r.InRange(port) && port !in taken
    case Claiming(p, _) => p == port
    case _ => false
  }

  /**
   Whether an unconditional write may be made now: nobody else is on the port,
   and either the endpoint is spelled as this Node spells it, so that a claim
   sees it, or no other project's reserver can still claim the port.
   */
  predicate SafeWrite(w: World, p: string, endpoint: string) {
    var port := EndpointPort(endpoint);
    port.Some? ==>
      && (forall q | q in w.table && q != p :: !Holds(w.table, q, port.value))
      && (endpoint == Endpoint(port.value) ||
          forall rid | rid in w.reservers && w.reservers[rid].project != p :: !Threatens(w.reservers[rid], port.value))
  }

  /** The step writes this endpoint into this project's row, unconditionally. */
  predicate Places(step: Step, p: string, endpoint: string) {
    step == Register(p, Some(endpoint)) || (step.Write? && step.project == p && step.endpoint == Some(endpoint))
  }

  predicate Careful(w: World, step: Step) {
    (step.Register? || step.Write?) && step.endpoint.Some? ==> SafeWrite(w, step.project, step.endpoint.value)
  }

  /** A run in which unconditional writes are made only when safe. */
  ghost predicate CarefulRun(w: World, steps: seq<Step>, end: World)
    decreases |steps|
  {
    if steps == [] then end == w
    else Enabled(w, steps[0]) && Careful(w, steps[0]) && CarefulRun(Apply(w, steps[0]), steps[1..], end)
  }

  /** Whoever is on a port the reserver can still claim has the spelling the claim looks for. */
  ghost predicate SeenByClaim(table: Table, r: Reserver) {
    forall q, port | q != r.project && Holds(table, q, port) && Threatens(r, port) ::
      table[q].endpoint == Some(Endpoint(port))
  }

  ghost predicate ReserverOk(table: Table, r: Reserver) {
    && r.hi <= MAX_PORT
    && (r.Active() ==> r.left > 0)
    && (r.phase.Probing? ==> r.reserved <= r.phase.taken)
    && (r.phase.Claiming? ==>
          r.InRange(r.phase.port) && r.phase.port !in r.reserved && r.phase.port !in r.phase.occupied)
    && SeenByClaim(table, r)
  }

  ghost predicate Inv(w: World) {
    && NoSharedPort(w.table)
    && forall rid | rid in w.reservers :: ReserverOk(w.table, w.reservers[rid])
  }

  lemma ClaimKeeps(w: World, rid: nat)
    requires Inv(w) && Enabled(w, Claim(rid))
    requires MayClaim(w.table, w.reservers[rid].project, w.reservers[rid].phase.port)
    ensures NoSharedPort(Apply(w, Claim(rid)).table)
    ensures forall i | i in w.reservers :: SeenByClaim(Apply(w, Claim(rid)).table, w.reservers[i])
  {
    var r := w.reservers[rid];
    PortOfEndpoint(r.phase.port);
    assert ReserverOk(w.table, r);
    forall q ensures !Holds(w.table, q, r.phase.port) {
      assert q != r.project ==> Threatens(r, r.phase.port);
    }
    SetKeeps(w, Apply(w, Claim(rid)).table, r.project, Endpoint(r.phase.port), r.phase.port);
  }

  /** Putting a project on a port nobody else is on, so that every claim of it that may come sees that. */
  lemma SetKeeps(w: World, table': Table, p: string, endpoint: string, port: nat)
    requires Inv(w) && EndpointPort(endpoint) == Some(port)
    requires p in table' && table'[p].endpoint == Some(endpoint)
    requires forall q | q in table' && q != p :: q in w.table && table'[q].endpoint == w.table[q].endpoint
    requires forall q | q in w.table && q != p :: !Holds(w.table, q, port)
    requires endpoint == Endpoint(port) ||
             forall i | i in w.reservers && w.reservers[i].project != p :: !Threatens(w.reservers[i], port)
    ensures NoSharedPort(table')
    ensures forall i | i in w.reservers :: SeenByClaim(table', w.reservers[i])
  {
    forall q, n | Holds(table', q, n) ensures if q == p then n == port else Holds(w.table, q, n) && n != port {}
    forall i | i in w.reservers ensures SeenByClaim(table', w.reservers[i]) {
      assert ReserverOk(w.table, w.reservers[i]);
    }
  }

  /** After a safe write the table is still unshared, and every claim still sees what it must. */
  lemma PlaceKeeps(w: World, step: Step, p: string, endpoint: string)
    requires Inv(w) && Enabled(w, step) && Places(step, p, endpoint) && SafeWrite(w, p, endpoint)
    ensures NoSharedPort(Apply(w, step).table)
    ensures forall rid | rid in w.reservers :: SeenByClaim(Apply(w, step).table, w.reservers[rid])
  {
    var table' := Apply(w, step).table;
    if EndpointPort(endpoint).Some? {
      SetKeeps(w, table', p, endpoint, EndpointPort(endpoint).value);
    } else {
      ShrinkKeeps(w, table');
    }
  }

  lemma ShrinkKeeps(w: World, table': Table)
    requires Inv(w)
    requires forall q, n | Holds(table', q, n) :: Holds(w.table, q, n) && table'[q].endpoint == w.table[q].endpoint
    ensures NoSharedPort(table')
    ensures forall rid | rid in w.reservers :: SeenByClaim(table', w.reservers[rid])
  {
    forall rid | rid in w.reservers ensures SeenByClaim(table', w.reservers[rid]) {
      assert ReserverOk(w.table, w.reservers[rid]);
    }
  }

  lemma StepTable(w: World, step: Step)
    requires Inv(w) && Enabled(w, step) && Careful(w, step)
    ensures NoSharedPort(Apply(w, step).table)
    ensures forall rid | rid in w.reservers :: SeenByClaim(Apply(w, step).table, w.reservers[rid])
  {
    if step.Claim? && MayClaim(w.table, w.reservers[step.rid].project, w.reservers[step.rid].phase.port) {
      ClaimKeeps(w, step.rid);
    } else if (step.Register? || step.Write?) && step.endpoint.Some? {
      PlaceKeeps(w, step, step.project, step.endpoint.value);
    } else {
      ShrinkKeeps(w, Apply(w, step).table);
    }
  }

  /** The reserver that takes the step: what it reads, it reads now. */
  lemma MoverOk(w: World, step: Step, rid: nat)
    requires Inv(w) && Enabled(w, step) && Careful(w, step)
    requires rid in Apply(w, step).reservers
    requires rid !in w.reservers || Apply(w, step).reservers[rid] != w.reservers[rid]
    ensures ReserverOk(Apply(w, step).table, Apply(w, step).reservers[rid])
  {
    if rid in w.reservers {
      assert ReserverOk(w.table, w.reservers[rid]);
    }
  }

  lemma StepKeeps(w: World, step: Step)
    requires Inv(w) && Enabled(w, step) && Careful(w, step)
    ensures Inv(Apply(w, step))
  {
    StepTable(w, step);
    var w' := Apply(w, step);
    forall rid | rid in w'.reservers ensures ReserverOk(w'.table, w'.reservers[rid]) {
      if rid in w.reservers && w'.reservers[rid] == w.reservers[rid] {
        assert ReserverOk(w.table, w.reservers[rid]);
      } else {
        MoverOk(w, step, rid);
      }
    }
  }

  /**
   In every interleaving of reservers, releases, removals and safe writes, from
   any table without a shared port, no two projects ever hold the same port.
   */
  lemma {:induction false} NoPortIsEverShared(w: World, steps: seq<Step>, end: World)
    requires Inv(w) && CarefulRun(w, steps, end)
    ensures Inv(end) && NoSharedPort(end.table)
    decreases |steps|
  {
    if steps != [] {
      StepKeeps(w, steps[0]);
      NoPortIsEverShared(Apply(w, steps[0]), steps[1..], end);
    }
  }

  /** From the beginning: before any reserver is at work, an unshared table is all it takes. */
  lemma EveryTableStaysUnshared(table: Table, steps: seq<Step>, end: World)
    requires NoSharedPort(table) && CarefulRun(World(table, map[]), steps, end)
    ensures NoSharedPort(end.table)
  {
    NoPortIsEverShared(World(table, map[]), steps, end);
  }

  // -------------------------------------------------------- unconditional writes

  lemma {:induction false} StepThenRun(w: World, step: Step, steps: seq<Step>, end: World)
    requires Enabled(w, step) && Careful(w, step) && CarefulRun(Apply(w, step), steps, end)
    ensures CarefulRun(w, [step] + steps, end)
  {
    assert ([step] + steps)[1..] == steps;
  }

  /** A reserver about to claim a port that another project is on, spelled otherwise: the claim succeeds. */
  lemma {:induction false} ClaimShares(w: World, rid: nat, p: string, port: nat) returns (steps: seq<Step>, end: World)
    requires rid in w.reservers && w.reservers[rid].phase.Claiming? && w.reservers[rid].phase.port == port
    requires w.reservers[rid].left > 0 && port <= MAX_PORT
    requires w.reservers[rid].project != p && Unreserved(w.table, w.reservers[rid].project)
    requires Holds(w.table, p, port) && w.table[p].endpoint != Some(Endpoint(port))
    requires forall q | q != p :: !Holds(w.table, q, port)
    ensures |steps| == 1 && CarefulRun(w, steps, end) && !NoSharedPort(end.table)
  {
    PortOfEndpoint(port);
    steps, end := [Claim(rid)], Apply(w, Claim(rid));
    var q := w.reservers[rid].project;
    assert forall x | x in w.table :: w.table[x].endpoint == Some(Endpoint(port)) ==> Holds(w.table, x, port);
    assert Holds(end.table, q, port) && Holds(end.table, p, port);
    assert steps[1..] == [];
    assert CarefulRun(end, steps[1..], end);
  }

  /** A reserver that has yet to probe can come to claim any port it may still choose. */
  lemma ProbeFinds(r: Reserver, port: nat) returns (occupied: set<nat>)
    requires r.phase.Probing? && Threatens(r, port)
    ensures Search(r, occupied) == r.(seen := Search(r, occupied).seen, phase := Claiming(port, occupied))
  {
    occupied := Range(r.lo, r.hi - r.lo + 1) - {port};
    assert port !in occupied;
  }

  /** The project of an in-flight claim, whatever its row is, can come to be unreserved in at most two steps. */
  lemma {:induction false} Unreserve(w: World, q: string) returns (steps: seq<Step>, mid: World)
    ensures |steps| <= 2 && CarefulRun(w, steps, mid)
    ensures Unreserved(w.table, q) ==> steps == []
    ensures mid.reservers == w.reservers && Unreserved(mid.table, q)
    ensures forall x | x != q :: (x in mid.table <==> x in w.table) && (x in w.table ==> mid.table[x] == w.table[x])
  {
    if q !in w.table {
      steps, mid := [Register(q, None)], Apply(w, Register(q, None));
      StepThenRun(w, Register(q, None), [], mid);
    } else if w.table[q].endpoint.None? {
      steps, mid := [], w;
    } else if !w.table[q].state.Ready? {
      steps, mid := [Release(q)], Apply(w, Release(q));
      StepThenRun(w, Release(q), [], mid);
    } else {
      var w1 := Apply(w, SetState(q, Failed));
      steps, mid := [SetState(q, Failed), Release(q)], Apply(w1, Release(q));
      StepThenRun(w1, Release(q), [], mid);
      StepThenRun(w, SetState(q, Failed), [Release(q)], mid);
    }
  }

  lemma {:induction false} RunsJoin(w: World, a: seq<Step>, mid: World, b: seq<Step>, end: World)
    requires CarefulRun(w, a, mid) && CarefulRun(mid, b, end)
    ensures CarefulRun(w, a + b, end)
    decreases |a|
  {
    if a == [] {
      assert a + b == b;
    } else {
      RunsJoin(Apply(w, a[0]), a[1..], mid, b, end);
      assert (a + b)[1..] == a[1..] + b;
    }
  }

  /** A claim in flight on a port somebody was just put on, unseen: a few steps later two projects share it. */
  lemma {:induction false} InFlightClaimShares(w: World, rid: nat, p: string, port: nat) returns (steps: seq<Step>, end: World)
    requires rid in w.reservers && Threatens(w.reservers[rid], port) && w.reservers[rid].project != p
    requires w.reservers[rid].left > 0 && port <= MAX_PORT
    requires Holds(w.table, p, port) && w.table[p].endpoint != Some(Endpoint(port))
    requires forall q | q != p :: !Holds(w.table, q, port)
    ensures |steps| <= 4 && CarefulRun(w, steps, end) && !NoSharedPort(end.table)
    ensures Unreserved(w.table, w.reservers[rid].project) ==> |steps| <= 2
  {
    var q := w.reservers[rid].project;
    var first, mid := Unreserve(w, q);
    forall x | x != p ensures !Holds(mid.table, x, port) {
      assert !Holds(w.table, x, port);
    }
    assert Holds(mid.table, p, port);
    var last;
    if w.reservers[rid].phase.Claiming? {
      last, end := ClaimShares(mid, rid, p, port);
    } else {
      var occupied := ProbeFinds(w.reservers[rid], port);
      var probed := Apply(mid, Probe(rid, occupied));
      last, end := ClaimShares(probed, rid, p, port);
      StepThenRun(mid, Probe(rid, occupied), last, end);
      last := [Probe(rid, occupied)] + last;
    }
    steps := first + last;
    RunsJoin(w, first, mid, last, end);
  }

  /**
   An unsafe write: the table is shared at once, or at most four further steps
   make it so, two if whoever is reserving has no endpoint yet.
   */
  lemma {:induction false} UnsafeWriteShares(w: World, step: Step, p: string, endpoint: string) returns (steps: seq<Step>, end: World)
    requires Inv(w) && Enabled(w, step) && Places(step, p, endpoint) && !SafeWrite(w, p, endpoint)
    ensures |steps| <= 4 && CarefulRun(Apply(w, step), steps, end) && !NoSharedPort(end.table)
    ensures (forall rid | rid in w.reservers && w.reservers[rid].Active() :: Unreserved(w.table, w.reservers[rid].project))
            ==> |steps| <= 2
  {
    var port := EndpointPort(endpoint).value;
    var w' := Apply(w, step);
    assert Holds(w'.table, p, port);
    if q :| q in w.table && q != p && Holds(w.table, q, port) {
      steps, end := [], w';
      assert Holds(w'.table, q, port);
    } else {
      var rid :| rid in w.reservers && w.reservers[rid].project != p && Threatens(w.reservers[rid], port);
      assert ReserverOk(w.table, w.reservers[rid]);
      assert forall q | q != p :: !Holds(w'.table, q, port);
      steps, end := InFlightClaimShares(w', rid, p, port);
    }
  }

  /** However the world goes on, with unconditional writes only when safe, no port is shared. */
  ghost predicate StaysUnshared(w: World) {
    forall steps, end | CarefulRun(w, steps, end) :: NoSharedPort(end.table)
  }

  /**
   The condition is exact: after an unconditional write, every run with safe
   writes keeps ports unshared if and only if the write itself was safe.
   */
  lemma {:induction false} UncheckedWriteIsSafeIff(w: World, step: Step, p: string, endpoint: string)
    requires Inv(w) && Enabled(w, step) && Places(step, p, endpoint)
    ensures SafeWrite(w, p, endpoint) <==> StaysUnshared(Apply(w, step))
  {
    if SafeWrite(w, p, endpoint) {
      StepKeeps(w, step);
      forall steps, end | CarefulRun(Apply(w, step), steps, end) ensures NoSharedPort(end.table) {
        NoPortIsEverShared(Apply(w, step), steps, end);
      }
    } else {
      var steps, end := UnsafeWriteShares(w, step, p, endpoint);
      var w' := Apply(w, step);
      assert CarefulRun(w', steps, end) && !NoSharedPort(end.table);
    }
  }

  /** One project about to claim a port, another without an endpoint. */
  function OneClaiming(p: string, q: string, port: nat): World {
    World(map[p := Row(None, Pending), q := Row(None, Pending)],
          map[0 := Reserver(p, port, port, {}, 1, Claiming(port, {}), {}, {})])
  }

  /**
   The smallest case: a claim under way, and a spelling its comparison does not
   see through. The write leaves the table unshared, the claim does not.
   */
  lemma OtherSpellingShares(p: string, q: string, port: nat, endpoint: string)
    requires p != q && port <= MAX_PORT && EndpointPort(endpoint) == Some(port) && endpoint != Endpoint(port)
    ensures var w := OneClaiming(p, q, port);
            && Inv(w) && !SafeWrite(w, q, endpoint)
            && var written := Apply(w, Write(q, Some(endpoint), Pending));
               NoSharedPort(written.table) && !NoSharedPort(Apply(written, Claim(0)).table)
  {
    OneClaimingIsSound(p, q, port);
    assert Threatens(OneClaiming(p, q, port).reservers[0], port);
    UnseenClaim(p, q, port, endpoint);
  }

  lemma OneClaimingIsSound(p: string, q: string, port: nat)
    requires port <= MAX_PORT
    ensures Inv(OneClaiming(p, q, port))
  {
    var w := OneClaiming(p, q, port);
    assert forall x, n :: !Holds(w.table, x, n);
  }

  lemma UnseenClaim(p: string, q: string, port: nat, endpoint: string)
    requires p != q && port <= MAX_PORT && EndpointPort(endpoint) == Some(port) && endpoint != Endpoint(port)
    ensures var written := Apply(OneClaiming(p, q, port), Write(q, Some(endpoint), Pending));
            NoSharedPort(written.table) && !NoSharedPort(Apply(written, Claim(0)).table)
  {
    PortOfEndpoint(port);
    var table := map[p := Row(None, Pending), q := Row(Some(endpoint), Pending)];
    var written := Apply(OneClaiming(p, q, port), Write(q, Some(endpoint), Pending));
    assert written.table == table;
    assert forall x, n | Holds(table, x, n) :: x == q;
    assert MayClaim(table, p, port);
    var end := Apply(written, Claim(0));
    assert Holds(end.table, p, port) && Holds(end.table, q, port);
  }

  /** Such as a trailing slash. */
  lemma TrailingSlashShares(p: string, q: string, port: nat)
    requires p != q && port <= MAX_PORT
    ensures var written := Apply(OneClaiming(p, q, port), Write(q, Some(Endpoint(port) + "/"), Pending));
            NoSharedPort(written.table) && !NoSharedPort(Apply(written, Claim(0)).table)
  {
    PortBeforeSlash(port);
    OtherSpellingShares(p, q, port, Endpoint(port) + "/");
  }

  // ------------------------------------------------------------ an endpoint's life

  /**
   Unless it is written unconditionally, an endpoint appears only by a claim of
   a port that is in range, not reserved and not occupied when probed, goes only
   by a release before readiness, and is never exchanged for another.
   */
  lemma EndpointLife(w: World, step: Step, p: string)
    requires Inv(w) && Enabled(w, step) && p in w.table && p in Apply(w, step).table
    requires !(step.Write? && step.project == p)
    ensures var before := w.table[p].endpoint;
            var after := Apply(w, step).table[p].endpoint;
            && (before.Some? && after != before ==> after.None? && step == Release(p) && !w.table[p].state.Ready?)
            && (before.None? && after.Some? ==>
                  && step.Claim?
                  && var r := w.reservers[step.rid];
                     && r.project == p && after == Some(Endpoint(r.phase.port))
                     && r.InRange(r.phase.port) && r.phase.port !in r.reserved && r.phase.port !in r.phase.occupied)
  {
    if step.Claim? {
      assert ReserverOk(w.table, w.reservers[step.rid]);
    }
  }

  /** No write of this project's row, no release of it that can take effect, and not its removal. */
  ghost predicate Spared(w: World, step: Step, p: string) {
    && step != Unregister(p)
    && !(step.Write? && step.project == p)
    && (step == Release(p) ==> p in w.table && w.table[p].state.Ready?)
  }

  ghost predicate SparedRun(w: World, steps: seq<Step>, end: World, p: string)
    decreases |steps|
  {
    if steps == [] then end == w
    else Enabled(w, steps[0]) && Spared(w, steps[0], p) && SparedRun(Apply(w, steps[0]), steps[1..], end, p)
  }

  /** A reserved project is never moved: it keeps its endpoint until written, removed or released before readiness. */
  lemma {:induction false} ReservedStays(w: World, steps: seq<Step>, end: World, p: string)
    requires SparedRun(w, steps, end, p) && p in w.table && w.table[p].endpoint.Some?
    ensures p in end.table && end.table[p].endpoint == w.table[p].endpoint
    decreases |steps|
  {
    if steps != [] {
      ReservedStays(Apply(w, steps[0]), steps[1..], end, p);
    }
  }

  /** What a reserver answers is true of the table at that moment. */
  lemma AnswerIsTrue(w: World, step: Step, rid: nat)
    requires Enabled(w, step) && rid in w.reservers && rid in Apply(w, step).reservers
    requires w.reservers[rid].Active() && !Apply(w, step).reservers[rid].Active()
    ensures var r := Apply(w, step).reservers[rid];
            var table := Apply(w, step).table;
            && (r.phase.result.Ok? ==> r.project in table && table[r.project].endpoint == Some(r.phase.result.endpoint))
            && (r.phase.result.NotRegistered? ==> r.project !in table)
  {
  }

  // --------------------------------------------------- why a reserver gives up

  ghost predicate HeldByOther(table: Table, project: string, port: nat) {
    exists q :: q != project && Holds(table, q, port)
  }

  /** Nothing is released, rewritten or removed, and one reserver works per project. */
  ghost predicate Calm(w: World, step: Step) {
    && !step.Release? && !step.Unregister? && !step.Write?
    && (step.Call? ==> forall rid | rid in w.reservers && w.reservers[rid].Active() :: w.reservers[rid].project != step.project)
  }

  ghost predicate CalmRun(w: World, steps: seq<Step>, end: World)
    decreases |steps|
  {
    if steps == [] then end == w
    else Enabled(w, steps[0]) && Calm(w, steps[0]) && CalmRun(Apply(w, steps[0]), steps[1..], end)
  }

  ghost predicate OneEach(w: World) {
    forall a, b | a in w.reservers && b in w.reservers && w.reservers[a].Active() && w.reservers[b].Active() && a != b ::
      w.reservers[a].project != w.reservers[b].project
  }

  /** Every port this reserver could have had is accounted for. */
  ghost predicate Exhausted(table: Table, r: Reserver) {
    forall port | r.InRange(port) :: port in r.reserved || port in r.seen || HeldByOther(table, r.project, port)
  }

  /** What a reserver knows in a calm run: its losses are distinct ports that others hold. */
  ghost predicate Progress(table: Table, r: Reserver) {
    && (forall port | port in r.lost :: r.InRange(port) && HeldByOther(table, r.project, port))
    && (r.Active() ==> r.left > 0 && |r.lost| + r.left == r.Attempts())
    && (r.phase.Reading? || r.phase.Probing? || r.phase.Claiming? ==> Unreserved(table, r.project))
    && (r.phase.Probing? ==>
          && r.lost <= r.phase.taken
          && forall port | port in r.phase.taken :: port in r.reserved || HeldByOther(table, r.project, port))
    && (r.phase.Claiming? ==> r.phase.port !in r.lost && r.InRange(r.phase.port) && r.phase.port <= MAX_PORT)
    && (r.phase == Done(NoFreePort) || r.phase == Done(KeptChanging) ==> Exhausted(table, r))
  }

  ghost predicate CalmInv(w: World) {
    && OneEach(w)
    && forall rid | rid in w.reservers :: w.reservers[rid].hi <= MAX_PORT && Progress(w.table, w.reservers[rid])
  }

  /** In a calm step nobody's port goes away. */
  ghost predicate PortsStay(table: Table, table': Table) {
    forall p, port | Holds(table, p, port) :: Holds(table', p, port)
  }

  lemma CalmKeepsPorts(w: World, step: Step)
    requires Enabled(w, step) && Calm(w, step)
    ensures PortsStay(w.table, Apply(w, step).table)
  {
  }

  lemma HeldStays(table: Table, table': Table, project: string, port: nat)
    requires PortsStay(table, table') && HeldByOther(table, project, port)
    ensures HeldByOther(table', project, port)
  {
  }

  /** A reserver that did not move loses nothing by others' steps, unless they reserve for its own project. */
  lemma ProgressStays(table: Table, table': Table, r: Reserver)
    requires Progress(table, r) && PortsStay(table, table')
    requires r.Active() ==> (Unreserved(table, r.project) ==> Unreserved(table', r.project))
    ensures Progress(table', r)
  {
    forall port | HeldByOther(table, r.project, port) ensures HeldByOther(table', r.project, port) {
      HeldStays(table, table', r.project, port);
    }
  }

  lemma ReadTakenProgress(table: Table, r: Reserver)
    requires Progress(table, r) && r.phase.Reading?
    ensures Progress(table, r.(phase := Probing(r.reserved + PortsIn(table))))
  {
    forall port | port in PortsIn(table) ensures HeldByOther(table, r.project, port) {
      var q :| q in table && table[q].endpoint.Some? && EndpointPort(table[q].endpoint.value) == Some(port);
      assert Holds(table, q, port);
    }
    forall port | port in r.lost ensures port in PortsIn(table) {
      var q :| q != r.project && Holds(table, q, port);
    }
  }

  lemma SearchProgress(table: Table, r: Reserver, occupied: set<nat>)
    requires Progress(table, r) && r.phase.Probing? && r.hi <= MAX_PORT
    ensures Progress(table, Search(r, occupied))
  {
  }

  /** An unreserved project loses a claim only to a project that holds the port. */
  lemma LostClaimIsHeld(table: Table, project: string, port: nat)
    requires Unreserved(table, project) && port <= MAX_PORT && !MayClaim(table, project, port)
    ensures HeldByOther(table, project, port)
  {
    var q :| q in table && table[q].endpoint == Some(Endpoint(port));
    PortOfEndpoint(port);
    assert q != project && Holds(table, q, port);
  }

  /** A lost claim costs a port not lost before. */
  lemma LoseProgress(table: Table, r: Reserver)
    requires Progress(table, r) && r.phase.Claiming? && !MayClaim(table, r.project, r.phase.port)
    ensures Progress(table, Lose(r))
  {
    LostClaimIsHeld(table, r.project, r.phase.port);
    LostGrows(r.lost, r.phase.port);
    if r.left == 1 {
      LastLossExhausts(table, r);
    }
  }

  /** When the last attempt is lost, the ports lost are the whole range. */
  lemma LastLossExhausts(table: Table, r: Reserver)
    requires r.phase.Claiming? && r.left == 1 && r.InRange(r.phase.port) && r.phase.port !in r.lost
    requires |r.lost| + 1 == r.Attempts()
    requires forall port | port in r.lost :: r.InRange(port) && HeldByOther(table, r.project, port)
    requires HeldByOther(table, r.project, r.phase.port)
    ensures Exhausted(table, Lose(r))
  {
    var all := r.lost + {r.phase.port};
    LostGrows(r.lost, r.phase.port);
    LostIsRange(r.lo, r.hi, all);
    forall port | r.InRange(port) ensures HeldByOther(table, r.project, port) {
      assert port in all;
    }
  }

  lemma LostGrows(lost: set<nat>, port: nat)
    requires port !in lost
    ensures |lost + {port}| == |lost| + 1
  {
  }

  lemma LostIsRange(lo: nat, hi: nat, lost: set<nat>)
    requires lo <= hi && |lost| == hi - lo + 1
    requires forall port | port in lost :: lo <= port <= hi
    ensures forall port | lo <= port <= hi :: port in lost
  {
    RangeSize(lo, hi - lo + 1);
    FullSubset(lost, Range(lo, hi - lo + 1));
  }

  ghost function Range(lo: nat, size: nat): (range: set<nat>)
    ensures forall p :: p in range <==> lo <= p < lo + size
  {
    if size == 0 then {} else Range(lo, size - 1) + {lo + size - 1}
  }

  lemma {:induction false} RangeSize(lo: nat, size: nat)
    ensures |Range(lo, size)| == size
    decreases size
  {
    if size > 0 {
      RangeSize(lo, size - 1);
    }
  }

  lemma FullSubset<T>(a: set<T>, b: set<T>)
    requires a <= b && |a| == |b|
    ensures a == b
  {
    assert b == a + (b - a);
    assert |b| == |a| + |b - a|;
  }

  lemma CalmStepKeepsOneEach(w: World, step: Step)
    requires CalmInv(w) && Enabled(w, step) && Calm(w, step)
    ensures OneEach(Apply(w, step))
  {
  }

  lemma WinProgress(w: World, rid: nat)
    requires CalmInv(w) && Enabled(w, Claim(rid))
    requires MayClaim(w.table, w.reservers[rid].project, w.reservers[rid].phase.port)
    ensures Progress(Apply(w, Claim(rid)).table, Apply(w, Claim(rid)).reservers[rid])
  {
    var r := w.reservers[rid];
    CalmKeepsPorts(w, Claim(rid));
    forall port | port in r.lost ensures HeldByOther(Apply(w, Claim(rid)).table, r.project, port) {
      HeldStays(w.table, Apply(w, Claim(rid)).table, r.project, port);
    }
  }

  /** The reserver that takes the step. */
  lemma MoverProgress(w: World, step: Step, rid: nat)
    requires CalmInv(w) && Enabled(w, step) && Calm(w, step)
    requires rid in Apply(w, step).reservers
    requires rid !in w.reservers || Apply(w, step).reservers[rid] != w.reservers[rid]
    ensures Progress(Apply(w, step).table, Apply(w, step).reservers[rid])
  {
    match step {
      case ReadTaken(_) => ReadTakenProgress(w.table, w.reservers[rid]);
      case Probe(_, occupied) => SearchProgress(w.table, w.reservers[rid], occupied);
      case Claim(_) =>
        if MayClaim(w.table, w.reservers[rid].project, w.reservers[rid].phase.port) {
          WinProgress(w, rid);
        } else {
          LoseProgress(w.table, w.reservers[rid]);
        }
      case _ =>
    }
  }

  /** Nobody else reserves for an active reserver's project. */
  lemma OthersLeaveOwnRow(w: World, step: Step, rid: nat)
    requires CalmInv(w) && Enabled(w, step) && Calm(w, step)
    requires rid in w.reservers && rid in Apply(w, step).reservers && Apply(w, step).reservers[rid] == w.reservers[rid]
    requires w.reservers[rid].Active() && Unreserved(w.table, w.reservers[rid].project)
    ensures Unreserved(Apply(w, step).table, w.reservers[rid].project)
  {
  }

  lemma StayerProgress(w: World, step: Step, rid: nat)
    requires CalmInv(w) && Enabled(w, step) && Calm(w, step)
    requires rid in w.reservers && rid in Apply(w, step).reservers && Apply(w, step).reservers[rid] == w.reservers[rid]
    ensures Progress(Apply(w, step).table, w.reservers[rid])
  {
    var r := w.reservers[rid];
    CalmKeepsPorts(w, step);
    if r.Active() && Unreserved(w.table, r.project) {
      OthersLeaveOwnRow(w, step, rid);
    }
    ProgressStays(w.table, Apply(w, step).table, r);
  }

  lemma CalmStepProgress(w: World, step: Step, rid: nat)
    requires CalmInv(w) && Enabled(w, step) && Calm(w, step) && rid in Apply(w, step).reservers
    ensures Apply(w, step).reservers[rid].hi <= MAX_PORT
    ensures Progress(Apply(w, step).table, Apply(w, step).reservers[rid])
  {
    if rid in w.reservers && Apply(w, step).reservers[rid] == w.reservers[rid] {
      StayerProgress(w, step, rid);
    } else {
      MoverProgress(w, step, rid);
    }
  }

  lemma CalmStepKeeps(w: World, step: Step)
    requires CalmInv(w) && Enabled(w, step) && Calm(w, step)
    ensures CalmInv(Apply(w, step))
  {
    CalmStepKeepsOneEach(w, step);
    forall rid | rid in Apply(w, step).reservers
      ensures Apply(w, step).reservers[rid].hi <= MAX_PORT
      ensures Progress(Apply(w, step).table, Apply(w, step).reservers[rid])
    {
      CalmStepProgress(w, step, rid);
    }
  }

  /**
   In a calm run, either failure to reserve means that every port of the range
   is reserved, was seen occupied, or is held by another project: the bound on
   attempts never gives up too early.
   */
  lemma {:induction false} FailureMeansExhausted(w: World, steps: seq<Step>, end: World, rid: nat)
    requires CalmInv(w) && CalmRun(w, steps, end)
    requires rid in end.reservers
    requires end.reservers[rid].phase == Done(NoFreePort) || end.reservers[rid].phase == Done(KeptChanging)
    ensures Exhausted(end.table, end.reservers[rid])
    decreases |steps|
  {
    if steps == [] {
      assert Progress(end.table, end.reservers[rid]);
    } else {
      CalmStepKeeps(w, steps[0]);
      FailureMeansExhausted(Apply(w, steps[0]), steps[1..], end, rid);
    }
  }

  // ------------------------------------------------------------- the retry loop

  lemma {:induction false} RunThen(w: World, steps: seq<Step>, mid: World, step: Step)
    requires CarefulRun(w, steps, mid) && Enabled(mid, step) && Careful(mid, step)
    ensures CarefulRun(w, steps + [step], Apply(mid, step))
  {
    StepThenRun(mid, step, [], Apply(mid, step));
    RunsJoin(w, steps, mid, [step], Apply(mid, step));
  }

  /** Steps of the reserver itself; everything else is somebody else's. */
  predicate Moves(step: Step, rid: nat) {
    match step
    case Call(r, _, _, _, _) => r == rid
    case CheckOwn(r) => r == rid
    case ReadTaken(r) => r == rid
    case Probe(r, _) => r == rid
    case Claim(r) => r == rid
    case Abandon(r) => r == rid
    case _ => false
  }

  /**
   The registry one call works on. `history` is the run so far: every change,
   its own or another's, is one of the steps above.
   */
  class Registry {
    var world: World
    ghost var start: World
    ghost var history: seq<Step>

    ghost predicate Valid()
      reads this
    {
      CarefulRun(start, history, world)
    }

    constructor (table: Table)
      ensures Valid() && world == start == World(table, map[]) && history == []
    {
      world := World(table, map[]);
      start := World(table, map[]);
      history := [];
    }

    method Take(step: Step)
      requires Valid() && Enabled(world, step) && Careful(world, step)
      modifies this
      ensures Valid() && start == old(start)
      ensures world == Apply(old(world), step) && history == old(history) + [step]
    {
      RunThen(start, history, world, step);
      world := Apply(world, step);
      history := history + [step];
    }

    /** Others get the registry for a while, and do whatever of this they can and may. */
    method Interfere(rid: nat, others: seq<Step>)
      requires Valid() && rid in world.reservers
      modifies this
      ensures Valid() && start == old(start)
      ensures rid in world.reservers && world.reservers[rid] == old(world.reservers[rid])
    {
      for i := 0 to |others|
        invariant Valid() && start == old(start)
        invariant rid in world.reservers && world.reservers[rid] == old(world.reservers[rid])
      {
        if Enabled(world, others[i]) && Careful(world, others[i]) && !Moves(others[i], rid) {
          Take(others[i]);
        }
      }
    }

    /**
     The retry loop, with others let in between any two statements. It is the
     run of one reserver, so whatever holds over every run holds of it. An
     endpoint that is returned is the project's own, on a port that no other
     row's text ends in; `claimed` is the port if this call claimed it.
     */
    method ReserveEndpoint(rid: nat, project: string, lo: nat, hi: nat, reserved: set<nat>,
                           occupied: nat -> set<nat>, others: nat -> seq<Step>)
      returns (result: Result, ghost claimed: Option<nat>)
      requires Valid() && rid !in world.reservers && hi <= MAX_PORT
      modifies this
      ensures Valid() && start == old(start)
      ensures rid in world.reservers && world.reservers[rid].phase == Done(result)
      ensures world.reservers[rid].project == project
      ensures Inv(start) ==> NoSharedPort(world.table)
      ensures history != []
      ensures result.NotRegistered? ==> project !in world.table
      ensures result.Ok? ==> project in world.table && world.table[project].endpoint == Some(result.endpoint)
      ensures claimed.Some? ==> IsFresh(result, claimed.value, lo, hi, reserved, occupied)
      ensures claimed.Some? <==> history[|history| - 1] == Claim(rid) && result.Ok?
      ensures Inv(start) && result.Ok? ==>
                forall q, port | q in world.table && q != project && world.table[q].endpoint.Some? ::
                  NamesPort(world.table[q].endpoint.value, port) ==> !NamesPort(result.endpoint, port)
    {
      result, claimed := Attempt(rid, project, lo, hi, reserved, occupied, others);
      if Inv(start) {
        NoPortIsEverShared(start, history, world);
        if result.Ok? {
          NoOtherNames(world.table, project);
        }
      }
    }

    method Attempt(rid: nat, project: string, lo: nat, hi: nat, reserved: set<nat>,
                   occupied: nat -> set<nat>, others: nat -> seq<Step>)
      returns (result: Result, ghost claimed: Option<nat>)
      requires Valid() && rid !in world.reservers && hi <= MAX_PORT
      modifies this
      ensures Valid() && start == old(start) && history != []
      ensures rid in world.reservers && world.reservers[rid].phase == Done(result)
      ensures world.reservers[rid].project == project
      ensures result.NotRegistered? ==> project !in world.table
      ensures result.Ok? ==> project in world.table && world.table[project].endpoint == Some(result.endpoint)
      ensures claimed.Some? ==> IsFresh(result, claimed.value, lo, hi, reserved, occupied)
      ensures claimed.Some? <==> history[|history| - 1] == Claim(rid) && result.Ok?
    {
      Take(Call(rid, project, lo, hi, reserved));
      var attempts := if lo <= hi then hi - lo + 1 else 1;
      var n := 0;
      while n < attempts
        invariant 0 <= n <= attempts && Valid() && start == old(start) && history != [] && rid in world.reservers
        invariant SameCall(world.reservers[rid], project, lo, hi, reserved)
        invariant n < attempts ==> world.reservers[rid].phase.Looking? && world.reservers[rid].left == attempts - n
        invariant n == attempts ==> world.reservers[rid].phase == Done(KeptChanging)
      {
        var answer;
        answer, claimed := AttemptOnce(rid, occupied(n), others(4 * n), others(4 * n + 1), others(4 * n + 2), others(4 * n + 3));
        if answer.Some? {
          return answer.value, claimed;
        }
        n := n + 1;
      }
      return KeptChanging, None;
    }

    /** One turn of the loop; no answer means that the claim was lost. */
    method AttemptOnce(rid: nat, occupied: set<nat>, a: seq<Step>, b: seq<Step>, c: seq<Step>, d: seq<Step>)
      returns (answer: Option<Result>, ghost claimed: Option<nat>)
      requires Valid() && rid in world.reservers
      requires world.reservers[rid].phase.Looking? && world.reservers[rid].left > 0
      modifies this
      ensures Valid() && start == old(start) && history != [] && rid in world.reservers
      ensures var r, r' := old(world.reservers[rid]), world.reservers[rid];
              && SameCall(r', r.project, r.lo, r.hi, r.reserved)
              && (answer.Some? ==> r'.phase == Done(answer.value))
              && (answer.None? ==> r'.left == r.left - 1 && r'.phase == if r.left == 1 then Done(KeptChanging) else Looking)
      ensures var project := old(world.reservers[rid]).project;
              && (answer == Some(NotRegistered) ==> project !in world.table)
              && (answer.Some? && answer.value.Ok? ==>
                    project in world.table && world.table[project].endpoint == Some(answer.value.endpoint))
      ensures claimed.Some? ==>
                var r, port := old(world.reservers[rid]), claimed.value;
                && answer == Some(Ok(Endpoint(port)))
                && r.InRange(port) && port !in r.reserved && port !in occupied
      ensures claimed.Some? <==> history[|history| - 1] == Claim(rid) && answer.Some?
    {
      claimed := None;
      Interfere(rid, a);
      var r := world.reservers[rid];
      if r.project !in world.table {
        Take(CheckOwn(rid));
        return Some(NotRegistered), None;
      }
      var existing := world.table[r.project].endpoint;
      Take(CheckOwn(rid));
      if existing.Some? {
        return Some(Ok(existing.value)), None;
      }
      Interfere(rid, b);
      var taken := r.reserved + PortsIn(world.table);
      Take(ReadTaken(rid));
      Interfere(rid, c);
      var candidate := FirstFree(r.lo, r.hi, taken, occupied);
      Take(Probe(rid, occupied));
      if candidate.None? {
        return Some(NoFreePort), None;
      }
      Interfere(rid, d);
      var won := MayClaim(world.table, r.project, candidate.value);
      Take(Claim(rid));
      if won {
        return Some(Ok(Endpoint(candidate.value))), Some(candidate.value);
      }
      return None, None;
    }
  }

  /** The endpoint of a port in range that is not reserved and was not occupied when some attempt probed it. */
  ghost predicate IsFresh(result: Result, port: nat, lo: nat, hi: nat, reserved: set<nat>, occupied: nat -> set<nat>) {
    && result == Ok(Endpoint(port))
    && lo <= port <= hi && port !in reserved
    && exists n: nat :: n <= hi - lo && port !in occupied(n)
  }

  /** In an unshared table, no other row's text ends in a port that this project's does. */
  lemma NoOtherNames(table: Table, project: string)
    requires NoSharedPort(table) && project in table && table[project].endpoint.Some?
    ensures forall q, port | q in table && q != project && table[q].endpoint.Some? ::
              NamesPort(table[q].endpoint.value, port) ==> !NamesPort(table[project].endpoint.value, port)
  {
    forall q, port | q in table && q != project && table[q].endpoint.Some? && NamesPort(table[q].endpoint.value, port)
      ensures !NamesPort(table[project].endpoint.value, port)
    {
      PortIsReadIff(table[q].endpoint.value, port);
      PortIsReadIff(table[project].endpoint.value, port);
      assert Holds(table, q, port);
      assert !Holds(table, project, port);
    }
  }

  predicate SameCall(r: Reserver, project: string, lo: nat, hi: nat, reserved: set<nat>) {
    r.project == project && r.lo == lo && r.hi == hi && r.reserved == reserved
  }
}
