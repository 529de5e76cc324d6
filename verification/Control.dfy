/**
 Remote commands: delivered at least once, executed at most once.

 The durable state is the command inbox and the response outbox. The handler is
 one sequential task, so its position is one `Phase`; between any two durable
 writes the host may stop, storage may fail or the session may end, which loses
 the phase and nothing else (`Cut`). The Control Plane may deliver any command
 any number of times, and acknowledges an answer only after receiving one.
 */
module Control {
  import opened Options

  const MAX_OUTBOX_DEPTH: nat := 1024
  const FLUSH_LIMIT: nat := 64

  datatype CommandState = Received | Accepted | Executing | Completed | Rejected | Failed {
    predicate Terminal() {
      Completed? || Rejected? || Failed?
    }
  }

  /** A command that passed validation; `digest` is its fingerprint. */
  datatype Command = Command(id: string, digest: string)

  datatype Outcome = Succeeded(value: string) | Errored(code: string, message: string)

  datatype Record = Record(digest: string, state: CommandState, outcome: Option<Outcome>)

  /** What the Control Plane is told about a command. */
  datatype Answer = Answer(id: string, state: CommandState, outcome: Option<Outcome>)

  datatype Message = CommandResult(answer: Answer) | TaskReport(reportId: string)

  datatype Entry = Entry(message: Message, acknowledged: bool)

  datatype Phase =
    | Idle
    | Checked(command: Command)               // the outbox had room
    | Fresh(command: Command)                 // recorded for the first time
    | Announced(command: Command)             // acceptance sent
    | Ready(command: Command)                 // recorded as executing
    | InFlight(command: Command)              // execution has begun
    | Ran(command: Command, result: Outcome)  // execution has ended
    | Recorded(command: Command)              // outcome recorded
    | Replaying(answer: Answer)               // a duplicate, to be answered from the record
    | Flushing

  /** `executed` logs every execution begun, `sent` every answer put on a socket, `confirmed` every answer acknowledged. */
  datatype World = World(
    commands: map<string, Record>,
    outbox: seq<Entry>,
    phase: Phase,
    executed: seq<Command>,
    sent: set<Answer>,
    confirmed: set<Answer>
  )

  datatype Step =
    | Receive(command: Command)
    | Admit
    | Announce
    | MarkExecuting
    | Begin
    | Finish(result: Outcome)
    | RecordOutcome
    | Enqueue
    | Flush(count: nat)
    | Report(reportId: string)
    | Acknowledge(answer: Answer)
    | AcknowledgeReport(reportId: string)
    | Cut

  function AnswerOf(id: string, r: Record): Answer {
    Answer(id, r.state, r.outcome)
  }

  function Depth(outbox: seq<Entry>): nat {
    if outbox == [] then 0
    else Depth(outbox[..|outbox| - 1]) + if outbox[|outbox| - 1].acknowledged then 0 else 1
  }

  /** Unacknowledged messages, oldest first. */
  function Pending(outbox: seq<Entry>): seq<Message> {
    if outbox == [] then []
    else
      Pending(outbox[..|outbox| - 1]) +
      if outbox[|outbox| - 1].acknowledged then [] else [outbox[|outbox| - 1].message]
  }

  function AnswersIn(messages: seq<Message>): set<Answer> {
    set i | 0 <= i < |messages| && messages[i].CommandResult? :: messages[i].answer
  }

  /** Answers are acknowledged by command id, so every answer for that id is marked at once. */
  function MarkAnswers(outbox: seq<Entry>, id: string): seq<Entry> {
    seq(|outbox|, i requires 0 <= i < |outbox| =>
      var e := outbox[i];
      if e.message.CommandResult? && e.message.answer.id == id then e.(acknowledged := true) else e)
  }

  function MarkReports(outbox: seq<Entry>, reportId: string): seq<Entry> {
    seq(|outbox|, i requires 0 <= i < |outbox| =>
      var e := outbox[i];
      if e.message == TaskReport(reportId) then e.(acknowledged := true) else e)
  }

  /** Whether the Node, or the Control Plane, can take this step now. (By `PhaseOk` the handled id is always recorded.) */
  predicate Enabled(w: World, step: Step) {
    match step
    case Receive(_) => w.phase.Idle?
    case Admit => w.phase.Checked?
    case Announce => w.phase.Fresh?
    case MarkExecuting => w.phase.Announced? && w.phase.command.id in w.commands
    case Begin => w.phase.Ready?
    case Finish(_) => w.phase.InFlight?
    case RecordOutcome => w.phase.Ran? && w.phase.command.id in w.commands
    case Enqueue => w.phase.Replaying? || (w.phase.Recorded? && w.phase.command.id in w.commands)
    case Flush(n) => (w.phase.Idle? || w.phase.Flushing?) && n <= FLUSH_LIMIT && n <= |Pending(w.outbox)|
    case Report(_) => w.phase.Idle?
    case Acknowledge(a) => w.phase.Idle? && a in w.sent
    case AcknowledgeReport(_) => w.phase.Idle?
    case Cut => true
  }

  function AdmitCommand(w: World, c: Command): World {
    if c.id !in w.commands then
      w.(commands := w.commands[c.id := Record(c.digest, Received, None)], phase := Fresh(c))
    else if w.commands[c.id].digest != c.digest then w.(phase := Idle)
    else w.(phase := Replaying(AnswerOf(c.id, w.commands[c.id])))
  }

  function RecordResult(w: World, c: Command, result: Outcome): World
    requires c.id in w.commands
  {
    var state := if result.Succeeded? then Completed else Failed;
    w.(commands := w.commands[c.id := w.commands[c.id].(state := state, outcome := Some(result))], phase := Recorded(c))
  }

  /** The answer that is next to be queued. */
  function DueAnswer(w: World): Answer
    requires w.phase.Replaying? || (w.phase.Recorded? && w.phase.command.id in w.commands)
  {
    if w.phase.Replaying? then w.phase.answer else AnswerOf(w.phase.command.id, w.commands[w.phase.command.id])
  }

  function EnqueueAnswer(w: World, a: Answer): World {
    if Depth(w.outbox) >= MAX_OUTBOX_DEPTH then w.(phase := Idle)
    else w.(outbox := w.outbox + [Entry(CommandResult(a), false)], phase := Flushing)
  }

  function Apply(w: World, step: Step): World
    requires Enabled(w, step)
  {
    match step
    case Receive(c) => if Depth(w.outbox) >= MAX_OUTBOX_DEPTH then w else w.(phase := Checked(c))
    case Admit => AdmitCommand(w, w.phase.command)
    case Announce => w.(phase := Announced(w.phase.command))
    case MarkExecuting =>
      var c := w.phase.command;
      w.(commands := w.commands[c.id := w.commands[c.id].(state := Executing)], phase := Ready(c))
    case Begin => w.(executed := w.executed + [w.phase.command], phase := InFlight(w.phase.command))
    case Finish(result) => w.(phase := Ran(w.phase.command, result))
    case RecordOutcome => RecordResult(w, w.phase.command, w.phase.result)
    case Enqueue => EnqueueAnswer(w, DueAnswer(w))
    case Flush(n) => w.(sent := w.sent + AnswersIn(Pending(w.outbox)[..n]), phase := Idle)
    case Report(id) => w.(outbox := w.outbox + [Entry(TaskReport(id), false)])
    case Acknowledge(a) => w.(outbox := MarkAnswers(w.outbox, a.id), confirmed := w.confirmed + {a})
    case AcknowledgeReport(id) => w.(outbox := MarkReports(w.outbox, id))
    case Cut => w.(phase := Idle)
  }

  ghost predicate Run(w: World, steps: seq<Step>, end: World)
    decreases |steps|
  {
    if steps == [] then end == w
    else Enabled(w, steps[0]) && Run(Apply(w, steps[0]), steps[1..], end)
  }

  const INITIAL := World(map[], [], Idle, [], {}, {})

  // ------------------------------------------------------------- the invariant

  ghost predicate Logged(w: World, id: string) {
    exists i | 0 <= i < |w.executed| :: w.executed[i].id == id
  }

  ghost predicate Answered(w: World, id: string) {
    || (exists i | 0 <= i < |w.outbox| :: w.outbox[i].message.CommandResult? && w.outbox[i].message.answer.id == id)
    || (exists a :: a in w.sent && a.id == id)
  }

  /** The answer is the one the record gives. */
  ghost predicate Truthful(w: World, a: Answer) {
    a.id in w.commands && a == AnswerOf(a.id, w.commands[a.id])
  }

  ghost predicate LogOk(w: World) {
    && (forall i, j | 0 <= i < j < |w.executed| :: w.executed[i].id != w.executed[j].id)
    && (forall i | 0 <= i < |w.executed| ::
          w.executed[i].id in w.commands && w.commands[w.executed[i].id].digest == w.executed[i].digest)
  }

  ghost predicate AnswersOk(w: World) {
    && (forall i | 0 <= i < |w.outbox| && w.outbox[i].message.CommandResult? :: Truthful(w, w.outbox[i].message.answer))
    && (forall a | a in w.sent :: Truthful(w, a))
    && w.confirmed <= w.sent
    && (forall i | 0 <= i < |w.outbox| && w.outbox[i].message.CommandResult? && w.outbox[i].acknowledged ::
          w.outbox[i].message.answer in w.confirmed)
  }

  /** The command being handled for the first time, if there is one. */
  function Handling(p: Phase): Option<Command> {
    match p
    case Fresh(c) => Some(c)
    case Announced(c) => Some(c)
    case Ready(c) => Some(c)
    case InFlight(c) => Some(c)
    case Ran(c, _) => Some(c)
    case Recorded(c) => Some(c)
    case _ => None
  }

  ghost predicate PhaseOk(w: World) {
    && (Handling(w.phase).Some? ==>
          var c := Handling(w.phase).value;
          && c.id in w.commands
          && w.commands[c.id].digest == c.digest
          && !Answered(w, c.id)
          && (Logged(w, c.id) <==> w.phase.InFlight? || w.phase.Ran? || w.phase.Recorded?)
          && (w.commands[c.id].state.Terminal() <==> w.phase.Recorded?))
    && (w.phase.Replaying? ==> Truthful(w, w.phase.answer))
    && (Handling(w.phase).Some? || w.phase.Checked? || w.phase.Replaying? ==> Depth(w.outbox) < MAX_OUTBOX_DEPTH)
  }

  ghost predicate Inv(w: World) {
    LogOk(w) && AnswersOk(w) && PhaseOk(w)
  }

  lemma DepthOfAppend(outbox: seq<Entry>, e: Entry)
    ensures Depth(outbox + [e]) == Depth(outbox) + if e.acknowledged then 0 else 1
  {
  }

  /** Only what waits unacknowledged in the outbox is sent. */
  lemma {:induction false} PendingIsInOutbox(outbox: seq<Entry>, k: nat)
    requires k < |Pending(outbox)|
    ensures exists i | 0 <= i < |outbox| :: !outbox[i].acknowledged && outbox[i].message == Pending(outbox)[k]
    decreases |outbox|
  {
    var init, last := outbox[..|outbox| - 1], outbox[|outbox| - 1];
    if k < |Pending(init)| {
      PendingIsInOutbox(init, k);
      var i :| 0 <= i < |init| && !init[i].acknowledged && init[i].message == Pending(init)[k];
      assert outbox[i] == init[i];
    } else {
      assert outbox[|outbox| - 1] == last;
    }
  }

  /** Positions in increasing order, and these entries are the messages. */
  ghost predicate At(outbox: seq<Entry>, places: seq<nat>, messages: seq<Message>) {
    && |places| == |messages|
    && (forall k | 0 <= k < |places| :: places[k] < |outbox| && outbox[places[k]].message == messages[k])
    && (forall j, k | 0 <= j < k < |places| :: places[j] < places[k])
  }

  /** What is pending is exactly the unacknowledged entries, in their order. */
  lemma {:induction false} PendingIsUnacknowledged(outbox: seq<Entry>) returns (places: seq<nat>)
    ensures At(outbox, places, Pending(outbox))
    ensures forall i | 0 <= i < |outbox| :: i in places <==> !outbox[i].acknowledged
    decreases |outbox|
  {
    if outbox == [] {
      places := [];
    } else {
      var init, last := outbox[..|outbox| - 1], outbox[|outbox| - 1];
      places := PendingIsUnacknowledged(init);
      assert forall k | 0 <= k < |places| :: places[k] in places && places[k] < |init|;
      if !last.acknowledged {
        places := places + [|outbox| - 1];
      }
    }
  }

  lemma {:induction false} DepthCountsPending(outbox: seq<Entry>)
    ensures Depth(outbox) == |Pending(outbox)|
    decreases |outbox|
  {
    if outbox != [] {
      DepthCountsPending(outbox[..|outbox| - 1]);
    }
  }

  /** Once an id is acknowledged nothing for it is pending, and whatever is for other ids still is. */
  lemma {:induction false} AcknowledgedIsNotPending(outbox: seq<Entry>, id: string)
    ensures forall m :: m in Pending(MarkAnswers(outbox, id)) <==>
                        m in Pending(outbox) && !(m.CommandResult? && m.answer.id == id)
    decreases |outbox|
  {
    if outbox != [] {
      AcknowledgedIsNotPending(outbox[..|outbox| - 1], id);
      assert MarkAnswers(outbox, id)[..|outbox| - 1] == MarkAnswers(outbox[..|outbox| - 1], id);
    }
  }

  lemma {:induction false} AcknowledgedReportIsNotPending(outbox: seq<Entry>, reportId: string)
    ensures forall m :: m in Pending(MarkReports(outbox, reportId)) <==> m in Pending(outbox) && m != TaskReport(reportId)
    decreases |outbox|
  {
    if outbox != [] {
      AcknowledgedReportIsNotPending(outbox[..|outbox| - 1], reportId);
      assert MarkReports(outbox, reportId)[..|outbox| - 1] == MarkReports(outbox[..|outbox| - 1], reportId);
    }
  }

  lemma AdmitKeeps(w: World)
    requires Inv(w) && w.phase.Checked?
    ensures Inv(Apply(w, Admit))
  {
    var c := w.phase.command;
    var w' := Apply(w, Admit);
    if c.id !in w.commands {
      assert !Answered(w', c.id);
      assert !Logged(w', c.id);
    }
  }

  lemma BeginKeeps(w: World)
    requires Inv(w) && w.phase.Ready?
    ensures Inv(Apply(w, Begin))
  {
    var c := w.phase.command;
    var w' := Apply(w, Begin);
    assert w'.executed[|w.executed|] == c;
    assert forall i | 0 <= i < |w.executed| :: w'.executed[i] == w.executed[i] && w.executed[i].id != c.id;
  }

  lemma EnqueueKeeps(w: World)
    requires Inv(w) && Enabled(w, Enqueue)
    ensures Inv(Apply(w, Enqueue))
  {
  }

  lemma FlushKeeps(w: World, n: nat)
    requires Inv(w) && Enabled(w, Flush(n))
    ensures Inv(Apply(w, Flush(n)))
  {
    forall a | a in AnswersIn(Pending(w.outbox)[..n]) ensures Truthful(w, a) {
      var k :| 0 <= k < n && Pending(w.outbox)[..n][k] == CommandResult(a);
      PendingIsInOutbox(w.outbox, k);
    }
  }

  /** All answers for one id are one answer, so confirming it by id confirms each of them. */
  lemma AcknowledgeKeeps(w: World, a: Answer)
    requires Inv(w) && Enabled(w, Acknowledge(a))
    ensures Inv(Apply(w, Acknowledge(a)))
  {
  }

  lemma ReportKeeps(w: World, step: Step)
    requires Inv(w) && Enabled(w, step) && (step.Report? || step.AcknowledgeReport?)
    ensures Inv(Apply(w, step))
  {
  }

  lemma RecordKeeps(w: World, step: Step)
    requires Inv(w) && Enabled(w, step) && (step.MarkExecuting? || step.RecordOutcome?)
    ensures Inv(Apply(w, step))
  {
  }

  lemma StepKeeps(w: World, step: Step)
    requires Inv(w) && Enabled(w, step)
    ensures Inv(Apply(w, step))
  {
    match step {
      case Admit => AdmitKeeps(w);
      case Begin => BeginKeeps(w);
      case Enqueue => EnqueueKeeps(w);
      case Flush(n) => FlushKeeps(w, n);
      case Acknowledge(a) => AcknowledgeKeeps(w, a);
      case Report(_) => ReportKeeps(w, step);
      case AcknowledgeReport(_) => ReportKeeps(w, step);
      case MarkExecuting => RecordKeeps(w, step);
      case RecordOutcome => RecordKeeps(w, step);
      case _ =>
    }
  }

  lemma {:induction false} RunKeeps(w: World, steps: seq<Step>, end: World)
    requires Inv(w) && Run(w, steps, end)
    ensures Inv(end)
    decreases |steps|
  {
    if steps != [] {
      StepKeeps(w, steps[0]);
      RunKeeps(Apply(w, steps[0]), steps[1..], end);
    }
  }

  // ------------------------------------------------------------ over every run

  /** Each command id is executed at most once, and only with the fingerprint it was first recorded with. */
  lemma ExecutedAtMostOnce(steps: seq<Step>, end: World)
    requires Run(INITIAL, steps, end)
    ensures forall i, j | 0 <= i < j < |end.executed| :: end.executed[i].id != end.executed[j].id
    ensures forall i | 0 <= i < |end.executed| ::
              end.executed[i].id in end.commands && end.commands[end.executed[i].id].digest == end.executed[i].digest
  {
    RunKeeps(INITIAL, steps, end);
  }

  /** A recorded command that nothing is handling: finished, refused, or cut off part-way. */
  ghost predicate Left(w: World, id: string) {
    id in w.commands && !(Handling(w.phase).Some? && Handling(w.phase).value.id == id)
  }

  lemma StepLeaves(w: World, step: Step, id: string)
    requires Inv(w) && Enabled(w, step) && Left(w, id)
    ensures var w' := Apply(w, step);
            && Left(w', id)
            && w'.commands[id] == w.commands[id]
            && (Logged(w', id) <==> Logged(w, id))
  {
    if step.Begin? {
      var w' := Apply(w, step);
      assert w'.executed[|w.executed|].id != id;
      assert forall i | 0 <= i < |w.executed| :: w'.executed[i] == w.executed[i];
    }
  }

  /**
   A command the handler has let go of is never run again and its record never
   changes, whatever is redelivered: one that was cut off stays cut off.
   */
  lemma {:induction false} LeftForGood(w: World, steps: seq<Step>, end: World, id: string)
    requires Inv(w) && Left(w, id) && Run(w, steps, end)
    ensures id in end.commands && end.commands[id] == w.commands[id]
    ensures Logged(end, id) <==> Logged(w, id)
    decreases |steps|
  {
    if steps != [] {
      StepLeaves(w, steps[0], id);
      StepKeeps(w, steps[0]);
      LeftForGood(Apply(w, steps[0]), steps[1..], end, id);
    }
  }

  lemma StepKeepsDigest(w: World, step: Step, id: string)
    requires Enabled(w, step) && id in w.commands
    ensures id in Apply(w, step).commands && Apply(w, step).commands[id].digest == w.commands[id].digest
  {
  }

  lemma {:induction false} RunKeepsDigest(w: World, steps: seq<Step>, end: World, id: string)
    requires Run(w, steps, end) && id in w.commands
    ensures id in end.commands && end.commands[id].digest == w.commands[id].digest
    decreases |steps|
  {
    if steps != [] {
      StepKeepsDigest(w, steps[0], id);
      RunKeepsDigest(Apply(w, steps[0]), steps[1..], end, id);
    }
  }

  /** Once an id is recorded, the same id with another fingerprint is never executed. */
  lemma ReusedIdNeverExecutes(before: seq<Step>, w: World, after: seq<Step>, end: World, c: Command)
    requires Run(INITIAL, before, w) && Run(w, after, end)
    requires c.id in w.commands && w.commands[c.id].digest != c.digest
    ensures c !in end.executed
  {
    RunKeeps(INITIAL, before, w);
    RunKeeps(w, after, end);
    RunKeepsDigest(w, after, end, c.id);
    assert forall i | 0 <= i < |end.executed| :: end.executed[i] != c;
  }

  lemma TerminalStays(w: World, step: Step, id: string)
    requires Inv(w) && Enabled(w, step) && id in w.commands && w.commands[id].state.Terminal()
    ensures id in Apply(w, step).commands && Apply(w, step).commands[id] == w.commands[id]
  {
  }

  lemma {:induction false} TerminalForGood(w: World, steps: seq<Step>, end: World, id: string)
    requires Inv(w) && Run(w, steps, end) && id in w.commands && w.commands[id].state.Terminal()
    ensures id in end.commands && end.commands[id] == w.commands[id]
    decreases |steps|
  {
    if steps != [] {
      TerminalStays(w, steps[0], id);
      StepKeeps(w, steps[0]);
      TerminalForGood(Apply(w, steps[0]), steps[1..], end, id);
    }
  }

  /**
   Once a record is terminal, every answer in the outbox and every answer ever
   sent for that id, earlier or later, first or replayed, is that outcome.
   */
  lemma OneOutcome(before: seq<Step>, w: World, after: seq<Step>, end: World, id: string)
    requires Run(INITIAL, before, w) && Run(w, after, end)
    requires id in w.commands && w.commands[id].state.Terminal()
    ensures forall i | 0 <= i < |end.outbox| && end.outbox[i].message.CommandResult? && end.outbox[i].message.answer.id == id ::
              end.outbox[i].message.answer == Answer(id, w.commands[id].state, w.commands[id].outcome)
    ensures forall a | a in end.sent && a.id == id :: a == Answer(id, w.commands[id].state, w.commands[id].outcome)
  {
    RunKeeps(INITIAL, before, w);
    RunKeeps(w, after, end);
    TerminalForGood(w, after, end, id);
  }

  /** Completed with a success, failed with an error, and otherwise no outcome yet. */
  ghost predicate Reflects(state: CommandState, outcome: Option<Outcome>) {
    && (state == Completed <==> outcome.Some? && outcome.value.Succeeded?)
    && (state == Failed <==> outcome.Some? && outcome.value.Errored?)
    && (outcome.None? <==> state != Completed && state != Failed)
  }

  ghost predicate RecordsReflect(w: World) {
    forall id | id in w.commands :: Reflects(w.commands[id].state, w.commands[id].outcome)
  }

  lemma StepReflects(w: World, step: Step)
    requires Inv(w) && RecordsReflect(w) && Enabled(w, step)
    ensures RecordsReflect(Apply(w, step))
  {
  }

  lemma {:induction false} RunReflects(w: World, steps: seq<Step>, end: World)
    requires Inv(w) && RecordsReflect(w) && Run(w, steps, end)
    ensures RecordsReflect(end)
    decreases |steps|
  {
    if steps != [] {
      StepReflects(w, steps[0]);
      StepKeeps(w, steps[0]);
      RunReflects(Apply(w, steps[0]), steps[1..], end);
    }
  }

  /** In every run, each record, each queued answer and each sent one says completed of a success and failed of an error. */
  lemma AnswersReflectOutcomes(steps: seq<Step>, end: World)
    requires Run(INITIAL, steps, end)
    ensures forall id | id in end.commands :: Reflects(end.commands[id].state, end.commands[id].outcome)
    ensures forall i | 0 <= i < |end.outbox| && end.outbox[i].message.CommandResult? ::
              Reflects(end.outbox[i].message.answer.state, end.outbox[i].message.answer.outcome)
    ensures forall a | a in end.sent :: Reflects(a.state, a.outcome)
  {
    RunKeeps(INITIAL, steps, end);
    RunReflects(INITIAL, steps, end);
  }

  /** An answer stops being resent only after the Control Plane confirmed that very answer. */
  lemma AcknowledgedMeansDelivered(steps: seq<Step>, end: World, i: nat)
    requires Run(INITIAL, steps, end) && i < |end.outbox|
    requires end.outbox[i].acknowledged && end.outbox[i].message.CommandResult?
    ensures end.outbox[i].message.answer in end.confirmed && end.outbox[i].message.answer in end.sent
  {
    RunKeeps(INITIAL, steps, end);
  }

  /** A command is recorded only while the outbox has room, and the room is still there when its result is due. */
  lemma AdmittedOnlyWithRoom(steps: seq<Step>, w: World, step: Step)
    requires Run(INITIAL, steps, w) && Enabled(w, step)
    ensures Apply(w, step).commands.Keys != w.commands.Keys ==> Depth(w.outbox) < MAX_OUTBOX_DEPTH
    ensures w.phase.Recorded? && step.Enqueue? ==>
              var id := w.phase.command.id;
              Apply(w, step).outbox ==
              w.outbox + [Entry(CommandResult(Answer(id, w.commands[id].state, w.commands[id].outcome)), false)]
  {
    RunKeeps(INITIAL, steps, w);
    if !step.Admit? {
      assert Apply(w, step).commands.Keys == w.commands.Keys;
    }
  }

  // ------------------------------------------------------------ the room in the outbox

  lemma {:induction false} MarkingShrinks(outbox: seq<Entry>, id: string)
    ensures Depth(MarkAnswers(outbox, id)) <= Depth(outbox)
    decreases |outbox|
  {
    if outbox != [] {
      MarkingShrinks(outbox[..|outbox| - 1], id);
      assert MarkAnswers(outbox, id)[..|outbox| - 1] == MarkAnswers(outbox[..|outbox| - 1], id);
    }
  }

  lemma {:induction false} MarkingReportsShrinks(outbox: seq<Entry>, reportId: string)
    ensures Depth(MarkReports(outbox, reportId)) <= Depth(outbox)
    decreases |outbox|
  {
    if outbox != [] {
      MarkingReportsShrinks(outbox[..|outbox| - 1], reportId);
      assert MarkReports(outbox, reportId)[..|outbox| - 1] == MarkReports(outbox[..|outbox| - 1], reportId);
    }
  }

  /** Commands alone never fill the outbox past its limit. */
  lemma {:induction false} OutboxStaysBounded(w: World, steps: seq<Step>, end: World)
    requires Depth(w.outbox) <= MAX_OUTBOX_DEPTH && Run(w, steps, end)
    requires forall i | 0 <= i < |steps| :: !steps[i].Report?
    ensures Depth(end.outbox) <= MAX_OUTBOX_DEPTH
    decreases |steps|
  {
    if steps != [] {
      match steps[0] {
        case Acknowledge(a) => MarkingShrinks(w.outbox, a.id);
        case AcknowledgeReport(id) => MarkingReportsShrinks(w.outbox, id);
        case Enqueue =>
          DepthOfAppend(w.outbox, Entry(CommandResult(DueAnswer(w)), false));
        case _ =>
      }
      OutboxStaysBounded(Apply(w, steps[0]), steps[1..], end);
    }
  }

  // ---------------------------------------------------------------- the handler

  lemma {:induction false} RunThen(w: World, steps: seq<Step>, mid: World, step: Step)
    requires Run(w, steps, mid) && Enabled(mid, step)
    ensures Run(w, steps + [step], Apply(mid, step))
    decreases |steps|
  {
    var all := steps + [step];
    if steps == [] {
      assert all[1..] == [];
    } else {
      RunThen(Apply(w, steps[0]), steps[1..], mid, step);
      assert all[1..] == steps[1..] + [step];
    }
  }

  /** Statements up to and including the one that queues the answer. */
  const STATEMENTS: nat := 8

  /** A full outbox, or an id recorded with another fingerprint. */
  predicate Refuses(w: World, c: Command) {
    Depth(w.outbox) >= MAX_OUTBOX_DEPTH || (c.id in w.commands && w.commands[c.id].digest != c.digest)
  }

  /** The answers among the first 64 pending messages, as far as `sends` goes, have been sent. */
  ghost predicate Flushed(w: World, sends: int) {
    var pending := Pending(w.outbox);
    forall k | 0 <= k < |pending| && k < 64 && k < sends && pending[k].CommandResult? :: pending[k].answer in w.sent
  }

  /** A Node with its whole history since an empty registry. */
  class Node {
    var world: World
    ghost var history: seq<Step>

    ghost predicate Valid()
      reads this
    {
      Run(INITIAL, history, world)
    }

    constructor ()
      ensures Valid() && world == INITIAL
    {
      world := INITIAL;
      history := [];
    }

    method Take(step: Step)
      requires Valid() && Enabled(world, step)
      modifies this
      ensures Valid() && world == Apply(old(world), step)
    {
      RunThen(INITIAL, history, world, step);
      world := Apply(world, step);
      history := history + [step];
    }

    /**
     One delivery of a command, statement by statement. The handler gets `budget`
     statements far before the host stops, storage fails or the session ends. It
     runs the command only if its id was never recorded before, and only once; a
     refused command changes nothing; and a handler that gets to its end has
     queued the recorded answer, with the outcome of a command it ran.
     */
    method HandleCommand(c: Command, result: Outcome, budget: nat)
      requires Valid() && world.phase.Idle?
      modifies this
      ensures Valid() && world.phase.Idle?
      ensures world.executed == old(world.executed) || world.executed == old(world.executed) + [c]
      ensures c.id in old(world.commands) ==> world.executed == old(world.executed) && world.commands == old(world.commands)
      ensures Refuses(old(world), c) ==> world == old(world)
      ensures !Refuses(old(world), c) && budget >= STATEMENTS ==>
                && c.id in world.commands
                && var r := world.commands[c.id];
                   world.outbox == old(world.outbox) + [Entry(CommandResult(Answer(c.id, r.state, r.outcome)), false)]
      ensures !Refuses(old(world), c) && budget >= STATEMENTS && c.id !in old(world.commands) ==>
                && world.executed == old(world.executed) + [c]
                && world.commands[c.id] == Record(c.digest, if result.Succeeded? then Completed else Failed, Some(result))
      ensures !Refuses(old(world), c) ==> Flushed(world, budget - STATEMENTS)
      // How far a new command gets by the number of statements.
      ensures !Refuses(old(world), c) && c.id !in old(world.commands) ==>
                && world.commands == (if budget == 0 then old(world.commands) else
                     old(world.commands)[c.id := if budget <= 2 then Record(c.digest, Received, None)
                                                 else if budget <= 5 then Record(c.digest, Executing, None)
                                                 else Record(c.digest, if result.Succeeded? then Completed else Failed, Some(result))])
                && world.executed == if budget <= 3 then old(world.executed) else old(world.executed) + [c]
    {
      Take(Receive(c));
      if world.phase.Idle? {
        return;
      }
      if budget == 0 {
        Take(Cut);
        return;
      }
      Take(Admit);
      if world.phase.Fresh? {
        ExecuteOnce(result, budget - 1);
      }
      if world.phase.Recorded? || world.phase.Replaying? {
        QueueAnswer(budget);
      }
    }

    /** From the first record of a command to the record of its outcome; it can stop anywhere, also while the command runs. */
    method ExecuteOnce(result: Outcome, budget: nat)
      requires Valid() && world.phase.Fresh? && world.phase.command.id in world.commands
      modifies this
      ensures Valid() && world.outbox == old(world.outbox)
      ensures world.phase == if budget >= 5 then Recorded(old(world.phase.command)) else Idle
      ensures var c := old(world.phase.command);
              var r := old(world.commands[world.phase.command.id]);
              && world.executed == (if budget <= 2 then old(world.executed) else old(world.executed) + [c])
              && world.commands == old(world.commands)[c.id :=
                   if budget <= 1 then r
                   else if budget <= 4 then r.(state := Executing)
                   else r.(state := if result.Succeeded? then Completed else Failed, outcome := Some(result))]
    {
      if budget == 0 {
        Take(Cut);
        return;
      }
      Take(Announce);
      if budget == 1 {
        Take(Cut);
        return;
      }
      Take(MarkExecuting);
      if budget == 2 {
        Take(Cut);
        return;
      }
      Execute(result, budget);
    }

    /** The execution itself and the record of its outcome. */
    method Execute(result: Outcome, budget: nat)
      requires Valid() && world.phase.Ready? && world.phase.command.id in world.commands
      modifies this
      ensures Valid() && world.outbox == old(world.outbox)
      ensures world.phase == if budget >= 5 then Recorded(old(world.phase.command)) else Idle
      ensures world.executed == old(world.executed) + [old(world.phase.command)]
      ensures var id, r := old(world.phase.command.id), old(world.commands[world.phase.command.id]);
              world.commands == if budget <= 4 then old(world.commands) else
                old(world.commands)[id := r.(state := if result.Succeeded? then Completed else Failed, outcome := Some(result))]
    {
      Take(Begin);
      if budget <= 3 {
        Take(Cut);
        return;
      }
      Take(Finish(result));
      if budget == 4 {
        Take(Cut);
        return;
      }
      Take(RecordOutcome);
    }

    /** The answer is stored before it is sent. */
    method QueueAnswer(budget: nat)
      requires Valid() && Enabled(world, Enqueue)
      modifies this
      ensures Valid() && world.phase.Idle?
      ensures world.executed == old(world.executed) && world.commands == old(world.commands)
      ensures budget >= STATEMENTS && Depth(old(world.outbox)) < MAX_OUTBOX_DEPTH ==>
                world.outbox == old(world.outbox) + [Entry(CommandResult(DueAnswer(old(world))), false)]
      ensures Depth(old(world.outbox)) < MAX_OUTBOX_DEPTH ==> Flushed(world, budget - STATEMENTS)
    {
      if budget < STATEMENTS {
        Take(Cut);
        return;
      }
      Take(Enqueue);
      if world.phase.Flushing? {
        var _ := FlushOutbox(budget - STATEMENTS);
      }
    }

    /** Sends what waits, oldest first and at most a batch, as far as the session lasts. */
    method FlushOutbox(sends: nat) returns (frames: seq<Message>)
      requires Valid() && (world.phase.Idle? || world.phase.Flushing?)
      modifies this
      ensures Valid() && world.phase.Idle?
      ensures frames <= Pending(old(world.outbox))
      ensures |frames| <= 64 && |frames| <= sends
      ensures |frames| == 64 || |frames| == sends || frames == Pending(old(world.outbox))
      ensures forall a :: a in world.sent <==> a in old(world.sent) || CommandResult(a) in frames
      ensures world == old(world).(sent := old(world.sent) + AnswersIn(frames), phase := Idle)
    {
      var pending := Pending(world.outbox);
      if |pending| > FLUSH_LIMIT {
        pending := pending[..FLUSH_LIMIT];
      }
      frames := [];
      while |frames| < |pending| && |frames| < sends
        invariant |frames| <= |pending| && |frames| <= sends && frames == pending[..|frames|]
        decreases |pending| - |frames|
      {
        frames := frames + [pending[|frames|]];
      }
      assert frames == Pending(world.outbox)[..|frames|];
      Take(Flush(|frames|));
    }
  }
}
