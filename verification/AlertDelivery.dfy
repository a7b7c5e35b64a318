/** `deliver_candidate` of `consensus_engine/alert_delivery.py` as a protocol over the event store.

Any number of dispatches run on one store. Between any two awaits the scheduler may run another
delivery, let another writer commit, or stop a delivery for good; a store call may also fail with
nothing committed, or commit and stop before its caller hears of it.
*/
module AlertDelivery {
  import opened Wrappers
  import opened EventStore

  datatype SendStatus = ConfirmedDelivered | FailedSend | UnknownOutcome | RejectedBeforeSend {
    function Name(): string {
      match this
      case ConfirmedDelivered => "CONFIRMED_DELIVERED"
      case FailedSend => "FAILED"
      case UnknownOutcome => "UNKNOWN"
      case RejectedBeforeSend => "REJECTED_BEFORE_SEND"
    }
  }

  datatype Receipt = Receipt(status: SendStatus, reason: string, at: int, attempts: nat, reference: Option<string>) {
    /** Only a confirmation names a message, and it needs an attempt. */
    predicate Valid() {
      if status.ConfirmedDelivered? then reference.Some? && reference.value != "" && attempts > 0
      else reference.None?
    }
  }

  /** One call's arguments. `blocked` is the reason it may not send, decided before any write. */
  datatype Dispatch = Dispatch(
    id: string, candidateId: string, at: int, session: string, bundle: seq<Row>, text: string,
    expired: bool, actionable: bool, mechanicallyValid: bool)
  {
    function Blocked(): Option<string> {
      if expired then Some("EXPIRED")
      else if actionable && !mechanicallyValid then Some("INVALID_SETUP")
      else None
    }

    function Intent(): seq<Row> {
      IntentRows(bundle, Attempt(id, candidateId, at, "PENDING", None), text, session)
    }

    function Started(): seq<Row> {
      ResultRows(Attempt(id + ":started", candidateId, at, "SEND_STARTED", None), "SINK_STARTED", 0, session)
    }

    function Result(receipt: Receipt): seq<Row> {
      ResultRows(Attempt(id + ":result", candidateId, receipt.at, receipt.status.Name(), receipt.reference),
                 receipt.reason, receipt.attempts, session)
    }

    /** The receipt a delivery works with: one from before the delivery proves nothing. */
    function Received(receipt: Receipt): Receipt {
      if receipt.at < at then Receipt(UnknownOutcome, "INVALID_RECEIPT_TIME", at, receipt.attempts, None) else receipt
    }

    predicate Valid() {
      forall row | row in bundle :: row.kind !in {DeliveryIntent, DeliveryResult}
    }
  }

  datatype Stage =
    | Unwritten | IntentStored | StartStored | Calling | Answered(receipt: Receipt) | Finished(receipt: Receipt)

  datatype Progress = Progress(stage: Stage, running: bool)

  datatype System = System(table: Table, progress: seq<Progress>, sends: seq<nat>)

  /** One scheduled step: delivery `i` goes on to its next await, the store honouring a write or
      failing; it stops where it is; or another writer commits. */
  datatype Action = GoOn(i: nat, storeUp: bool, reply: Receipt) | Stop(i: nat) | Other(batch: seq<Row>)

  predicate ValidAction(action: Action) {
    match action
    case GoOn(_, _, reply) => reply.Valid()
    case Stop(_) => true
    case Other(batch) => forall row | row in batch :: row.kind !in {DeliveryIntent, DeliveryResult}
  }

  function Start(dispatches: seq<Dispatch>): System {
    System(map[], seq(|dispatches|, _ => Progress(Unwritten, true)), [])
  }

  /** A store call: the delivery moves to `next` when its rows commit, and ends otherwise. */
  function Write(s: System, i: nat, storeUp: bool, rows: seq<Row>, next: Stage): System
    requires i < |s.progress|
  {
    if storeUp && InsertedAll(s.table, rows).Ok?
    then s.(table := InsertedAll(s.table, rows).value, progress := s.progress[i := Progress(next, true)])
    else s.(progress := s.progress[i := s.progress[i].(running := false)])
  }

  function Gone(dispatches: seq<Dispatch>, s: System, i: nat, storeUp: bool, reply: Receipt): System
    requires |s.progress| == |dispatches| && i < |dispatches|
  {
    var dispatch := dispatches[i];
    match s.progress[i].stage
    case Unwritten => Write(s, i, storeUp, dispatch.Intent(), IntentStored)
    case IntentStored =>
      if dispatch.Blocked().Some? then
        var receipt := Receipt(RejectedBeforeSend, dispatch.Blocked().value, dispatch.at, 0, None);
        s.(progress := s.progress[i := Progress(Answered(receipt), true)])
      else Write(s, i, storeUp, dispatch.Started(), StartStored)
    case StartStored => s.(progress := s.progress[i := Progress(Calling, true)], sends := s.sends + [i])
    case Calling => s.(progress := s.progress[i := Progress(Answered(dispatch.Received(reply)), true)])
    case Answered(receipt) => Write(s, i, storeUp, dispatch.Result(receipt), Finished(receipt))
    case Finished(_) => s
  }

  function Next(dispatches: seq<Dispatch>, s: System, action: Action): System
    requires |s.progress| == |dispatches|
  {
    match action
    case GoOn(i, storeUp, reply) =>
      if i < |dispatches| && s.progress[i].running then Gone(dispatches, s, i, storeUp, reply) else s
    case Stop(i) => if i < |dispatches| then s.(progress := s.progress[i := s.progress[i].(running := false)]) else s
    case Other(batch) => s.(table := Committed(s.table, batch))
  }

  function After(dispatches: seq<Dispatch>, actions: seq<Action>): (s: System)
    ensures |s.progress| == |dispatches|
    decreases |actions|
  {
    if actions == [] then Start(dispatches)
    else Next(dispatches, After(dispatches, actions[..|actions| - 1]), actions[|actions| - 1])
  }

  // ----- One delivery run alone -------------------------------------------

  datatype DeliveryError = NotSent(error: StoreError) | ResultNotStored(error: StoreError, receipt: Receipt)

  /** An injected sink: it is called, and answers as it will. */
  class AlertSink {
    var calls: nat

    constructor ()
      ensures calls == 0
    {
      calls := 0;
    }

    method Send(answer: Receipt) returns (receipt: Receipt)
      modifies this
      ensures calls == old(calls) + 1 && receipt == answer
    {
      calls := calls + 1;
      receipt := answer;
    }
  }

  /** The protocol's own steps for a single delivery with the store up, `n` of them. */
  function Alone(dispatch: Dispatch, table: Table, reply: Receipt, n: nat): (s: System)
    ensures |s.progress| == 1
  {
    if n == 0 then System(table, [Progress(Unwritten, true)], [])
    else Next([dispatch], Alone(dispatch, table, reply, n - 1), GoOn(0, true, reply))
  }

  /** The procedure is the protocol: it leaves the table, and calls the sink, as five steps do. */
  method DeliverCandidate(store: ResearchEventStore, sink: AlertSink, dispatch: Dispatch, reply: Receipt)
    returns (r: Result<Receipt, DeliveryError>)
    modifies store.connection, sink
    ensures var s := Alone(dispatch, old(store.connection.rows), reply, 5);
      && store.connection.rows == s.table
      && sink.calls == old(sink.calls) + |s.sends|
      && (r.Ok? ==> s.progress[0].stage == Finished(r.value))
      && (r.Err? ==> !s.progress[0].stage.Finished?)
      && (r.Err? && r.error.ResultNotStored? ==> s.progress[0].stage == Answered(r.error.receipt))
    ensures !(r.Err? && r.error.NotSent?) ==>
      var d := dispatch;
      var receipt := if r.Ok? then r.value else r.error.receipt;
      if !d.expired && !(d.actionable && !d.mechanicallyValid) then
        && sink.calls == old(sink.calls) + 1
        && receipt ==
           if reply.at < d.at then Receipt(UnknownOutcome, "INVALID_RECEIPT_TIME", d.at, reply.attempts, None)
           else reply
      else
        && sink.calls == old(sink.calls)
        && receipt == Receipt(RejectedBeforeSend, if d.expired then "EXPIRED" else "INVALID_SETUP", d.at, 0, None)
    ensures r.Err? && r.error.NotSent? ==> sink.calls == old(sink.calls)
  {
    hide InsertedAll, IntentRows, ResultRows;
    ghost var table := store.connection.rows;
    assert Alone(dispatch, table, reply, 1) == Next([dispatch], Alone(dispatch, table, reply, 0), GoOn(0, true, reply));
    assert Alone(dispatch, table, reply, 3) == Next([dispatch], Alone(dispatch, table, reply, 2), GoOn(0, true, reply));
    var refused := store.SaveIntent(
      dispatch.bundle, Some(dispatch.candidateId), true, true,
      Attempt(dispatch.id, dispatch.candidateId, dispatch.at, "PENDING", None), dispatch.text, dispatch.session);
    if refused.Some? {
      return Err(NotSent(refused.value));
    }
    var receipt;
    if dispatch.Blocked().Some? {
      receipt := Receipt(RejectedBeforeSend, dispatch.Blocked().value, dispatch.at, 0, None);
    } else {
      refused := store.SaveResult(
        Attempt(dispatch.id + ":started", dispatch.candidateId, dispatch.at, "SEND_STARTED", None),
        "SINK_STARTED", 0, dispatch.session);
      if refused.Some? {
        return Err(NotSent(refused.value));
      }
      receipt := sink.Send(reply);
      if receipt.at < dispatch.at {
        receipt := Receipt(UnknownOutcome, "INVALID_RECEIPT_TIME", dispatch.at, receipt.attempts, None);
      }
    }
    refused := store.SaveResult(
      Attempt(dispatch.id + ":result", dispatch.candidateId, receipt.at, receipt.status.Name(), receipt.reference),
      receipt.reason, receipt.attempts, dispatch.session);
    if refused.Some? {
      return Err(ResultNotStored(refused.value, receipt));
    }
    return Ok(receipt);
  }

  // ----- The invariant ----------------------------------------------------

  predicate Stored(table: Table, rows: seq<Row>) {
    forall row | row in rows :: row.id in table && SameFacts(table[row.id], row)
  }

  function IntentId(id: string): string { "m51:intent:" + id }

  function StartedId(id: string): string { "m51:result:" + (id + ":started") }

  function ResultId(id: string): string { "m51:result:" + (id + ":result") }

  /** Whether a delivery called its sink to reach this stage. */
  predicate HasSent(dispatch: Dispatch, stage: Stage) {
    stage.Calling? || ((stage.Answered? || stage.Finished?) && dispatch.Blocked().None?)
  }

  /** What one delivery's stage says of the store. */
  predicate Kept(table: Table, dispatch: Dispatch, stage: Stage) {
    && (!stage.Unwritten? ==> IntentId(dispatch.id) in table)
    && (stage.StartStored? || HasSent(dispatch, stage) ==>
        Stored(table, dispatch.Started()) && dispatch.Blocked().None?)
    && (stage.Finished? ==> Stored(table, dispatch.Result(stage.receipt)))
    && ((stage.Answered? || stage.Finished?) && dispatch.Blocked().Some? ==>
        stage.receipt == Receipt(RejectedBeforeSend, dispatch.Blocked().value, dispatch.at, 0, None))
  }

  /** Which delivery wrote a stored delivery envelope. */
  predicate WrittenBy(dispatch: Dispatch, stage: Stage, row: Row) {
    || ((stage.StartStored? || HasSent(dispatch, stage)) && SameFacts(row, dispatch.Started()[1]))
    || (stage.Finished? && SameFacts(row, dispatch.Result(stage.receipt)[1]))
  }

  predicate AllKept(dispatches: seq<Dispatch>, table: Table, progress: seq<Progress>)
    requires |progress| == |dispatches|
  {
    forall i | 0 <= i < |dispatches| :: Kept(table, dispatches[i], progress[i].stage)
  }

  /** No two dispatches with one identifier ever both store their intent. */
  predicate OneIntentEach(dispatches: seq<Dispatch>, progress: seq<Progress>)
    requires |progress| == |dispatches|
  {
    forall i, j | 0 <= i < j < |dispatches| && !progress[i].stage.Unwritten? && !progress[j].stage.Unwritten? ::
      dispatches[i].id != dispatches[j].id
  }

  /** The sends logged are one for each dispatch whose stage says it called its sink. */
  predicate SendsMatch(dispatches: seq<Dispatch>, progress: seq<Progress>, sends: seq<nat>)
    requires |progress| == |dispatches|
  {
    && (forall k | 0 <= k < |sends| ::
         sends[k] < |dispatches| && HasSent(dispatches[sends[k]], progress[sends[k]].stage))
    && (forall i | 0 <= i < |dispatches| && HasSent(dispatches[i], progress[i].stage) :: i in sends)
    && (forall k, m | 0 <= k < m < |sends| :: sends[k] != sends[m])
  }

  predicate AllWritten(dispatches: seq<Dispatch>, table: Table, progress: seq<Progress>)
    requires |progress| == |dispatches|
  {
    forall id | id in table && table[id].kind == DeliveryResult ::
      exists i :: 0 <= i < |dispatches| && WrittenBy(dispatches[i], progress[i].stage, table[id])
  }

  predicate InOrder(dispatches: seq<Dispatch>, s: System) {
    && |s.progress| == |dispatches|
    && Consistent(s.table)
    && AllKept(dispatches, s.table, s.progress)
    && OneIntentEach(dispatches, s.progress)
    && SendsMatch(dispatches, s.progress, s.sends)
    && AllWritten(dispatches, s.table, s.progress)
  }

  // ----- Each step keeps it -----------------------------------------------

  /** A stage that only goes forward keeps what it wrote. */
  predicate Forward(dispatch: Dispatch, from: Stage, to: Stage) {
    || from == to
    || (from.Unwritten? && to.IntentStored?)
    || (from.IntentStored? && to.StartStored? && dispatch.Blocked().None?)
    || (from.IntentStored? && to.Answered? && dispatch.Blocked().Some?)
    || (from.StartStored? && to.Calling?)
    || (from.Calling? && to.Answered? && dispatch.Blocked().None?)
    || (from.Answered? && to == Finished(from.receipt))
  }

  lemma KeptInLaterTable(table: Table, later: Table, dispatch: Dispatch, stage: Stage)
    requires Kept(table, dispatch, stage) && Extends(table, later)
    ensures Kept(later, dispatch, stage)
  {
    hide ResultRows, SameFacts;
  }

  lemma WrittenStays(dispatch: Dispatch, from: Stage, to: Stage, row: Row)
    requires Forward(dispatch, from, to) && WrittenBy(dispatch, from, row)
    ensures WrittenBy(dispatch, to, row)
  {
    hide ResultRows, SameFacts;
  }

  /** One dispatch moves on and the table grows: what the other dispatches keep needs no look. */
  lemma MoveKeeps(dispatches: seq<Dispatch>, s: System, i: nat, next: Progress, table: Table)
    requires InOrder(dispatches, s) && i < |dispatches|
    requires Forward(dispatches[i], s.progress[i].stage, next.stage)
    requires Consistent(table) && Extends(s.table, table)
    requires Kept(table, dispatches[i], next.stage)
    requires s.progress[i].stage.Unwritten? && !next.stage.Unwritten? ==> IntentId(dispatches[i].id) !in s.table
    requires forall id | id in table && id !in s.table && table[id].kind == DeliveryResult ::
      WrittenBy(dispatches[i], next.stage, table[id])
    ensures var progress := s.progress[i := next];
      && AllKept(dispatches, table, progress) && OneIntentEach(dispatches, progress)
      && AllWritten(dispatches, table, progress)
  {
    assert next.stage.Unwritten? ==> s.progress[i].stage.Unwritten?;
    hide Forward, WrittenBy, Consistent;
    var progress := s.progress[i := next];
    forall j | 0 <= j < |dispatches| ensures Kept(table, dispatches[j], progress[j].stage) {
      if j != i { KeptInLaterTable(s.table, table, dispatches[j], s.progress[j].stage); }
    }
    forall id | id in table && table[id].kind == DeliveryResult
      ensures exists j :: 0 <= j < |dispatches| && WrittenBy(dispatches[j], progress[j].stage, table[id])
    {
      if id in s.table {
        var j :| 0 <= j < |dispatches| && WrittenBy(dispatches[j], s.progress[j].stage, s.table[id]);
        if j == i { WrittenStays(dispatches[i], s.progress[i].stage, next.stage, table[id]); }
        assert WrittenBy(dispatches[j], progress[j].stage, table[id]);
      } else {
        assert WrittenBy(dispatches[i], progress[i].stage, table[id]);
      }
    }
    hide AllWritten, AllKept;
    IntentsStayDistinct(dispatches, s, i, next);
  }

  lemma IntentsStayDistinct(dispatches: seq<Dispatch>, s: System, i: nat, next: Progress)
    requires |s.progress| == |dispatches| && i < |dispatches|
    requires AllKept(dispatches, s.table, s.progress) && OneIntentEach(dispatches, s.progress)
    requires s.progress[i].stage.Unwritten? && !next.stage.Unwritten? ==> IntentId(dispatches[i].id) !in s.table
    requires next.stage.Unwritten? ==> s.progress[i].stage.Unwritten?
    ensures OneIntentEach(dispatches, s.progress[i := next])
  {
    forall j | 0 <= j < |dispatches| && j != i && !s.progress[j].stage.Unwritten?
      ensures s.progress[i].stage.Unwritten? && !next.stage.Unwritten? ==> dispatches[j].id != dispatches[i].id
    {
      assert Kept(s.table, dispatches[j], s.progress[j].stage);
    }
  }

  lemma SendsStay(dispatches: seq<Dispatch>, s: System, i: nat, next: Progress)
    requires |s.progress| == |dispatches| && i < |dispatches|
    requires SendsMatch(dispatches, s.progress, s.sends)
    requires HasSent(dispatches[i], next.stage) <==> HasSent(dispatches[i], s.progress[i].stage)
    ensures SendsMatch(dispatches, s.progress[i := next], s.sends)
  {
    hide HasSent;
  }

  lemma SendIsNew(dispatches: seq<Dispatch>, s: System, i: nat, next: Progress)
    requires |s.progress| == |dispatches| && i < |dispatches|
    requires SendsMatch(dispatches, s.progress, s.sends)
    requires HasSent(dispatches[i], next.stage) && !HasSent(dispatches[i], s.progress[i].stage)
    ensures SendsMatch(dispatches, s.progress[i := next], s.sends + [i])
  {
    hide HasSent;
    var sends := s.sends + [i];
    assert sends[|s.sends|] == i;
    forall j | 0 <= j < |dispatches| && HasSent(dispatches[j], s.progress[i := next][j].stage) ensures j in sends {
      if j != i { assert j in s.sends; }
    }
  }

  /** A stored intent's identifier was free: the trigger refuses a second one, whatever it says. */
  lemma IntentWasNew(table: Table, dispatch: Dispatch)
    requires Consistent(table) && InsertedAll(table, dispatch.Intent()).Ok?
    ensures IntentId(dispatch.id) !in table
  {
    var rows := dispatch.Intent();
    var n := |rows| - 1;
    hide Consistent;
    InsertAllKeeps(table, rows[..n]);
  }

  lemma EnvelopesAreNamed(dispatch: Dispatch, receipt: Receipt)
    requires dispatch.Valid()
    ensures dispatch.Started()[1].id == StartedId(dispatch.id)
    ensures dispatch.Result(receipt)[1].id == ResultId(dispatch.id)
    ensures dispatch.Started()[0].kind != DeliveryResult && dispatch.Result(receipt)[0].kind != DeliveryResult
    ensures forall row | row in dispatch.Intent() :: row.kind != DeliveryResult
    ensures |dispatch.Started()| == |dispatch.Result(receipt)| == 2
    ensures var rows := dispatch.Intent(); rows != [] && rows[|rows| - 1].id == IntentId(dispatch.id)
  {
  }

  /** The rows that take a dispatch from one stage to the next. */
  predicate Writes(dispatch: Dispatch, stage: Stage, rows: seq<Row>, next: Stage) {
    match stage
    case Unwritten => rows == dispatch.Intent() && next == IntentStored
    case IntentStored => dispatch.Blocked().None? && rows == dispatch.Started() && next == StartStored
    case Answered(receipt) => rows == dispatch.Result(receipt) && next == Finished(receipt)
    case _ => false
  }

  lemma WritesForward(dispatch: Dispatch, stage: Stage, rows: seq<Row>, next: Stage)
    requires Writes(dispatch, stage, rows, next)
    ensures Forward(dispatch, stage, next) && (HasSent(dispatch, next) <==> HasSent(dispatch, stage))
  {
  }

  lemma WritesItsOwn(dispatch: Dispatch, stage: Stage, rows: seq<Row>, next: Stage)
    requires dispatch.Valid() && Writes(dispatch, stage, rows, next)
    ensures forall row | row in rows && row.kind == DeliveryResult :: WrittenBy(dispatch, next, row)
  {
    hide IntentRows, ResultRows, StartedId, ResultId, IntentId, SameFacts;
    EnvelopesAreNamed(dispatch, if stage.Answered? then stage.receipt else Receipt(UnknownOutcome, "", 0, 0, None));
    forall row | row in rows && row.kind == DeliveryResult ensures WrittenBy(dispatch, next, row) {
      assert row == rows[1];
      SameFactsTurn(row, row);
    }
  }

  lemma WritesKeep(dispatch: Dispatch, stage: Stage, rows: seq<Row>, next: Stage, table: Table)
    requires dispatch.Valid() && Writes(dispatch, stage, rows, next)
    requires Kept(table, dispatch, stage) && Stored(table, rows)
    ensures Kept(table, dispatch, next)
  {
    hide ResultRows, SameFacts, IntentRows, StartedId, ResultId, IntentId;
    if stage.Unwritten? {
      EnvelopesAreNamed(dispatch, Receipt(UnknownOutcome, "", 0, 0, None));
      assert rows[|rows| - 1] in rows;
    }
  }

  /** The three writes, each against the stage it reaches. */
  lemma WriteKeeps(dispatches: seq<Dispatch>, s: System, i: nat, rows: seq<Row>, next: Stage)
    requires InOrder(dispatches, s) && i < |dispatches| && dispatches[i].Valid()
    requires InsertedAll(s.table, rows).Ok? && Writes(dispatches[i], s.progress[i].stage, rows, next)
    ensures InOrder(dispatches, Write(s, i, true, rows, next))
  {
    var dispatch := dispatches[i];
    var stage := s.progress[i].stage;
    var table := InsertedAll(s.table, rows).value;
    InsertAllKeeps(s.table, rows);
    InsertAllAddsOnly(s.table, rows);
    if stage.Unwritten? { IntentWasNew(s.table, dispatch); }
    assert Kept(s.table, dispatch, stage);
    WritesForward(dispatch, stage, rows, next);
    WritesItsOwn(dispatch, stage, rows, next);
    hide InsertedAll, Consistent, OneIntentEach, AllWritten, AllKept, SendsMatch, Kept, Forward, WrittenBy, HasSent;
    KeptInLaterTable(s.table, table, dispatch, stage);
    WritesKeep(dispatch, stage, rows, next, table);
    MoveKeeps(dispatches, s, i, Progress(next, true), table);
    SendsStay(dispatches, s, i, Progress(next, true));
  }

  /** A step that writes nothing. */
  lemma QuietStepKeeps(dispatches: seq<Dispatch>, s: System, i: nat, next: Progress)
    requires InOrder(dispatches, s) && i < |dispatches|
    requires Forward(dispatches[i], s.progress[i].stage, next.stage)
    requires next.stage == s.progress[i].stage || next.stage.Calling? || next.stage.Answered?
    requires next.stage.Answered? && dispatches[i].Blocked().Some? ==>
      next.stage.receipt == Receipt(RejectedBeforeSend, dispatches[i].Blocked().value, dispatches[i].at, 0, None)
    ensures var sent := HasSent(dispatches[i], next.stage) && !HasSent(dispatches[i], s.progress[i].stage);
      InOrder(dispatches, s.(progress := s.progress[i := next], sends := if sent then s.sends + [i] else s.sends))
  {
    assert Kept(s.table, dispatches[i], s.progress[i].stage);
    QuietMoveIsKept(s.table, dispatches[i], s.progress[i].stage, next.stage);
    ExtendsSelf(s.table);
    hide Consistent, OneIntentEach, AllWritten, AllKept, SendsMatch, Kept, Forward, WrittenBy, Extends;
    MoveKeeps(dispatches, s, i, next, s.table);
    if HasSent(dispatches[i], next.stage) && !HasSent(dispatches[i], s.progress[i].stage) {
      SendIsNew(dispatches, s, i, next);
    } else {
      SendsStay(dispatches, s, i, next);
    }
  }

  lemma QuietMoveIsKept(table: Table, dispatch: Dispatch, from: Stage, to: Stage)
    requires Kept(table, dispatch, from) && Forward(dispatch, from, to)
    requires to == from || to.Calling? || to.Answered?
    requires to.Answered? && dispatch.Blocked().Some? ==>
      to.receipt == Receipt(RejectedBeforeSend, dispatch.Blocked().value, dispatch.at, 0, None)
    ensures Kept(table, dispatch, to)
    ensures HasSent(dispatch, from) ==> HasSent(dispatch, to)
    ensures from.Unwritten? ==> to.Unwritten?
  {
    hide ResultRows, IntentRows, Stored;
  }

  lemma StepKeeps(dispatches: seq<Dispatch>, s: System, action: Action)
    requires InOrder(dispatches, s) && ValidAction(action)
    requires forall dispatch | dispatch in dispatches :: dispatch.Valid()
    ensures InOrder(dispatches, Next(dispatches, s, action))
  {
    hide Consistent, OneIntentEach, AllWritten, SendsMatch, InsertedAll;
    match action
    case Other(batch) => OtherKeeps(dispatches, s, batch);
    case Stop(i) =>
      if i < |dispatches| {
        assert Kept(s.table, dispatches[i], s.progress[i].stage);
        QuietStepKeeps(dispatches, s, i, s.progress[i].(running := false));
      }
    case GoOn(i, storeUp, reply) =>
      if i < |dispatches| && s.progress[i].running {
        GoingOnKeeps(dispatches, s, i, storeUp, reply);
      }
  }

  lemma OtherKeeps(dispatches: seq<Dispatch>, s: System, batch: seq<Row>)
    requires InOrder(dispatches, s)
    requires forall row | row in batch :: row.kind !in {DeliveryIntent, DeliveryResult}
    ensures InOrder(dispatches, s.(table := Committed(s.table, batch)))
  {
    var table := Committed(s.table, batch);
    CommitKeeps(s.table, batch);
    if InsertedAll(s.table, batch).Ok? { InsertAllAddsOnly(s.table, batch); }
    hide Consistent, Kept, WrittenBy, InsertedAll;
    forall j | 0 <= j < |dispatches| ensures Kept(table, dispatches[j], s.progress[j].stage) {
      KeptInLaterTable(s.table, table, dispatches[j], s.progress[j].stage);
    }
    assert forall id | id in table && table[id].kind == DeliveryResult :: id in s.table && table[id] == s.table[id];
  }

  /** Where a dispatch stands, the rows it writes next, and the stage that takes it to. */
  lemma AttemptedWriteKeeps(dispatches: seq<Dispatch>, s: System, i: nat, storeUp: bool, rows: seq<Row>, next: Stage)
    requires InOrder(dispatches, s) && i < |dispatches| && dispatches[i].Valid()
    requires Writes(dispatches[i], s.progress[i].stage, rows, next)
    ensures InOrder(dispatches, Write(s, i, storeUp, rows, next))
  {
    assert |s.progress| == |dispatches|;
    hide InOrder, InsertedAll, Writes;
    if storeUp && InsertedAll(s.table, rows).Ok? {
      WriteKeeps(dispatches, s, i, rows, next);
    } else {
      QuietStepKeeps(dispatches, s, i, s.progress[i].(running := false));
    }
  }

  lemma GoingOnKeeps(dispatches: seq<Dispatch>, s: System, i: nat, storeUp: bool, reply: Receipt)
    requires InOrder(dispatches, s) && i < |dispatches| && dispatches[i].Valid()
    ensures InOrder(dispatches, Gone(dispatches, s, i, storeUp, reply))
  {
    var dispatch := dispatches[i];
    match s.progress[i].stage
    case Unwritten => WritesNext(dispatches, s, i, storeUp, reply, dispatch.Intent(), IntentStored);
    case IntentStored =>
      if dispatch.Blocked().Some? {
        QuietNext(dispatches, s, i, storeUp, reply);
      } else {
        WritesNext(dispatches, s, i, storeUp, reply, dispatch.Started(), StartStored);
      }
    case StartStored => QuietNext(dispatches, s, i, storeUp, reply);
    case Calling => QuietNext(dispatches, s, i, storeUp, reply);
    case Answered(receipt) => WritesNext(dispatches, s, i, storeUp, reply, dispatch.Result(receipt), Finished(receipt));
    case Finished(_) =>
  }

  lemma WritesNext(
      dispatches: seq<Dispatch>, s: System, i: nat, storeUp: bool, reply: Receipt, rows: seq<Row>, next: Stage)
    requires InOrder(dispatches, s) && i < |dispatches| && dispatches[i].Valid()
    requires Writes(dispatches[i], s.progress[i].stage, rows, next)
    ensures InOrder(dispatches, Gone(dispatches, s, i, storeUp, reply))
  {
    hide InOrder, Write, IntentRows, ResultRows;
    AttemptedWriteKeeps(dispatches, s, i, storeUp, rows, next);
  }

  lemma QuietNext(dispatches: seq<Dispatch>, s: System, i: nat, storeUp: bool, reply: Receipt)
    requires InOrder(dispatches, s) && i < |dispatches|
    requires var stage := s.progress[i].stage;
      stage.StartStored? || stage.Calling? || (stage.IntentStored? && dispatches[i].Blocked().Some?)
    ensures InOrder(dispatches, Gone(dispatches, s, i, storeUp, reply))
  {
    assert Kept(s.table, dispatches[i], s.progress[i].stage);
    var dispatch := dispatches[i];
    hide InOrder, Write, IntentRows, ResultRows;
    match s.progress[i].stage
    case IntentStored =>
      var receipt := Receipt(RejectedBeforeSend, dispatch.Blocked().value, dispatch.at, 0, None);
      QuietStepKeeps(dispatches, s, i, Progress(Answered(receipt), true));
    case StartStored => QuietStepKeeps(dispatches, s, i, Progress(Calling, true));
    case Calling => QuietStepKeeps(dispatches, s, i, Progress(Answered(dispatch.Received(reply)), true));
  }

  lemma {:induction false} EveryScheduleIsInOrder(dispatches: seq<Dispatch>, actions: seq<Action>)
    requires forall dispatch | dispatch in dispatches :: dispatch.Valid()
    requires forall action | action in actions :: ValidAction(action)
    ensures InOrder(dispatches, After(dispatches, actions))
    decreases |actions|
  {
    if actions == [] {
    } else {
      hide InOrder, Next;
      EveryScheduleIsInOrder(dispatches, actions[..|actions| - 1]);
      StepKeeps(dispatches, After(dispatches, actions[..|actions| - 1]), actions[|actions| - 1]);
    }
  }

  // ----- What the protocol promises ---------------------------------------

  predicate ValidRun(dispatches: seq<Dispatch>, actions: seq<Action>) {
    && (forall dispatch | dispatch in dispatches :: dispatch.Valid())
    && (forall action | action in actions :: ValidAction(action))
  }

  /** Whether a sink was called for a delivery identifier. */
  predicate SentFor(dispatches: seq<Dispatch>, s: System, id: string) {
    exists k :: 0 <= k < |s.sends| && s.sends[k] < |dispatches| && dispatches[s.sends[k]].id == id
  }

  /** However deliveries, stops, storage failures and other writers interleave: no two sends are
      for one identifier, and every one sent for keeps its intent and its start stored. */
  lemma AtMostOneSend(dispatches: seq<Dispatch>, actions: seq<Action>)
    requires ValidRun(dispatches, actions)
    ensures var s := After(dispatches, actions);
      && (forall k | 0 <= k < |s.sends| :: s.sends[k] < |dispatches|)
      && (forall k, m | 0 <= k < m < |s.sends| :: dispatches[s.sends[k]].id != dispatches[s.sends[m]].id)
      && (forall k | 0 <= k < |s.sends| ::
           IntentId(dispatches[s.sends[k]].id) in s.table && Stored(s.table, dispatches[s.sends[k]].Started()))
  {
    EveryScheduleIsInOrder(dispatches, actions);
    var s := After(dispatches, actions);
    hide After, Consistent, AllWritten, Stored;
    forall k | 0 <= k < |s.sends|
      ensures Kept(s.table, dispatches[s.sends[k]], s.progress[s.sends[k]].stage)
      ensures !s.progress[s.sends[k]].stage.Unwritten?
    {
    }
  }

  /** When a step calls a sink, the intent and the start are stored already. */
  lemma StoredBeforeSent(dispatches: seq<Dispatch>, actions: seq<Action>, action: Action)
    requires ValidRun(dispatches, actions)
    ensures var s := After(dispatches, actions);
      var sends := Next(dispatches, s, action).sends;
      sends != s.sends ==>
        && action.GoOn? && action.i < |dispatches| && sends == s.sends + [action.i]
        && IntentId(dispatches[action.i].id) in s.table && Stored(s.table, dispatches[action.i].Started())
  {
    hide After, Stored, InOrder, Kept, IntentRows, ResultRows;
    EveryScheduleIsInOrder(dispatches, actions);
    var s := After(dispatches, actions);
    SendingStep(dispatches, s, action);
    if Next(dispatches, s, action).sends != s.sends {
      KeptAt(dispatches, s, action.i);
    }
  }

  lemma SendingStep(dispatches: seq<Dispatch>, s: System, action: Action)
    requires |s.progress| == |dispatches|
    ensures var sends := Next(dispatches, s, action).sends;
      sends != s.sends ==>
        && action.GoOn? && action.i < |dispatches| && sends == s.sends + [action.i]
        && s.progress[action.i].stage.StartStored?
  {
    hide InsertedAll, IntentRows, ResultRows;
  }

  lemma KeptAt(dispatches: seq<Dispatch>, s: System, i: nat)
    requires InOrder(dispatches, s) && i < |dispatches| && s.progress[i].stage.StartStored?
    ensures IntentId(dispatches[i].id) in s.table && Stored(s.table, dispatches[i].Started())
  {
    hide Stored;
    assert Kept(s.table, dispatches[i], s.progress[i].stage);
  }

  lemma NamesAreApart(a: string, b: string)
    ensures StartedId(a) != ResultId(b)
    ensures ResultId(a) == ResultId(b) ==> a == b
    ensures StartedId(a) == StartedId(b) ==> a == b
  {
    var prefix := "m51:result:";
    assert StartedId(a)[|StartedId(a)| - 1] == 'd' && ResultId(b)[|ResultId(b)| - 1] == 't';
    assert ResultId(a)[|prefix|..|ResultId(a)| - 7] == a && ResultId(b)[|prefix|..|ResultId(b)| - 7] == b;
    assert StartedId(a)[|prefix|..|StartedId(a)| - 8] == a && StartedId(b)[|prefix|..|StartedId(b)| - 8] == b;
  }

  /** The one dispatch that can have written a delivery envelope of this identifier. */
  lemma EnvelopeWriter(dispatches: seq<Dispatch>, s: System, id: string, rowId: string) returns (i: nat)
    requires InOrder(dispatches, s) && (forall dispatch | dispatch in dispatches :: dispatch.Valid())
    requires rowId in {StartedId(id), ResultId(id)} && rowId in s.table && s.table[rowId].kind == DeliveryResult
    ensures i < |dispatches| && dispatches[i].id == id && !s.progress[i].stage.Unwritten?
    ensures Kept(s.table, dispatches[i], s.progress[i].stage)
    ensures rowId == StartedId(id) ==> s.progress[i].stage.StartStored? || HasSent(dispatches[i], s.progress[i].stage)
    ensures rowId == ResultId(id) ==> s.progress[i].stage.Finished?
    ensures rowId == ResultId(id) ==> SameFacts(s.table[rowId], dispatches[i].Result(s.progress[i].stage.receipt)[1])
  {
    var row := s.table[rowId];
    assert row.id == rowId;
    var j :| 0 <= j < |dispatches| && WrittenBy(dispatches[j], s.progress[j].stage, row);
    i := j;
    assert Kept(s.table, dispatches[i], s.progress[i].stage);
    hide InOrder, Kept, AllKept, Consistent, WrittenBy, StartedId, ResultId, HasSent;
    EnvelopeIsNamed(dispatches[i], s.progress[i].stage, row);
    NamesAreApart(dispatches[i].id, id);
    NamesAreApart(id, dispatches[i].id);
  }

  lemma EnvelopeIsNamed(dispatch: Dispatch, stage: Stage, row: Row)
    requires dispatch.Valid() && WrittenBy(dispatch, stage, row)
    ensures !stage.Unwritten?
    ensures || (row.id == StartedId(dispatch.id) && (stage.StartStored? || HasSent(dispatch, stage)))
            || (row.id == ResultId(dispatch.id) && stage.Finished? && SameFacts(row, dispatch.Result(stage.receipt)[1]))
  {
    EnvelopesAreNamed(dispatch, if stage.Finished? then stage.receipt else Receipt(UnknownOutcome, "", 0, 0, None));
    hide ResultRows, IntentRows, StartedId, ResultId;
  }

  lemma SentWithin(dispatches: seq<Dispatch>, s: System, i: nat)
    requires InOrder(dispatches, s) && i < |dispatches| && !s.progress[i].stage.Unwritten?
    ensures SentFor(dispatches, s, dispatches[i].id) <==> HasSent(dispatches[i], s.progress[i].stage)
  {
    hide Consistent, AllWritten, Kept, AllKept;
    if HasSent(dispatches[i], s.progress[i].stage) {
      var k :| 0 <= k < |s.sends| && s.sends[k] == i;
    }
    if SentFor(dispatches, s, dispatches[i].id) {
      var k :| 0 <= k < |s.sends| && dispatches[s.sends[k]].id == dispatches[i].id;
      var j := s.sends[k];
      assert !s.progress[j].stage.Unwritten?;
      assert j == i;
    }
  }

  predicate ResultStored(s: System, id: string) {
    ResultId(id) in s.table && s.table[ResultId(id)].kind == DeliveryResult
  }

  predicate StartIsStored(s: System, id: string) {
    StartedId(id) in s.table && s.table[StartedId(id)].kind == DeliveryResult
  }

  /** What a stored result row says, given the receipt it was written from. */
  lemma ResultSays(dispatch: Dispatch, receipt: Receipt, s: System, id: string)
    requires ResultStored(s, id) && SameFacts(s.table[ResultId(id)], dispatch.Result(receipt)[1])
    ensures ResultStatus(s, id) == receipt.status.Name() && ResultReason(s, id) == receipt.reason
  {
  }

  lemma StartedIsStored(dispatch: Dispatch, s: System)
    requires Stored(s.table, dispatch.Started())
    ensures StartIsStored(s, dispatch.id)
  {
    assert dispatch.Started()[1] in dispatch.Started();
  }

  /** A stored result was sent for exactly when its start is stored too, and a stored
      confirmation always was: once, by `AtMostOneSend`. */
  lemma SentIffStarted(dispatches: seq<Dispatch>, actions: seq<Action>, id: string)
    requires ValidRun(dispatches, actions) && ResultStored(After(dispatches, actions), id)
    ensures var s := After(dispatches, actions);
      && (SentFor(dispatches, s, id) <==> StartIsStored(s, id))
      && (ResultStatus(s, id) == "CONFIRMED_DELIVERED" ==> SentFor(dispatches, s, id))
  {
    hide After, InOrder, ResultRows, SentFor, StartIsStored, ResultStatus, Stored, SameFacts, Kept, StartedId, ResultId;
    EveryScheduleIsInOrder(dispatches, actions);
    var s := After(dispatches, actions);
    var i := EnvelopeWriter(dispatches, s, id, ResultId(id));
    SentWithin(dispatches, s, i);
    ResultSays(dispatches[i], s.progress[i].stage.receipt, s, id);
    FinishedIsKept(s.table, dispatches[i], s.progress[i].stage);
    if StartIsStored(s, id) {
      assert StartedId(id) in s.table && s.table[StartedId(id)].kind == DeliveryResult by { StartIsRow(s, id); }
      var j := EnvelopeWriter(dispatches, s, id, StartedId(id));
      SameDispatch(dispatches, s, i, j);
    }
    if SentFor(dispatches, s, id) {
      StartedIsStored(dispatches[i], s);
    }
  }

  lemma StartIsRow(s: System, id: string)
    requires StartIsStored(s, id)
    ensures StartedId(id) in s.table && s.table[StartedId(id)].kind == DeliveryResult
  {
  }

  lemma FinishedIsKept(table: Table, dispatch: Dispatch, stage: Stage)
    requires Kept(table, dispatch, stage) && stage.Finished?
    ensures HasSent(dispatch, stage) ==> Stored(table, dispatch.Started())
    ensures !HasSent(dispatch, stage) ==> dispatch.Blocked().Some? && stage.receipt.status.RejectedBeforeSend?
  {
  }

  lemma SameDispatch(dispatches: seq<Dispatch>, s: System, i: nat, j: nat)
    requires InOrder(dispatches, s) && i < |dispatches| && j < |dispatches| && dispatches[i].id == dispatches[j].id
    requires !s.progress[i].stage.Unwritten? && !s.progress[j].stage.Unwritten?
    ensures i == j
  {
  }

  function ResultStatus(s: System, id: string): string
    requires ResultStored(s, id)
  {
    match s.table[ResultId(id)].body.facts case Sending(status, _, _, _, _) => status case Text(_) => ""
  }

  function ResultReason(s: System, id: string): string
    requires ResultStored(s, id)
  {
    match s.table[ResultId(id)].body.facts case Sending(_, reason, _, _, _) => reason case Text(_) => ""
  }

  /** The dispatch that stored the result of a delivery identifier. */
  predicate Wrote(dispatches: seq<Dispatch>, s: System, i: nat, id: string)
    requires |s.progress| == |dispatches| && i < |dispatches|
  {
    dispatches[i].id == id && s.progress[i].stage.Finished?
  }

  /** A result is stored by one dispatch of its identifier, and was sent for exactly when that
      dispatch was not blocked: when it was neither expired nor an actionable setup gone invalid. */
  lemma SentIffUnblocked(dispatches: seq<Dispatch>, actions: seq<Action>, id: string)
    requires ValidRun(dispatches, actions) && ResultStored(After(dispatches, actions), id)
    ensures var s := After(dispatches, actions);
      && (exists i :: 0 <= i < |dispatches| && Wrote(dispatches, s, i, id))
      && (forall i, j | 0 <= i < |dispatches| && 0 <= j < |dispatches| ::
           Wrote(dispatches, s, i, id) && Wrote(dispatches, s, j, id) ==> i == j)
      && (forall i | 0 <= i < |dispatches| && Wrote(dispatches, s, i, id) ::
           var d := dispatches[i];
           && (SentFor(dispatches, s, id) <==> !d.expired && !(d.actionable && !d.mechanicallyValid))
           && (!SentFor(dispatches, s, id) ==>
               && ResultReason(s, id) == (if d.expired then "EXPIRED" else "INVALID_SETUP")
               && ResultStatus(s, id) == "REJECTED_BEFORE_SEND"))
  {
    hide After, InOrder, ResultRows, SentFor, ResultStatus, ResultReason, SameFacts, Kept, ResultId;
    EveryScheduleIsInOrder(dispatches, actions);
    var s := After(dispatches, actions);
    var i := EnvelopeWriter(dispatches, s, id, ResultId(id));
    SentWithin(dispatches, s, i);
    ResultSays(dispatches[i], s.progress[i].stage.receipt, s, id);
    FinishedIsBlocked(s.table, dispatches[i], s.progress[i].stage);
    forall j | 0 <= j < |dispatches| && Wrote(dispatches, s, j, id) ensures j == i {
      SameDispatch(dispatches, s, i, j);
    }
    assert Wrote(dispatches, s, i, id);
  }

  lemma FinishedIsBlocked(table: Table, dispatch: Dispatch, stage: Stage)
    requires Kept(table, dispatch, stage) && stage.Finished?
    ensures dispatch.Blocked().Some? ==>
      stage.receipt.reason == dispatch.Blocked().value && stage.receipt.status.Name() == "REJECTED_BEFORE_SEND"
  {
  }

  // ----- What a delivery's rows say ---------------------------------------

  /** A stored start says that sending started and nothing more. */
  lemma StartIsKept(table: Table, d: Dispatch)
    requires Consistent(table) && InsertedAll(table, d.Started()).Ok?
    ensures var after := InsertedAll(table, d.Started()).value;
      && Keeps(after, d.id + ":started", "DeliveryRecord", Delivery, d.session, d.candidateId,
           Sending("SEND_STARTED", "", d.at, 0, None))
      && Keeps(after, "m51:result:" + (d.id + ":started"), "DELIVERY_RESULT", DeliveryResult, d.session, d.candidateId,
           Sending("SEND_STARTED", "SINK_STARTED", d.at, 0, None))
  {
    hide InsertedAll, ResultRows, Keeps;
    ResultIsKept(
      table, Attempt(d.id + ":started", d.candidateId, d.at, "SEND_STARTED", None), "SINK_STARTED", 0, d.session);
  }

  /** A stored result says just what the receipt does. */
  lemma ReceiptIsKept(table: Table, d: Dispatch, receipt: Receipt)
    requires Consistent(table) && InsertedAll(table, d.Result(receipt)).Ok?
    ensures var after := InsertedAll(table, d.Result(receipt)).value;
      var status := match receipt.status
        case ConfirmedDelivered => "CONFIRMED_DELIVERED"
        case FailedSend => "FAILED"
        case UnknownOutcome => "UNKNOWN"
        case RejectedBeforeSend => "REJECTED_BEFORE_SEND";
      && Keeps(after, d.id + ":result", "DeliveryRecord", Delivery, d.session, d.candidateId,
           Sending(status, "", receipt.at, 0, receipt.reference))
      && Keeps(after, "m51:result:" + (d.id + ":result"), "DELIVERY_RESULT", DeliveryResult, d.session, d.candidateId,
           Sending(status, receipt.reason, receipt.at, receipt.attempts, receipt.reference))
  {
    hide InsertedAll, ResultRows, Keeps;
    ResultIsKept(
      table, Attempt(d.id + ":result", d.candidateId, receipt.at, receipt.status.Name(), receipt.reference),
      receipt.reason, receipt.attempts, d.session);
  }

  // ----- Reasons that stop a delivery before its sink ---------------------

  /** Some answer to dispatch `i` in this run gives a reason. */
  predicate Replied(actions: seq<Action>, i: nat, reason: string) {
    exists action :: action in actions && action.GoOn? && action.i == i && action.reply.reason == reason
  }

  predicate HasReceipt(stage: Stage) { stage.Answered? || stage.Finished? }

  lemma {:induction false} SentReasonsAreReplies(dispatches: seq<Dispatch>, actions: seq<Action>)
    ensures var s := After(dispatches, actions);
      forall i | 0 <= i < |dispatches| && dispatches[i].Blocked().None? && HasReceipt(s.progress[i].stage) ::
        var reason := s.progress[i].stage.receipt.reason;
        reason == "INVALID_RECEIPT_TIME" || Replied(actions, i, reason)
    decreases |actions|
  {
    if actions != [] {
      var before, action := actions[..|actions| - 1], actions[|actions| - 1];
      var s := After(dispatches, before);
      SentReasonsAreReplies(dispatches, before);
      hide After, Next, Replied;
      var next := Next(dispatches, s, action);
      forall i | 0 <= i < |dispatches| && dispatches[i].Blocked().None? && HasReceipt(next.progress[i].stage)
        ensures var reason := next.progress[i].stage.receipt.reason;
          reason == "INVALID_RECEIPT_TIME" || Replied(actions, i, reason)
      {
        ReceiptComesFrom(dispatches, s, action, i);
        RepliesRemain(actions, i, next.progress[i].stage.receipt.reason);
      }
    }
  }

  /** A receipt an unblocked dispatch has after a step, it had before or has from that step's reply. */
  lemma ReceiptComesFrom(dispatches: seq<Dispatch>, s: System, action: Action, i: nat)
    requires |s.progress| == |dispatches| && i < |dispatches| && dispatches[i].Blocked().None?
    requires HasReceipt(Next(dispatches, s, action).progress[i].stage)
    ensures var receipt := Next(dispatches, s, action).progress[i].stage.receipt;
      || (HasReceipt(s.progress[i].stage) && receipt == s.progress[i].stage.receipt)
      || (action.GoOn? && action.i == i && receipt == dispatches[i].Received(action.reply))
  {
    hide InsertedAll, IntentRows, ResultRows;
  }

  lemma RepliesRemain(actions: seq<Action>, i: nat, reason: string)
    requires actions != []
    ensures Replied(actions[..|actions| - 1], i, reason) ==> Replied(actions, i, reason)
    ensures var last := actions[|actions| - 1];
      last.GoOn? && last.i == i && last.reply.reason == reason ==> Replied(actions, i, reason)
  {
  }

  /** A stored stop reason means nothing was sent exactly when the dispatch that stored it was
      blocked; when it was not, the sink was called and gave that reason itself. */
  lemma StoppedMeansUnsent(dispatches: seq<Dispatch>, actions: seq<Action>, id: string)
    requires ValidRun(dispatches, actions)
    requires ResultStored(After(dispatches, actions), id)
    requires ResultReason(After(dispatches, actions), id) in {"EXPIRED", "INVALID_SETUP"}
    ensures var s := After(dispatches, actions);
      && (exists i :: 0 <= i < |dispatches| && Wrote(dispatches, s, i, id))
      && (forall i | 0 <= i < |dispatches| && Wrote(dispatches, s, i, id) ::
           var d := dispatches[i];
           && (!SentFor(dispatches, s, id) <==> d.expired || (d.actionable && !d.mechanicallyValid))
           && (!SentFor(dispatches, s, id) ==> (ResultReason(s, id) == "EXPIRED" <==> d.expired))
           && (SentFor(dispatches, s, id) ==> Replied(actions, i, ResultReason(s, id))))
  {
    SentIffUnblocked(dispatches, actions, id);
    EveryScheduleIsInOrder(dispatches, actions);
    SentReasonsAreReplies(dispatches, actions);
    var s := After(dispatches, actions);
    hide After, ResultReason, SentFor, Replied, ResultStored, InOrder;
    forall i | 0 <= i < |dispatches| && Wrote(dispatches, s, i, id) && SentFor(dispatches, s, id)
      ensures Replied(actions, i, ResultReason(s, id))
    {
      StopReasonWasReplied(dispatches, actions, s, id, i);
    }
  }

  lemma StopReasonWasReplied(dispatches: seq<Dispatch>, actions: seq<Action>, s: System, id: string, i: nat)
    requires InOrder(dispatches, s) && i < |dispatches|
    requires forall dispatch | dispatch in dispatches :: dispatch.Valid()
    requires ResultStored(s, id) && ResultReason(s, id) in {"EXPIRED", "INVALID_SETUP"} && Wrote(dispatches, s, i, id)
    requires var reason := s.progress[i].stage.receipt.reason;
      reason == "INVALID_RECEIPT_TIME" || Replied(actions, i, reason)
    ensures Replied(actions, i, ResultReason(s, id))
  {
    assert |s.progress| == |dispatches|;
    hide ResultRows, ResultReason, Replied, SameFacts, Kept, ResultId, InOrder;
    var j := EnvelopeWriter(dispatches, s, id, ResultId(id));
    SameDispatch(dispatches, s, i, j);
    ResultSays(dispatches[i], s.progress[i].stage.receipt, s, id);
  }

  // ----- A sink that claims expiry ----------------------------------------

  const SESSION_ROW := Row(
    "SESS", "SessionRecord", Configuration, "S", [], 5,
    Body(None, None, None, None, Some("H"), Some("1"), Some("S"), Text("session")))

  const FEATURE_ROW := Row(
    "FEA", "FeatureSnapshot", FeatureSnapshot, "S", [], 5,
    Body(Some("A"), Some("EQUITY"), Some("S"), None, None, None, None, Text("feature")))

  const CANDIDATE_ROW := Row(
    "CA", "AlertCandidate", Candidate, "S", [Link("FEA", FeatureLink), Link("SESS", ConfigLink)], 5,
    Body(Some("A"), Some("EQUITY"), Some("S"), None, Some("H"), Some("1"), None, Text("candidate")))

  const ASSEMBLY_ROW := Envelope(
    "m51:assembly:CA", "ASSEMBLY", Assembly, Text("assembly"), "S", 5, [Link("CA", CandidateLink)])

  /** What an assembly keeps with its candidate: the session, a feature, the candidate, itself. */
  const BUNDLE := [SESSION_ROW, FEATURE_ROW, CANDIDATE_ROW, ASSEMBLY_ROW]

  const SENDING := Dispatch("R", "CA", 5, "S", BUNDLE, "text", false, false, false)

  function AllRows(reply: Receipt): seq<Row> {
    SENDING.Intent() + (SENDING.Started() + SENDING.Result(reply))
  }

  /** A row that links, if at all, to the candidate alone, or is a row of the bundle. */
  predicate Linked(row: Row) {
    row in BUNDLE || (row.links == [Link("CA", CandidateLink)] && row.id !in {"CA", "FEA", "SESS"})
  }

  lemma LinkedRowsFit(a: Row, b: Row)
    requires Linked(a) && Linked(b)
    ensures Compatible(a, b)
  {
  }

  lemma RowsApart(reply: Receipt)
    ensures var all := AllRows(reply);
      && |all| == 10 && |SENDING.Intent()| == 6 && |SENDING.Started()| == 2
      && all[9] == SENDING.Result(reply)[1]
      && (forall i, j | 0 <= i < j < 10 :: all[i].id != all[j].id)
      && (forall i | 0 <= i < 10 :: Linked(all[i]))
  {
    var all := AllRows(reply);
    forall i | 0 <= i < 10
      ensures |all[i].id| == [4, 3, 2, 15, 1, 12, 9, 20, 8, 19][i]
      ensures i >= 3 ==> all[i].links == [Link("CA", CandidateLink)]
    {
    }
    assert all[0] == SESSION_ROW && all[1] == FEATURE_ROW && all[2] == CANDIDATE_ROW;
  }

  lemma ApartRowsAgree(rows: seq<Row>)
    requires forall i, j | 0 <= i < j < |rows| :: rows[i].id != rows[j].id
    requires forall i | 0 <= i < |rows| :: Linked(rows[i])
    ensures Agree(multiset(rows))
  {
    hide Linked, Compatible;
    forall a, b | a in multiset(rows) && b in multiset(rows)
      ensures Compatible(a, b) && (a.id == b.id ==> a == b)
    {
      LinkedRowsFit(a, b);
    }
    forall a | a in multiset(rows) ensures multiset(rows)[a] == 1 {
      OnceEach(rows, a);
    }
  }

  lemma {:induction false} OnceEach(rows: seq<Row>, a: Row)
    requires forall i, j | 0 <= i < j < |rows| :: rows[i].id != rows[j].id
    ensures multiset(rows)[a] <= 1
    decreases |rows|
  {
    if rows != [] {
      var n := |rows| - 1;
      OnceEach(rows[..n], a);
      assert rows == rows[..n] + [rows[n]];
      if rows[n] == a { assert a !in rows[..n]; }
    }
  }

  lemma AllGoIn(reply: Receipt) returns (t1: Table, t2: Table, t3: Table)
    ensures InsertedAll(map[], SENDING.Intent()) == Ok(t1) && InsertedAll(t1, SENDING.Started()) == Ok(t2)
    ensures InsertedAll(t2, SENDING.Result(reply)) == Ok(t3)
    ensures Holds(t3, AllRows(reply)) && SENDING.Result(reply)[1] in AllRows(reply)
  {
    var first, second, third, all := SENDING.Intent(), SENDING.Started(), SENDING.Result(reply), AllRows(reply);
    RowsApart(reply);
    hide InsertedAll, IntentRows, ResultRows, Linked, Agree, Holds;
    var two := first + second;
    assert all == two + third && all[..6] == first && all[..8] == two;
    ApartRowsAgree(all[..6]);
    ApartRowsAgree(all[..8]);
    ApartRowsAgree(all);
    AcceptanceIsOrderFree(first);
    AcceptanceIsOrderFree(two);
    AcceptanceIsOrderFree(all);
    InsertedInTurn(map[], first, second);
    InsertedInTurn(map[], two, third);
    t1 := InsertedAll(map[], first).value;
    t2 := InsertedAll(map[], two).value;
    t3 := InsertedAll(map[], all).value;
    assert all[9] in all;
  }

  /** Unblocked, a dispatch reaches its sink, which may answer with such a reason itself: so the
      stored reason alone does not say the delivery was never sent. */
  lemma SinkMayClaimExpiry()
    ensures var reply := Receipt(RejectedBeforeSend, "EXPIRED", 5, 0, None);
      var actions := Steps(reply, 5);
      var s := After([SENDING], actions);
      && ValidRun([SENDING], actions) && SENDING.Blocked().None?
      && ResultStored(s, "R") && ResultReason(s, "R") == "EXPIRED" && SentFor([SENDING], s, "R")
  {
    hide *;
    var reply := Receipt(RejectedBeforeSend, "EXPIRED", 5, 0, None);
    SendingIsValid();
    StepsAreValid(SENDING, reply, 5);
    var t1, t2, t3 := AllGoIn(reply);
    UnhinderedResult(SENDING, reply, t1, t2, t3, AllRows(reply));
  }

  /** A lone delivery going on so many times with the store up. */
  function Steps(reply: Receipt, n: nat): seq<Action> {
    if n == 0 then [] else Steps(reply, n - 1) + [GoOn(0, true, reply)]
  }

  lemma {:induction false} StepsAreValid(dispatch: Dispatch, reply: Receipt, n: nat)
    requires dispatch.Valid() && reply.status == RejectedBeforeSend && reply.reference == None
    ensures ValidRun([dispatch], Steps(reply, n))
  {
    if n > 0 { StepsAreValid(dispatch, reply, n - 1); }
  }

  lemma {:induction false} StepsAreAlone(dispatch: Dispatch, reply: Receipt, n: nat)
    ensures After([dispatch], Steps(reply, n)) == Alone(dispatch, map[], reply, n)
  {
    hide Next;
    if n > 0 {
      StepsAreAlone(dispatch, reply, n - 1);
      assert Steps(reply, n)[..|Steps(reply, n)| - 1] == Steps(reply, n - 1);
    }
  }

  lemma SendingIsValid()
    ensures SENDING.Valid() && SENDING.Blocked().None? && SENDING.at == 5 && SENDING.id == "R"
  {
  }

  lemma UnhinderedResult(dispatch: Dispatch, reply: Receipt, t1: Table, t2: Table, t3: Table, rows: seq<Row>)
    requires dispatch.Valid() && dispatch.Blocked().None? && dispatch.at <= reply.at
    requires InsertedAll(map[], dispatch.Intent()) == Ok(t1) && InsertedAll(t1, dispatch.Started()) == Ok(t2)
    requires InsertedAll(t2, dispatch.Result(reply)) == Ok(t3)
    requires Holds(t3, rows) && dispatch.Result(reply)[1] in rows
    ensures var s := After([dispatch], Steps(reply, 5));
      && ResultStored(s, dispatch.id) && ResultReason(s, dispatch.id) == reply.reason
      && SentFor([dispatch], s, dispatch.id)
  {
    var s := After([dispatch], Steps(reply, 5));
    UnhinderedRun(dispatch, reply, t1, t2, t3);
    EnvelopesAreNamed(dispatch, reply);
    var row := dispatch.Result(reply)[1];
    assert row.kind == DeliveryResult;
    hide After, SentFor, InsertedAll, IntentRows, ResultId, ResultReason, ResultRows;
    assert SameFacts(s.table[ResultId(dispatch.id)], row);
    ResultSays(dispatch, reply, s, dispatch.id);
  }

  /** A dispatch that may send, left to run with the store up. */
  lemma UnhinderedRun(dispatch: Dispatch, reply: Receipt, t1: Table, t2: Table, t3: Table)
    requires dispatch.Blocked().None? && dispatch.at <= reply.at
    requires InsertedAll(map[], dispatch.Intent()) == Ok(t1) && InsertedAll(t1, dispatch.Started()) == Ok(t2)
    requires InsertedAll(t2, dispatch.Result(reply)) == Ok(t3)
    ensures var s := After([dispatch], Steps(reply, 5));
      s.table == t3 && s.sends == [0] && SentFor([dispatch], s, dispatch.id)
  {
    hide InsertedAll, IntentRows, ResultRows, After, Next, Write, Steps;
    StepsAreAlone(dispatch, reply, 5);
    StoringStep(dispatch, reply, map[], Unwritten, [], dispatch.Intent(), t1, IntentStored);
    StoringStep(dispatch, reply, t1, IntentStored, [], dispatch.Started(), t2, StartStored);
    SendingSteps(dispatch, reply, t2);
    StoringStep(dispatch, reply, t2, Answered(reply), [0], dispatch.Result(reply), t3, Finished(reply));
    assert Alone(dispatch, map[], reply, 0) == System(map[], [Progress(Unwritten, true)], []);
    assert Alone(dispatch, map[], reply, 1) == System(t1, [Progress(IntentStored, true)], []);
    assert Alone(dispatch, map[], reply, 2) == System(t2, [Progress(StartStored, true)], []);
    assert Alone(dispatch, map[], reply, 3) == System(t2, [Progress(Calling, true)], [0]);
    assert Alone(dispatch, map[], reply, 4) == System(t2, [Progress(Answered(reply), true)], [0]);
    assert Alone(dispatch, map[], reply, 5).sends[0] == 0;
  }

  lemma StoringStep(
      dispatch: Dispatch, reply: Receipt, table: Table, stage: Stage, sends: seq<nat>, rows: seq<Row>, after: Table,
      next: Stage)
    requires Writes(dispatch, stage, rows, next) && InsertedAll(table, rows) == Ok(after)
    ensures Next([dispatch], System(table, [Progress(stage, true)], sends), GoOn(0, true, reply))
         == System(after, [Progress(next, true)], sends)
  {
    hide InsertedAll, IntentRows, ResultRows;
  }

  lemma SendingSteps(dispatch: Dispatch, reply: Receipt, table: Table)
    requires dispatch.at <= reply.at
    ensures Next([dispatch], System(table, [Progress(StartStored, true)], []), GoOn(0, true, reply))
         == System(table, [Progress(Calling, true)], [0])
    ensures Next([dispatch], System(table, [Progress(Calling, true)], [0]), GoOn(0, true, reply))
         == System(table, [Progress(Answered(reply), true)], [0])
  {
    hide InsertedAll, IntentRows, ResultRows;
  }
}
