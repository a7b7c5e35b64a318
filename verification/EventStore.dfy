/** The append-only research event store of `consensus_engine/event_store.py`, the triggers that
guard its table in `consensus_engine/db.py`, and the transaction wrapper both go through.

A row's fingerprint is a function of its body, so the body stands for both. The instant a row
was recorded at is kept but is not one of its facts.
*/
module EventStore {
  import opened Wrappers

  datatype Kind =
    | Configuration | RawInput | StateTransition | Candidate | FeatureSnapshot | Suppression
    | OptionResult | Outcome | Delivery | Acknowledgment
    | Assembly | History | OutcomeEvaluation | PortfolioProjection | DeliveryIntent | DeliveryResult

  datatype Role = InputLink | RawLink | FeatureLink | ConfigLink | CandidateLink | OptionLink | SuppressionLink

  datatype Link = Link(target: string, role: Role)

  /** What a body says beyond the fields the triggers read out of it. */
  datatype Facts =
    | Text(text: string)
    | Sending(status: string, reason: string, at: int, attempts: nat, reference: Option<string>)

  /** A stored body: the fields the triggers extract, each null when absent, and the rest. */
  datatype Body = Body(
    instrumentId: Option<string>, instrumentType: Option<string>, metadataSession: Option<string>,
    contractId: Option<string>, configHash: Option<string>, configVersion: Option<string>,
    session: Option<string>, facts: Facts)

  datatype Row = Row(
    id: string, recordType: string, kind: Kind, session: string, links: seq<Link>, recordedAt: int, body: Body)

  type Table = map<string, Row>

  datatype Conflict = ExistingFacts | LinkedKind | EarlierLink

  // ----- The insert trigger -----------------------------------------------

  predicate SameFacts(a: Row, b: Row) {
    a == b.(recordedAt := a.recordedAt)
  }

  predicate AllowedKind(role: Role, kind: Kind) {
    match role
    case InputLink => kind in {RawInput, FeatureSnapshot}
    case RawLink => kind == RawInput
    case FeatureLink => kind == FeatureSnapshot
    case ConfigLink => kind == Configuration
    case CandidateLink => kind == Candidate
    case OptionLink => kind == RawInput
    case SuppressionLink => kind in {RawInput, FeatureSnapshot, Candidate}
  }

  predicate SameInstrument(a: Body, b: Body) {
    a.instrumentId == b.instrumentId && a.instrumentType == b.instrumentType && a.metadataSession == b.metadataSession
  }

  /** Whether `source` may link to `target` in this role. */
  predicate LinkFits(source: Row, role: Role, target: Row) {
    && AllowedKind(role, target.kind)
    && (role == FeatureLink && source.recordType == "AlertCandidate" ==> SameInstrument(source.body, target.body))
    && (role == OptionLink ==> target.recordType == "OptionQuote" && source.body.contractId == target.body.contractId)
    && (role == ConfigLink ==>
        && source.body.configHash == target.body.configHash && source.body.configVersion == target.body.configVersion
        && Some(source.session) == target.body.session)
  }

  /** Every link of `source` to `target`'s identifier fits `target`. */
  predicate Compatible(source: Row, target: Row) {
    forall link | link in source.links && link.target == target.id :: LinkFits(source, link.role, target)
  }

  /** One insert as the trigger lets it happen: refused, ignored, or stored. */
  function Inserted(table: Table, row: Row): Result<Table, Conflict> {
    if row.id in table && (!SameFacts(table[row.id], row) || row.kind == DeliveryIntent) then Err(ExistingFacts)
    else if !Compatible(row, row) || exists id | id in table :: !Compatible(row, table[id]) then Err(LinkedKind)
    else if exists id | id in table :: !Compatible(table[id], row) then Err(EarlierLink)
    else if row.id in table then Ok(table)
    else Ok(table[row.id := row])
  }

  /** The rows of one transaction in order, up to the first refusal. */
  function InsertedAll(table: Table, rows: seq<Row>): Result<Table, Conflict>
    decreases |rows|
  {
    if rows == [] then Ok(table)
    else
      match InsertedAll(table, rows[..|rows| - 1])
      case Err(conflict) => Err(conflict)
      case Ok(soFar) => Inserted(soFar, rows[|rows| - 1])
  }

  // ----- Which rows agree -------------------------------------------------

  /** A collection of rows with no regard to order: every ordered pair, and each row with
      itself, is link-compatible; rows sharing an identifier share their facts; and a delivery
      intent is there once. */
  predicate Agree(rows: multiset<Row>) {
    && (forall a, b | a in rows && b in rows :: Compatible(a, b))
    && (forall a, b | a in rows && b in rows && a.id == b.id :: SameFacts(a, b))
    && (forall a, b | a in rows && b in rows && a.id == b.id && a.kind == DeliveryIntent :: a == b && rows[a] == 1)
  }

  /** `table` holds, for every identifier among `rows`, one of the rows with that identifier. */
  predicate Holds(table: Table, rows: seq<Row>) {
    && (forall id | id in table :: table[id].id == id && table[id] in rows)
    && (forall row | row in rows :: row.id in table && SameFacts(table[row.id], row))
  }

  lemma CompatibleByFacts(a: Row, b: Row, c: Row, d: Row)
    requires SameFacts(a, c) && SameFacts(b, d)
    ensures Compatible(a, b) <==> Compatible(c, d)
  {
  }

  /** What lets one more row in beside `rows`. */
  predicate Joins(rows: multiset<Row>, row: Row) {
    && Compatible(row, row)
    && (forall x | x in rows :: Compatible(row, x) && Compatible(x, row))
    && (forall x | x in rows && x.id == row.id :: SameFacts(x, row) && row.kind != DeliveryIntent)
  }

  lemma InsertedIffJoins(table: Table, rows: seq<Row>, row: Row)
    requires Holds(table, rows)
    ensures Inserted(table, row).Ok? <==> Joins(multiset(rows), row)
  {
    forall x | x in rows
      ensures Compatible(row, x) <==> Compatible(row, table[x.id])
      ensures Compatible(x, row) <==> Compatible(table[x.id], row)
    {
      CompatibleByFacts(row, table[x.id], row, x);
      CompatibleByFacts(table[x.id], row, x, row);
    }
    hide Compatible;
  }

  lemma InsertedHolds(table: Table, rows: seq<Row>, row: Row)
    requires Holds(table, rows) && Inserted(table, row).Ok?
    ensures Holds(Inserted(table, row).value, rows + [row])
  {
    hide Compatible;
    assert forall x | x in rows + [row] :: x in rows || x == row;
  }

  lemma AgreeIffJoins(rows: multiset<Row>, row: Row)
    requires Agree(rows)
    ensures Agree(rows + multiset{row}) <==> Joins(rows, row)
  {
    hide Compatible, SameFacts;
    var all := rows + multiset{row};
    assert row in all;
    if Agree(all) {
      forall x | x in rows ensures Compatible(row, x) && Compatible(x, row)
        ensures x.id == row.id ==> SameFacts(x, row) && row.kind != DeliveryIntent
      {
        assert x in all;
        assert x == row ==> all[row] >= 2;
      }
    }
    if Joins(rows, row) {
      forall a, b | a in all && b in all ensures Compatible(a, b)
        ensures a.id == b.id ==> SameFacts(a, b)
        ensures a.id == b.id && a.kind == DeliveryIntent ==> a == b && all[a] == 1
      {
        SameFactsTurn(a, b);
        assert a in rows || a == row;
        assert b in rows || b == row;
        SameKind(a, b);
      }
    }
  }

  lemma SameFactsTurn(a: Row, b: Row)
    ensures SameFacts(a, a)
    ensures SameFacts(a, b) <==> SameFacts(b, a)
  {
  }

  lemma SameKind(a: Row, b: Row)
    ensures SameFacts(a, b) || SameFacts(b, a) ==> a.kind == b.kind
  {
  }

  lemma AgreementShrinks(rows: multiset<Row>, row: Row)
    requires Agree(rows + multiset{row})
    ensures Agree(rows)
  {
    hide Compatible, SameFacts;
    var all := rows + multiset{row};
    forall a | a in rows ensures a in all && all[a] >= rows[a] {}
  }

  /** A list of rows is accepted in full exactly when it agrees as a collection, so one order of
      it works exactly when every order does. */
  lemma {:induction false} AcceptanceIsOrderFree(rows: seq<Row>)
    ensures InsertedAll(map[], rows).Ok? <==> Agree(multiset(rows))
    ensures InsertedAll(map[], rows).Ok? ==> Holds(InsertedAll(map[], rows).value, rows)
    decreases |rows|
  {
    if rows != [] {
      var n := |rows| - 1;
      var before, row := rows[..n], rows[n];
      assert rows == before + [row];
      assert multiset(rows) == multiset(before) + multiset{row};
      AcceptanceIsOrderFree(before);
      hide Agree, Holds, Inserted;
      if Agree(multiset(before)) {
        var table := InsertedAll(map[], before).value;
        InsertedIffJoins(table, before, row);
        if Inserted(table, row).Ok? { InsertedHolds(table, before, row); }
        AgreeIffJoins(multiset(before), row);
      } else if Agree(multiset(rows)) {
        AgreementShrinks(multiset(before), row);
      }
    }
  }

  // ----- What every reachable store keeps ---------------------------------

  /** Every stored link to a stored row is one its role allows. */
  predicate Consistent(table: Table) {
    && (forall id | id in table :: table[id].id == id)
    && (forall i, j | i in table && j in table :: Compatible(table[i], table[j]))
  }

  /** Nothing stored is removed or changed. */
  predicate Extends(table: Table, later: Table) {
    forall id | id in table :: id in later && later[id] == table[id]
  }

  lemma InsertKeeps(table: Table, row: Row)
    requires Consistent(table) && Inserted(table, row).Ok?
    ensures var after := Inserted(table, row).value;
      && Consistent(after) && Extends(table, after)
      && row.id in after && SameFacts(after[row.id], row)
      && after.Keys == table.Keys + {row.id}
  {
    hide Compatible;
  }

  lemma ExtendsSelf(table: Table)
    ensures Extends(table, table)
  {
  }

  lemma ExtendsOn(a: Table, b: Table, c: Table)
    requires Extends(a, b) && Extends(b, c)
    ensures Extends(a, c)
  {
  }

  lemma {:induction false} InsertAllKeeps(table: Table, rows: seq<Row>)
    requires Consistent(table) && InsertedAll(table, rows).Ok?
    ensures var after := InsertedAll(table, rows).value;
      && Consistent(after) && Extends(table, after)
      && (forall row | row in rows :: row.id in after && SameFacts(after[row.id], row))
    decreases |rows|
  {
    if rows != [] {
      var n := |rows| - 1;
      hide Inserted, Consistent, SameFacts;
      InsertAllKeeps(table, rows[..n]);
      var soFar := InsertedAll(table, rows[..n]).value;
      InsertKeeps(soFar, rows[n]);
      ExtendsOn(table, soFar, InsertedAll(table, rows).value);
      assert rows == rows[..n] + [rows[n]];
    }
  }

  lemma {:induction false} InsertAllAddsOnly(table: Table, rows: seq<Row>)
    requires InsertedAll(table, rows).Ok?
    ensures var after := InsertedAll(table, rows).value;
      forall id | id in after :: (id in table && after[id] == table[id]) || after[id] in rows
    decreases |rows|
  {
    if rows != [] {
      var n := |rows| - 1;
      hide Inserted;
      InsertAllAddsOnly(table, rows[..n]);
      InsertAddsOnly(InsertedAll(table, rows[..n]).value, rows[n]);
      assert rows == rows[..n] + [rows[n]];
    }
  }

  lemma InsertAddsOnly(table: Table, row: Row)
    requires Inserted(table, row).Ok?
    ensures var after := Inserted(table, row).value;
      forall id | id in after :: (id in table && after[id] == table[id]) || after[id] == row
  {
  }

  /** A retry of stored facts changes nothing, whatever instant it is recorded at; a stored
      delivery intent cannot be retried at all. */
  lemma RetryIsNoOp(table: Table, row: Row)
    requires Consistent(table) && row.id in table && SameFacts(table[row.id], row)
    ensures Inserted(table, row) == if row.kind == DeliveryIntent then Err(ExistingFacts) else Ok(table)
  {
    var stored := table[row.id];
    CompatibleByFacts(row, row, stored, stored);
    forall id | id in table
      ensures Compatible(row, table[id]) && Compatible(table[id], row)
    {
      CompatibleByFacts(row, table[id], stored, table[id]);
      CompatibleByFacts(table[id], row, table[id], stored);
    }
    hide Compatible;
  }

  /** The table after one transaction: all of its rows, or the table before it. */
  function Committed(table: Table, rows: seq<Row>): Table {
    match InsertedAll(table, rows)
    case Ok(after) => after
    case Err(_) => table
  }

  function CommittedAll(batches: seq<seq<Row>>): Table
    decreases |batches|
  {
    if batches == [] then map[] else Committed(CommittedAll(batches[..|batches| - 1]), batches[|batches| - 1])
  }

  /** The rows of the transactions that were not rolled back. */
  function Accepted(batches: seq<seq<Row>>): seq<Row>
    decreases |batches|
  {
    if batches == [] then []
    else
      var n := |batches| - 1;
      Accepted(batches[..n]) + if InsertedAll(CommittedAll(batches[..n]), batches[n]).Ok? then batches[n] else []
  }

  lemma {:induction false} InsertedInTurn(table: Table, rows: seq<Row>, more: seq<Row>)
    requires InsertedAll(table, rows).Ok?
    ensures InsertedAll(table, rows + more) == InsertedAll(InsertedAll(table, rows).value, more)
    decreases |more|
  {
    if more == [] {
      assert rows + more == rows;
    } else {
      var n := |more| - 1;
      hide Inserted;
      InsertedInTurn(table, rows, more[..n]);
      assert (rows + more)[..|rows + more| - 1] == rows + more[..n];
    }
  }

  /** Any run of transactions from an empty store: the store is the one its accepted rows alone
      build, every stored link is allowed, and the next transaction is accepted exactly when its
      rows agree with all those accepted before. */
  lemma {:induction false} EveryStoreIsConsistent(batches: seq<seq<Row>>, next: seq<Row>)
    ensures InsertedAll(map[], Accepted(batches)) == Ok(CommittedAll(batches))
    ensures Consistent(CommittedAll(batches))
    ensures Holds(CommittedAll(batches), Accepted(batches))
    ensures InsertedAll(CommittedAll(batches), next).Ok? <==> Agree(multiset(Accepted(batches) + next))
    decreases |batches|
  {
    hide Agree, Holds, Consistent;
    if batches != [] {
      var n := |batches| - 1;
      EveryStoreIsConsistent(batches[..n], batches[n]);
      if InsertedAll(CommittedAll(batches[..n]), batches[n]).Ok? {
        InsertedInTurn(map[], Accepted(batches[..n]), batches[n]);
      } else {
        assert Accepted(batches) == Accepted(batches[..n]);
      }
    }
    assert Accepted(batches) == Accepted(batches) + [];
    EmptyIsConsistent();
    InsertAllKeeps(map[], Accepted(batches));
    AcceptanceIsOrderFree(Accepted(batches));
    InsertedInTurn(map[], Accepted(batches), next);
    AcceptanceIsOrderFree(Accepted(batches) + next);
  }

  /** What a stored link to a stored row always says of the two. */
  predicate LinkIsRight(source: Row, role: Role, target: Row) {
    && (role == InputLink ==> target.kind in {RawInput, FeatureSnapshot})
    && (role == RawLink || role == OptionLink ==> target.kind == RawInput)
    && (role == FeatureLink ==> target.kind == FeatureSnapshot)
    && (role == ConfigLink ==> target.kind == Configuration)
    && (role == CandidateLink ==> target.kind == Candidate)
    && (role == SuppressionLink ==> target.kind in {RawInput, FeatureSnapshot, Candidate})
    && (role == FeatureLink && source.recordType == "AlertCandidate" ==>
        && target.body.instrumentId == source.body.instrumentId
        && target.body.instrumentType == source.body.instrumentType
        && target.body.metadataSession == source.body.metadataSession)
    && (role == OptionLink ==> target.recordType == "OptionQuote" && target.body.contractId == source.body.contractId)
    && (role == ConfigLink ==>
        && target.body.configHash == source.body.configHash && target.body.configVersion == source.body.configVersion
        && target.body.session == Some(source.session))
  }

  /** Over any run of transactions, whichever of the two rows was stored first. */
  lemma StoredLinksAreRight(batches: seq<seq<Row>>, id: string, link: Link)
    requires id in CommittedAll(batches) && link in CommittedAll(batches)[id].links
    requires link.target in CommittedAll(batches)
    ensures LinkIsRight(CommittedAll(batches)[id], link.role, CommittedAll(batches)[link.target])
  {
    hide CommittedAll, InsertedAll, Accepted;
    EveryStoreIsConsistent(batches, []);
    var table := CommittedAll(batches);
    assert table[link.target].id == link.target && Compatible(table[id], table[link.target]);
    LinkMeans(table[id], link.role, table[link.target]);
  }

  /** The trigger asks nothing more and nothing less of a link. */
  lemma LinkMeans(source: Row, role: Role, target: Row)
    ensures LinkFits(source, role, target) <==> LinkIsRight(source, role, target)
  {
  }

  lemma EmptyIsConsistent()
    ensures Consistent(map[])
  {
  }

  lemma CommitKeeps(table: Table, rows: seq<Row>)
    requires Consistent(table)
    ensures Consistent(Committed(table, rows)) && Extends(table, Committed(table, rows))
  {
    hide Consistent;
    if InsertedAll(table, rows).Ok? {
      InsertAllKeeps(table, rows);
    }
  }

  lemma CommittedInTurn(batches: seq<seq<Row>>, last: seq<Row>)
    ensures CommittedAll(batches + [last]) == Committed(CommittedAll(batches), last)
  {
    assert (batches + [last])[..|batches|] == batches;
  }

  /** What was stored stays as it was first stored, over any later transactions. */
  lemma {:induction false} StoredRowsNeverChange(batches: seq<seq<Row>>, later: seq<seq<Row>>)
    ensures Extends(CommittedAll(batches), CommittedAll(batches + later))
    decreases |later|
  {
    hide *;
    if later == [] {
      assert batches + later == batches;
      ExtendsSelf(CommittedAll(batches));
    } else {
      var before, last := batches + later[..|later| - 1], later[|later| - 1];
      StoredRowsNeverChange(batches, later[..|later| - 1]);
      EveryStoreIsConsistent(before, []);
      CommitKeeps(CommittedAll(before), last);
      CommittedInTurn(before, last);
      assert batches + later == before + [last];
      ExtendsOn(CommittedAll(batches), CommittedAll(before), CommittedAll(batches + later));
    }
  }

  // ----- The connection and the store -------------------------------------

  class Connection {
    var rows: Table

    constructor ()
      ensures rows == map[]
    {
      rows := map[];
    }

    /** One statement: the trigger runs first and may refuse or ignore it. */
    method Insert(row: Row) returns (refused: Option<Conflict>)
      modifies this
      ensures match Inserted(old(rows), row)
              case Ok(after) => refused == None && rows == after
              case Err(conflict) => refused == Some(conflict) && rows == old(rows)
    {
      if row.id in rows && (!SameFacts(rows[row.id], row) || row.kind == DeliveryIntent) {
        return Some(ExistingFacts);
      }
      if !Compatible(row, row) || exists id | id in rows :: !Compatible(row, rows[id]) {
        return Some(LinkedKind);
      }
      if exists id | id in rows :: !Compatible(rows[id], row) {
        return Some(EarlierLink);
      }
      if row.id !in rows {
        rows := rows[row.id := row];
      }
      return None;
    }

    /** A group of statements as one write: the first refusal undoes those before it. */
    method ExecuteTransaction(batch: seq<Row>) returns (refused: Option<Conflict>)
      modifies this
      ensures rows == Committed(old(rows), batch)
      ensures refused == match InsertedAll(old(rows), batch) case Ok(_) => None case Err(conflict) => Some(conflict)
    {
      var begun := rows;
      var i := 0;
      while i < |batch|
        invariant 0 <= i <= |batch| && begun == old(rows)
        invariant InsertedAll(begun, batch[..i]) == Ok(rows)
      {
        assert batch[..i + 1][..i] == batch[..i];
        refused := Insert(batch[i]);
        if refused.Some? {
          RefusalStands(begun, batch, i + 1);
          rows := begun;
          return;
        }
        i := i + 1;
      }
      assert batch[..i] == batch;
      refused := None;
    }
  }

  lemma {:induction false} RefusalStands(table: Table, rows: seq<Row>, i: nat)
    requires i <= |rows| && InsertedAll(table, rows[..i]).Err?
    ensures InsertedAll(table, rows) == InsertedAll(table, rows[..i])
    decreases |rows| - i
  {
    if i == |rows| {
      assert rows[..i] == rows;
    } else {
      assert rows[..i + 1][..i] == rows[..i];
      RefusalStands(table, rows, i + 1);
    }
  }

  datatype StoreError =
    | FactsConflict(conflict: Conflict) | OriginalCandidateRequired
    | IntentConflicts | AssemblyChanged | RecordUnavailable

  /** A delivery record as its rows keep it. */
  datatype Attempt = Attempt(id: string, candidateId: string, at: int, status: string, reference: Option<string>)

  function AttemptRow(attempt: Attempt, session: string): Row {
    Row(attempt.id, "DeliveryRecord", Delivery, session, [Link(attempt.candidateId, CandidateLink)], attempt.at,
        Body(None, None, None, None, None, None, None, Sending(attempt.status, "", attempt.at, 0, attempt.reference)))
  }

  /** An envelope's record type is its kind's own name. */
  function Envelope(
      id: string, recordType: string, kind: Kind, facts: Facts, session: string, at: int, links: seq<Link>): Row {
    Row(id, recordType, kind, session, links, at, Body(None, None, None, None, None, None, None, facts))
  }

  /** The rows that keep an intent: the supplied assembly and options, the pending record, and
      the intent itself. */
  function IntentRows(bundle: seq<Row>, pending: Attempt, text: string, session: string): seq<Row> {
    bundle + [
      AttemptRow(pending, session),
      Envelope("m51:intent:" + pending.id, "DELIVERY_INTENT", DeliveryIntent, Text(text), session, pending.at,
               [Link(pending.candidateId, CandidateLink)])]
  }

  function ResultRows(attempt: Attempt, reason: string, attempts: nat, session: string): seq<Row> {
    [AttemptRow(attempt, session),
     Envelope("m51:result:" + attempt.id, "DELIVERY_RESULT", DeliveryResult,
              Sending(attempt.status, reason, attempt.at, attempts, attempt.reference),
              session, attempt.at, [Link(attempt.candidateId, CandidateLink)])]
  }

  /** A row of just these facts is stored, linked to its candidate alone. */
  predicate Keeps(
      table: Table, id: string, recordType: string, kind: Kind, session: string, candidateId: string, facts: Facts) {
    && id in table && table[id].id == id && table[id].recordType == recordType && table[id].kind == kind
    && table[id].session == session && table[id].links == [Link(candidateId, CandidateLink)]
    && table[id].body == Body(None, None, None, None, None, None, None, facts)
  }

  /** A stored intent's table has its whole bundle, the pending delivery and the intent's own envelope. */
  lemma IntentIsKept(table: Table, bundle: seq<Row>, pending: Attempt, text: string, session: string)
    requires Consistent(table) && InsertedAll(table, IntentRows(bundle, pending, text, session)).Ok?
    ensures var after := InsertedAll(table, IntentRows(bundle, pending, text, session)).value;
      && (forall row | row in bundle :: row.id in after && SameFacts(after[row.id], row))
      && Keeps(after, pending.id, "DeliveryRecord", Delivery, session, pending.candidateId,
           Sending(pending.status, "", pending.at, 0, pending.reference))
      && Keeps(after, "m51:intent:" + pending.id, "DELIVERY_INTENT", DeliveryIntent, session, pending.candidateId,
           Text(text))
  {
    hide InsertedAll, Consistent;
    var rows := IntentRows(bundle, pending, text, session);
    InsertAllKeeps(table, rows);
    forall row | row in bundle ensures row in rows {}
    assert rows[|bundle|] in rows && rows[|bundle| + 1] in rows;
  }

  /** A stored result's table has the delivery and an envelope with the receipt's reason and attempts. */
  lemma ResultIsKept(table: Table, attempt: Attempt, reason: string, attempts: nat, session: string)
    requires Consistent(table) && InsertedAll(table, ResultRows(attempt, reason, attempts, session)).Ok?
    ensures var after := InsertedAll(table, ResultRows(attempt, reason, attempts, session)).value;
      && Keeps(after, attempt.id, "DeliveryRecord", Delivery, session, attempt.candidateId,
           Sending(attempt.status, "", attempt.at, 0, attempt.reference))
      && Keeps(after, "m51:result:" + attempt.id, "DELIVERY_RESULT", DeliveryResult, session, attempt.candidateId,
           Sending(attempt.status, reason, attempt.at, attempts, attempt.reference))
  {
    hide InsertedAll, Consistent;
    var rows := ResultRows(attempt, reason, attempts, session);
    InsertAllKeeps(table, rows);
    assert rows[0] in rows && rows[1] in rows;
  }

  datatype Resolved = Resolved(target: string, role: Role, kind: Option<Kind>)

  class ResearchEventStore {
    const connection: Connection

    constructor (connection: Connection)
      ensures this.connection == connection
    {
      this.connection := connection;
    }

    method Write(batch: seq<Row>) returns (r: Option<StoreError>)
      modifies connection
      ensures connection.rows == Committed(old(connection.rows), batch)
      ensures r.None? <==> InsertedAll(old(connection.rows), batch).Ok?
    {
      var refused := connection.ExecuteTransaction(batch);
      r := match refused case None => None case Some(conflict) => Some(FactsConflict(conflict));
    }

    /** Append one row and read it back: a retry of stored facts reads the first row. */
    method Append(row: Row) returns (r: Result<Row, StoreError>)
      modifies connection
      ensures connection.rows == Committed(old(connection.rows), [row])
      ensures r.Err? ==> connection.rows == old(connection.rows)
      ensures r.Ok? ==> row.id in connection.rows && r.value == connection.rows[row.id] && SameFacts(r.value, row)
      ensures r.Ok? && row.id in old(connection.rows) ==> r.value == old(connection.rows)[row.id]
    {
      assert [row][..0] == [];
      var refused := Write([row]);
      if refused.Some? {
        return Err(refused.value);
      }
      return Ok(connection.rows[row.id]);
    }

    /** An intent is kept with its whole bundle: for the assembly's own candidate, if it has one,
        rendered as it stands, still pending, from an assembly that rebuilds to itself. */
    method SaveIntent(
        bundle: seq<Row>, candidateId: Option<string>, rendersIt: bool, rebuilds: bool, pending: Attempt,
        text: string, session: string)
      returns (r: Option<StoreError>)
      modifies connection
      ensures candidateId != Some(pending.candidateId) ==> r == Some(OriginalCandidateRequired)
      ensures candidateId == Some(pending.candidateId) && !(rendersIt && pending.status == "PENDING") ==>
        r == Some(IntentConflicts)
      ensures candidateId == Some(pending.candidateId) && rendersIt && pending.status == "PENDING" && !rebuilds ==>
        r == Some(AssemblyChanged)
      ensures r.None? <==>
        && candidateId == Some(pending.candidateId) && rendersIt && pending.status == "PENDING" && rebuilds
        && InsertedAll(old(connection.rows), IntentRows(bundle, pending, text, session)).Ok?
      ensures r.None? ==>
        InsertedAll(old(connection.rows), IntentRows(bundle, pending, text, session)) == Ok(connection.rows)
      ensures r.Some? ==> connection.rows == old(connection.rows)
    {
      if candidateId != Some(pending.candidateId) {
        return Some(OriginalCandidateRequired);
      }
      if !rendersIt || pending.status != "PENDING" {
        return Some(IntentConflicts);
      }
      if !rebuilds {
        return Some(AssemblyChanged);
      }
      r := Write(IntentRows(bundle, pending, text, session));
    }

    method SaveResult(attempt: Attempt, reason: string, attempts: nat, session: string) returns (r: Option<StoreError>)
      modifies connection
      ensures r.None? <==> InsertedAll(old(connection.rows), ResultRows(attempt, reason, attempts, session)).Ok?
      ensures r.None? ==>
        InsertedAll(old(connection.rows), ResultRows(attempt, reason, attempts, session)) == Ok(connection.rows)
      ensures r.Some? ==> connection.rows == old(connection.rows)
    {
      r := Write(ResultRows(attempt, reason, attempts, session));
    }

    /** The stored links of a row, in order; in a consistent store each that resolves names a
        kind its role allows. */
    method Links(id: string) returns (r: Result<seq<Resolved>, StoreError>)
      ensures r.Err? <==> id !in connection.rows
      ensures r.Ok? ==> |r.value| == |connection.rows[id].links|
      ensures r.Ok? ==> forall i | 0 <= i < |r.value| ::
        ResolvedAs(connection.rows, connection.rows[id].links[i], r.value[i])
      ensures r.Ok? && Consistent(connection.rows) ==>
        forall i | 0 <= i < |r.value| && r.value[i].kind.Some? :: AllowedKind(r.value[i].role, r.value[i].kind.value)
    {
      if id !in connection.rows {
        return Err(RecordUnavailable);
      }
      var links := connection.rows[id].links;
      var resolved := [];
      for i := 0 to |links|
        invariant |resolved| == i
        invariant forall k | 0 <= k < i :: ResolvedAs(connection.rows, links[k], resolved[k])
      {
        var kind := if links[i].target in connection.rows then Some(connection.rows[links[i].target].kind) else None;
        resolved := resolved + [Resolved(links[i].target, links[i].role, kind)];
      }
      if Consistent(connection.rows) {
        forall i | 0 <= i < |resolved| && resolved[i].kind.Some?
          ensures AllowedKind(resolved[i].role, resolved[i].kind.value) {
          assert Compatible(connection.rows[id], connection.rows[links[i].target]) && links[i] in links;
        }
      }
      return Ok(resolved);
    }
  }

  predicate ResolvedAs(table: Table, link: Link, found: Resolved) {
    && found.target == link.target && found.role == link.role
    && found.kind == if link.target in table then Some(table[link.target].kind) else None
  }
}
