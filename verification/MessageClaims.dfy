/** Message claims of `consensus_engine/db.py`: two statements by any number of callers, each
atomic, in any interleaving and with any clock readings.
*/
module MessageClaims {
  import opened Wrappers

  const CLAIM_STALE_SECONDS := 300.0

  datatype Status = Claimed | Done

  datatype Entry = Entry(status: Status, updatedAt: real)

  type Table = map<int, Entry>

  // ----- The statements ---------------------------------------------------

  /** `INSERT OR IGNORE`: the table after, and whether a row was inserted. */
  function Inserted(table: Table, message: int, now: real): (Table, bool) {
    if message in table then (table, false) else (table[message := Entry(Claimed, now)], true)
  }

  predicate Stale(table: Table, message: int, now: real) {
    message in table && table[message].status.Claimed? && table[message].updatedAt < now - CLAIM_STALE_SECONDS
  }

  /** The update that takes over a stale claim: the table after, and whether a row matched. */
  function TakenOver(table: Table, message: int, now: real): (Table, bool) {
    if Stale(table, message, now) then (table[message := Entry(Claimed, now)], true) else (table, false)
  }

  function MarkedDone(table: Table, message: int, now: real): Table {
    if message in table then table[message := Entry(Done, now)] else table
  }

  class ProcessedMessages {
    var rows: Table

    constructor ()
      ensures rows == map[]
    {
      rows := map[];
    }

    method InsertOrIgnore(message: int, now: real) returns (inserted: bool)
      modifies this
      ensures (rows, inserted) == Inserted(old(rows), message, now)
    {
      inserted := message !in rows;
      if inserted {
        rows := rows[message := Entry(Claimed, now)];
      }
    }

    method UpdateStale(message: int, now: real) returns (matched: bool)
      modifies this
      ensures (rows, matched) == TakenOver(old(rows), message, now)
    {
      matched := message in rows && rows[message].status.Claimed? &&
        rows[message].updatedAt < now - CLAIM_STALE_SECONDS;
      if matched {
        rows := rows[message := Entry(Claimed, now)];
      }
    }

    /** A claim with nobody between its statements succeeds for a new message or a stale claim. */
    method ClaimMessage(message: int, now: real) returns (owned: bool)
      modifies this
      ensures owned <==> message !in old(rows) || Stale(old(rows), message, now)
      ensures rows == if owned then old(rows)[message := Entry(Claimed, now)] else old(rows)
    {
      owned := InsertOrIgnore(message, now);
      if !owned {
        owned := UpdateStale(message, now);
      }
    }

    method MarkMessageDone(message: int, now: real)
      modifies this
      ensures rows == MarkedDone(old(rows), message, now)
    {
      if message in rows {
        rows := rows[message := Entry(Done, now)];
      }
    }
  }

  // ----- Any interleaving -------------------------------------------------

  /** One statement of one caller. A claim's second statement runs only after its first found a
      row, and with the clock reading the first used. */
  datatype Statement = First(call: nat, message: int, now: real) | Second(call: nat) | Finish(message: int, now: real)

  datatype Grant = Grant(message: int, now: real)

  /** The table, the calls between their statements, the claims that succeeded in order, and how
      many had when each message was done. */
  datatype System = System(
    table: Table, waiting: map<nat, Grant>, grants: seq<Grant>, doneAfter: map<int, nat>)

  const START := System(map[], map[], [], map[])

  function Next(s: System, statement: Statement): System {
    match statement
    case First(call, message, now) =>
      if call in s.waiting then s
      else
        var (table, inserted) := Inserted(s.table, message, now);
        if inserted then s.(table := table, grants := s.grants + [Grant(message, now)])
        else s.(waiting := s.waiting[call := Grant(message, now)])
    case Second(call) =>
      if call !in s.waiting then s
      else
        var claim := s.waiting[call];
        var (table, matched) := TakenOver(s.table, claim.message, claim.now);
        s.(table := table, waiting := s.waiting - {call}, grants := s.grants + if matched then [claim] else [])
    case Finish(message, now) =>
      s.(table := MarkedDone(s.table, message, now),
         doneAfter := if message in s.table && message !in s.doneAfter then s.doneAfter[message := |s.grants|]
                      else s.doneAfter)
  }

  function After(statements: seq<Statement>): System
    decreases |statements|
  {
    if statements == [] then START else Next(After(statements[..|statements| - 1]), statements[|statements| - 1])
  }

  /** Claims of one message are more than the staleness apart and rising, and stop once it is done. */
  predicate Separated(s: System) {
    && (forall i, j | 0 <= i < j < |s.grants| && s.grants[i].message == s.grants[j].message ::
         s.grants[i].now + CLAIM_STALE_SECONDS < s.grants[j].now)
    && (forall message, i | message in s.doneAfter && s.doneAfter[message] <= i < |s.grants| ::
         s.grants[i].message != message)
  }

  /** What the table remembers of the claims granted so far. */
  predicate Remembers(s: System) {
    && (forall i | 0 <= i < |s.grants| :: s.grants[i].message in s.table)
    && (forall i | 0 <= i < |s.grants| && s.table[s.grants[i].message].status.Claimed? ::
         s.grants[i].now <= s.table[s.grants[i].message].updatedAt)
    && (forall message | message in s.doneAfter ::
         message in s.table && s.table[message].status.Done? && s.doneAfter[message] <= |s.grants|)
  }

  /** A claim granted late enough keeps claims apart. */
  lemma GrantKeepsApart(s: System, claim: Grant)
    requires Separated(s) && claim.message !in s.doneAfter
    requires forall i | 0 <= i < |s.grants| && s.grants[i].message == claim.message ::
      s.grants[i].now + CLAIM_STALE_SECONDS < claim.now
    ensures Separated(s.(grants := s.grants + [claim]))
  {
  }

  /** A row written for a granted claim remembers it. */
  lemma GrantIsRemembered(s: System, claim: Grant)
    requires Remembers(s) && claim.message !in s.doneAfter
    requires forall i | 0 <= i < |s.grants| && s.grants[i].message == claim.message :: s.grants[i].now <= claim.now
    ensures Remembers(s.(table := s.table[claim.message := Entry(Claimed, claim.now)], grants := s.grants + [claim]))
  {
  }

  /** Nothing else a system holds bears on either. */
  lemma OnlyClaimsMatter(s: System, t: System)
    requires t.grants == s.grants && t.doneAfter == s.doneAfter
    ensures Separated(t) <==> Separated(s)
    ensures t.table == s.table ==> (Remembers(t) <==> Remembers(s))
  {
  }

  /** A new message's first statement, and a stale claim's second, grant a claim no earlier grant or
      finish stands in the way of. */
  lemma GrantIsDue(s: System, claim: Grant)
    requires Separated(s) && Remembers(s)
    requires claim.message !in s.table || Stale(s.table, claim.message, claim.now)
    ensures claim.message !in s.doneAfter
    ensures forall i | 0 <= i < |s.grants| && s.grants[i].message == claim.message ::
      s.grants[i].now + CLAIM_STALE_SECONDS < claim.now
  {
  }

  lemma GrantKeeps(s: System, claim: Grant, next: System)
    requires Separated(s) && Remembers(s)
    requires claim.message !in s.table || Stale(s.table, claim.message, claim.now)
    requires next.table == s.table[claim.message := Entry(Claimed, claim.now)]
    requires next.grants == s.grants + [claim] && next.doneAfter == s.doneAfter
    ensures Separated(next) && Remembers(next)
  {
    GrantIsDue(s, claim);
    GrantKeepsApart(s, claim);
    GrantIsRemembered(s, claim);
    var granted := s.(table := next.table, grants := next.grants);
    OnlyClaimsMatter(s.(grants := next.grants), granted);
    OnlyClaimsMatter(granted, next);
    hide Separated, Remembers;
  }

  lemma FinishKeeps(s: System, message: int, now: real)
    requires Separated(s) && Remembers(s)
    ensures Separated(Next(s, Finish(message, now))) && Remembers(Next(s, Finish(message, now)))
  {
  }

  lemma StatementKeeps(s: System, statement: Statement)
    requires Separated(s) && Remembers(s)
    ensures Separated(Next(s, statement)) && Remembers(Next(s, statement))
  {
    hide Separated, Remembers;
    var next := Next(s, statement);
    match statement
    case First(call, message, now) =>
      if call !in s.waiting && message !in s.table {
        GrantKeeps(s, Grant(message, now), next);
      } else {
        OnlyClaimsMatter(s, next);
      }
    case Second(call) =>
      if call in s.waiting && Stale(s.table, s.waiting[call].message, s.waiting[call].now) {
        GrantKeeps(s, s.waiting[call], next);
      } else {
        assert next.grants == s.grants;
        OnlyClaimsMatter(s, next);
      }
    case Finish(message, now) => FinishKeeps(s, message, now);
  }

  /** Over every interleaving of any callers' statements, with any clock readings. */
  lemma {:induction false} EveryRunIsSeparated(statements: seq<Statement>)
    ensures Separated(After(statements)) && Remembers(After(statements))
    decreases |statements|
  {
    if statements != [] {
      hide Separated, Remembers, Next;
      EveryRunIsSeparated(statements[..|statements| - 1]);
      StatementKeeps(After(statements[..|statements| - 1]), statements[|statements| - 1]);
    } else {
      assert Separated(START) && Remembers(START);
    }
  }

  /** Later statements add to the claims granted and take none back. */
  lemma GrantsOnlyGrow(s: System, statement: Statement)
    ensures |s.grants| <= |Next(s, statement).grants| && Next(s, statement).grants[..|s.grants|] == s.grants
    ensures forall message | message in s.doneAfter ::
      message in Next(s, statement).doneAfter && Next(s, statement).doneAfter[message] == s.doneAfter[message]
  {
  }

  /** A message finished while it has a row is known to be done from then on. */
  lemma {:induction false} FinishIsKept(statements: seq<Statement>, k: nat)
    requires k < |statements| && statements[k].Finish? && statements[k].message in After(statements[..k]).table
    ensures var done := After(statements).doneAfter;
      statements[k].message in done && done[statements[k].message] <= |After(statements[..k]).grants|
    decreases |statements|
  {
    var n := |statements| - 1;
    EveryRunIsSeparated(statements[..k]);
    GrantsOnlyGrow(After(statements[..n]), statements[n]);
    if k < n {
      assert statements[..n][..k] == statements[..k];
      FinishIsKept(statements[..n], k);
    }
  }

  /** Over every interleaving of any callers' statements, with any clock readings: claims that succeeded
      for one message carry times rising by more than three hundred seconds, and none succeeds once the
      message has been finished. */
  lemma ClaimsAreSeparated(statements: seq<Statement>)
    ensures var grants := After(statements).grants;
      forall i, j | 0 <= i < j < |grants| && grants[i].message == grants[j].message ::
        grants[j].now - grants[i].now > 300.0
    ensures var grants := After(statements).grants;
      forall k, i | 0 <= k < |statements| && statements[k].Finish?
                    && statements[k].message in After(statements[..k]).table
                    && |After(statements[..k]).grants| <= i < |grants| ::
        grants[i].message != statements[k].message
  {
    EveryRunIsSeparated(statements);
    forall k | 0 <= k < |statements| && statements[k].Finish? && statements[k].message in After(statements[..k]).table
      ensures var done := After(statements).doneAfter;
        statements[k].message in done && done[statements[k].message] <= |After(statements[..k]).grants|
    {
      FinishIsKept(statements, k);
    }
    hide After;
  }
}
