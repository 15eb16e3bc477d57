/**
 The coupled state machine of tables and table sessions (server/src/services/tableSession.ts) and the
 staff calls of server/src/routes/customer.routes.ts and serving.routes.ts. Each transaction body is
 one atomic step; what a request read before it may be stale.
 */
module TableSessions {
  import opened Billing
  import opened Ledger
  import opened Schema
  import opened Sums
  import opened Wrappers

  datatype SessionError =
    | TableMissing
    | TableDisabled
    | NotAvailable
    | PlanMissing
    | AlreadyClosed
    | CloseBlocked(remaining: int, unserved: nat, pendingCalls: nat)
    | InUse
    | NotDisabled

  datatype Outcome = Committed(db: Db) | Aborted(error: SessionError)

  /** The state after a transaction that either commits or rolls back. */
  function StateAfter(db: Db, outcome: Outcome): Db {
    if outcome.Committed? then outcome.db else db
  }

  // ---- what a closing looks at ----

  predicate IsActive(order: Order) {
    order.status == New || order.status == Accepted || order.status == Preparing || order.status == OrderStatus.Ready
  }

  function UnservedOf(session: Id): Order -> bool {
    (o: Order) => o.owner == Session(session) && IsActive(o)
  }

  function UnservedCount(orders: seq<Order>, session: Id): nat {
    |Filter(orders, UnservedOf(session))|
  }

  function PendingOf(session: Id): Call -> bool {
    (c: Call) => c.session == session && c.status != Done
  }

  function PendingCalls(calls: seq<Call>, session: Id): nat {
    |Filter(calls, PendingOf(session))|
  }

  // ---- the transactions ----

  /** `plan` says whether the game time plan asked for, if any, is on offer. */
  function OpenTable(db: Db, table: Id, plan: Option<bool>): Outcome {
    if table in db.tables && db.tables[table].status == Available then
      if plan == Some(false) then Aborted(PlanMissing)
      else
        Committed(db.(next := db.next + 1,
                      tables := db.tables[table := db.tables[table].(status := Open)],
                      sessions := db.sessions[db.next := TableSession(table, Active)]))
    else Aborted(NotAvailable)
  }

  predicate LiveSession(db: Db, session: Id) {
    session in db.sessions && IsLive(db.sessions[session])
  }

  /** Put a table to `to` if its status is one of `from`. */
  function MoveTable(tables: map<Id, Table>, table: Id, from: set<TableStatus>, to: TableStatus): map<Id, Table> {
    if table in tables && tables[table].status in from then tables[table := tables[table].(status := to)] else tables
  }

  function MoveSession(db: Db, session: Id, to: SessionStatus): map<Id, TableSession>
    requires session in db.sessions
  {
    db.sessions[session := db.sessions[session].(status := to)]
  }

  function CloseLive(db: Db, session: Id, table: Id): Db
    requires LiveSession(db, session)
  {
    db.(sessions := MoveSession(db, session, Closed),
        tables := MoveTable(db.tables, table, {Open, Settling}, Available))
  }

  /** The closing transaction for the session and table found before it. */
  function CloseTable(db: Db, session: Id, table: Id, force: bool): Outcome {
    var unserved, pending := UnservedCount(db.orders, session), PendingCalls(db.calls, session);
    var remaining := BillOf(db, Session(session)).remainingAmount;
    if !force && (unserved > 0 || pending > 0 || remaining != 0) then Aborted(CloseBlocked(remaining, unserved, pending))
    else if !LiveSession(db, session) then Aborted(AlreadyClosed)
    else Committed(CloseLive(db, session, table))
  }

  datatype Settlement = Leave | Revert | Close | Pend

  /** What the automatic settlement decides from what it has read: session row, bill and unserved orders. */
  function Decide(session: TableSession, totalAmount: int, paidAmount: int, unserved: nat): Settlement {
    if !IsLive(session) then Leave
    else if totalAmount == 0 && paidAmount == 0 then Leave
    else if totalAmount - paidAmount != 0 then if session.status == PaidPendingService then Revert else Leave
    else if unserved == 0 then Close
    else if session.status != PaidPendingService then Pend
    else Leave
  }

  /** The conditional updates that carry a decision out. */
  function CarryOut(db: Db, session: Id, table: Id, decision: Settlement): Db {
    match decision
    case Leave => db
    case Revert =>
      if session in db.sessions && db.sessions[session].status == PaidPendingService then
        db.(sessions := MoveSession(db, session, Active), tables := MoveTable(db.tables, table, {Settling}, Open))
      else db
    case Close =>
      if LiveSession(db, session) then CloseLive(db, session, table) else db
    case Pend =>
      if session in db.sessions && db.sessions[session].status == Active then
        db.(sessions := MoveSession(db, session, PaidPendingService),
            tables := MoveTable(db.tables, table, {Open}, Settling))
      else db
  }

  datatype AutoSettleOutcome = Settled | PendingService | NoChange

  /** The whole call, run as one step. */
  function AutoSettle(db: Db, session: Id): Db {
    if session !in db.sessions then db
    else
      var bill := BillOf(db, Session(session));
      CarryOut(db, session, db.sessions[session].table,
               Decide(db.sessions[session], bill.totalAmount, bill.paidAmount, UnservedCount(db.orders, session)))
  }

  /** What the call reports: closed, or paid up but waiting for service, or neither. */
  function AutoSettleReport(db: Db, session: Id): AutoSettleOutcome {
    if !LiveSession(db, session) then NoChange
    else
      var bill := BillOf(db, Session(session));
      if (bill.totalAmount == 0 && bill.paidAmount == 0) || bill.remainingAmount != 0 then NoChange
      else if UnservedCount(db.orders, session) == 0 then Settled
      else PendingService
  }

  function SetEnabled(db: Db, table: Id, enabled: bool): Db {
    db.(tables := if enabled then MoveTable(db.tables, table, {Disabled}, Available)
                  else MoveTable(db.tables, table, {Available, Disabled}, Disabled))
  }

  function AddTable(db: Db): Db {
    db.(next := db.next + 1, tables := db.tables[db.next := Table(Available, false)])
  }

  function LockPayments(db: Db, table: Id, locked: bool): Db {
    if table in db.tables then db.(tables := db.tables[table := db.tables[table].(paymentsLocked := locked)]) else db
  }

  /** A new call, unless the session already has one waiting. The session row must exist. */
  function CallStaff(db: Db, session: Id): Db {
    if session in db.sessions && PendingCalls(db.calls, session) == 0 then
      db.(next := db.next + 1, calls := db.calls + [Call(db.next, session, Pending)])
    else db
  }

  function AnswerCall(db: Db, id: Id, from: set<CallStatus>, to: CallStatus): Db {
    db.(calls := seq(|db.calls|, i requires 0 <= i < |db.calls| =>
          if db.calls[i].id == id && db.calls[i].status in from then db.calls[i].(status := to) else db.calls[i]))
  }

  // ---- the service ----

  method OpenTableTx(db: Database, table: Id, plan: Option<bool>) returns (r: Result<Id, SessionError>)
    modifies db
    ensures db.View() == StateAfter(old(db.View()), OpenTable(old(db.View()), table, plan))
    ensures match OpenTable(old(db.View()), table, plan)
            case Committed(_) => r == Ok(old(db.next))
            case Aborted(e) => r == Err(e)
  {
    var tables, sessions, next := db.tables, db.sessions, db.next;
    var claimed := 0;
    if table in db.tables && db.tables[table].status == Available {
      db.tables := db.tables[table := db.tables[table].(status := Open)];
      claimed := 1;
    }
    if claimed != 1 {
      return Err(NotAvailable);
    }
    var id := db.next;
    db.next := id + 1;
    db.sessions := db.sessions[id := TableSession(table, Active)];
    if plan == Some(false) {
      db.tables, db.sessions, db.next := tables, sessions, next;
      return Err(PlanMissing);
    }
    r := Ok(id);
  }

  method CloseTableTx(db: Database, session: Id, table: Id, force: bool) returns (r: Result<(), SessionError>)
    modifies db
    ensures db.View() == StateAfter(old(db.View()), CloseTable(old(db.View()), session, table, force))
    ensures match CloseTable(old(db.View()), session, table, force)
            case Committed(_) => r == Ok(())
            case Aborted(e) => r == Err(e)
  {
    if !force {
      var stillUnserved := |Filter(db.orders, UnservedOf(session))|;
      var stillPendingCalls := |Filter(db.calls, PendingOf(session))|;
      var bill := ComputeBill(db, session);
      if stillUnserved > 0 || stillPendingCalls > 0 || bill.remainingAmount != 0 {
        return Err(CloseBlocked(bill.remainingAmount, stillUnserved, stillPendingCalls));
      }
    }
    var closed := UpdateSession(db, session, {Active, PaidPendingService}, Closed);
    if closed != 1 {
      return Err(AlreadyClosed);
    }
    UpdateTable(db, table, {Open, Settling}, Available);
    r := Ok(());
  }

  /** One conditional update of the session row, with its row count. */
  method UpdateSession(db: Database, session: Id, from: set<SessionStatus>, to: SessionStatus) returns (count: nat)
    modifies db`sessions
    ensures count == (if session in old(db.sessions) && old(db.sessions)[session].status in from then 1 else 0)
    ensures db.sessions == if count == 1 then old(db.sessions)[session := old(db.sessions)[session].(status := to)]
                           else old(db.sessions)
  {
    count := 0;
    if session in db.sessions && db.sessions[session].status in from {
      db.sessions := db.sessions[session := db.sessions[session].(status := to)];
      count := 1;
    }
  }

  method UpdateTable(db: Database, table: Id, from: set<TableStatus>, to: TableStatus)
    modifies db`tables
    ensures db.tables == MoveTable(old(db.tables), table, from, to)
  {
    if table in db.tables && db.tables[table].status in from {
      db.tables := db.tables[table := db.tables[table].(status := to)];
    }
  }

  method MaybeAutoSettle(db: Database, tableSessionId: Id) returns (outcome: AutoSettleOutcome)
    modifies db
    ensures db.View() == AutoSettle(old(db.View()), tableSessionId)
    ensures outcome == AutoSettleReport(old(db.View()), tableSessionId)
  {
    if tableSessionId !in db.sessions {
      return NoChange;
    }
    var session := db.sessions[tableSessionId];
    if session.status != Active && session.status != PaidPendingService {
      return NoChange;
    }
    var bill := ComputeBill(db, tableSessionId);
    if bill.totalAmount == 0 && bill.paidAmount == 0 {
      return NoChange;
    }
    if bill.remainingAmount != 0 {
      if session.status == PaidPendingService {
        var reverted := UpdateSession(db, tableSessionId, {PaidPendingService}, Active);
        if reverted == 1 {
          UpdateTable(db, session.table, {Settling}, Open);
        }
      }
      return NoChange;
    }
    var unservedCount := |Filter(db.orders, UnservedOf(tableSessionId))|;
    if unservedCount == 0 {
      var closed := UpdateSession(db, tableSessionId, {Active, PaidPendingService}, Closed);
      if closed != 1 {
        return NoChange;
      }
      UpdateTable(db, session.table, {Open, Settling}, Available);
      return Settled;
    }
    if session.status != PaidPendingService {
      var moved := UpdateSession(db, tableSessionId, {Active}, PaidPendingService);
      if moved == 1 {
        UpdateTable(db, session.table, {Open}, Settling);
      }
    }
    outcome := PendingService;
  }

  method SetTableEnabled(db: Database, table: Id, enabled: bool) returns (r: Result<(), SessionError>)
    modifies db
    ensures r.Ok? <==> && table in old(db.tables) && old(db.tables)[table].status in {Available, Disabled}
                       && (enabled || forall s | s in old(db.sessions) && IsLive(old(db.sessions)[s]) ::
                                        old(db.sessions)[s].table != table)
    ensures r.Ok? ==> db.View() == SetEnabled(old(db.View()), table, enabled)
    ensures r.Err? ==> db.View() == old(db.View())
    ensures r.Ok? && !enabled ==> forall s | s in db.sessions && IsLive(db.sessions[s]) :: db.sessions[s].table != table
    ensures r.Ok? ==> table in db.tables && db.tables[table].status == if enabled then Available else Disabled
  {
    if table !in db.tables {
      return Err(TableMissing);
    }
    if !enabled {
      if exists s | s in db.sessions :: IsLive(db.sessions[s]) && db.sessions[s].table == table {
        return Err(InUse);
      }
      if db.tables[table].status != Available && db.tables[table].status != Disabled {
        return Err(InUse);
      }
      UpdateTable(db, table, {Available, Disabled}, Disabled);
    } else {
      if db.tables[table].status != Disabled && db.tables[table].status != Available {
        return Err(NotDisabled);
      }
      UpdateTable(db, table, {Disabled}, Available);
    }
    r := Ok(());
  }

  // ---- table status says exactly which session is live ----

  function StatusWith(s: SessionStatus): TableStatus {
    if s == Active then Open else Settling
  }

  ghost predicate Seated(tables: map<Id, Table>, s: TableSession) {
    s.table in tables && tables[s.table].status == StatusWith(s.status)
  }

  ghost predicate LiveOn(sessions: map<Id, TableSession>, s: Id, table: Id) {
    s in sessions && IsLive(sessions[s]) && sessions[s].table == table
  }

  ghost predicate FloorOk(tables: map<Id, Table>, sessions: map<Id, TableSession>) {
    && (forall s | s in sessions && IsLive(sessions[s]) :: Seated(tables, sessions[s]))
    && (forall s, u | s in sessions && u in sessions && IsLive(sessions[s]) && IsLive(sessions[u])
                      && sessions[s].table == sessions[u].table :: s == u)
    && (forall t | t in tables && (tables[t].status == Open || tables[t].status == Settling) ::
          exists s: Id :: LiveOn(sessions, s, t))
  }

  /** The live sessions of a table. */
  ghost function LiveSessions(db: Db, table: Id): set<Id> {
    set s | s in db.sessions && IsLive(db.sessions[s]) && db.sessions[s].table == table
  }

  ghost predicate OnlyLive(db: Db, table: Id, session: Id, status: SessionStatus) {
    LiveSessions(db, table) == {session} && db.sessions[session].status == status
  }

  /** Open: exactly one live session, active. Settling: exactly one, paid. Available or disabled: none. */
  lemma TableStatusExactly(db: Db, table: Id)
    requires FloorOk(db.tables, db.sessions) && table in db.tables
    ensures db.tables[table].status == Open <==> exists s: Id :: OnlyLive(db, table, s, Active)
    ensures db.tables[table].status == Settling <==> exists s: Id :: OnlyLive(db, table, s, PaidPendingService)
    ensures db.tables[table].status in {Available, Disabled} <==> LiveSessions(db, table) == {}
  {
    if exists s: Id :: LiveOn(db.sessions, s, table) {
      var s: Id :| LiveOn(db.sessions, s, table);
      assert Seated(db.tables, db.sessions[s]);
      assert LiveSessions(db, table) == {s};
      assert OnlyLive(db, table, s, db.sessions[s].status);
    } else {
      forall s ensures s !in LiveSessions(db, table) {
        assert !LiveOn(db.sessions, s, table);
      }
    }
  }

  lemma OpenKeepsFloor(db: Db, table: Id, plan: Option<bool>)
    requires FloorOk(db.tables, db.sessions) && db.next !in db.sessions
    ensures var after := StateAfter(db, OpenTable(db, table, plan)); FloorOk(after.tables, after.sessions)
  {
    if table in db.tables && db.tables[table].status == Available {
      var after := StateAfter(db, OpenTable(db, table, plan));
      forall s | s in db.sessions && IsLive(db.sessions[s]) ensures db.sessions[s].table != table {
        assert Seated(db.tables, db.sessions[s]);
      }
      forall t | t in after.tables && after.tables[t].status in {Open, Settling}
        ensures exists s: Id :: LiveOn(after.sessions, s, t)
      {
        if t == table {
          assert LiveOn(after.sessions, db.next, t);
        } else {
          var s: Id :| LiveOn(db.sessions, s, t);
          assert LiveOn(after.sessions, s, t);
        }
      }
    }
  }

  /** Moving a live session and its own table together keeps them in step. */
  lemma MoveKeepsFloor(db: Db, session: Id, from: set<TableStatus>, to: SessionStatus)
    requires FloorOk(db.tables, db.sessions) && LiveSession(db, session)
    requires StatusWith(db.sessions[session].status) in from
    ensures var at := if to == Closed || to == Expired then Available else StatusWith(to);
            FloorOk(MoveTable(db.tables, db.sessions[session].table, from, at), MoveSession(db, session, to))
  {
    var table := db.sessions[session].table;
    var at := if to == Closed || to == Expired then Available else StatusWith(to);
    var tables, sessions := MoveTable(db.tables, table, from, at), MoveSession(db, session, to);
    assert Seated(db.tables, db.sessions[session]);
    forall t | t in tables && tables[t].status in {Open, Settling} ensures exists s: Id :: LiveOn(sessions, s, t) {
      var s: Id :| LiveOn(db.sessions, s, t);
      assert LiveOn(sessions, s, t);
    }
  }

  /** Whatever was decided on stale reads, carrying it out on the session's own table keeps the floor in step. */
  lemma CarryOutKeepsFloor(db: Db, session: Id, table: Id, decision: Settlement)
    requires FloorOk(db.tables, db.sessions)
    requires session in db.sessions ==> db.sessions[session].table == table
    ensures var after := CarryOut(db, session, table, decision); FloorOk(after.tables, after.sessions)
  {
    if session in db.sessions {
      match decision
      case Leave =>
      case Revert =>
        if db.sessions[session].status == PaidPendingService {
          MoveKeepsFloor(db, session, {Settling}, Active);
        }
      case Close =>
        if LiveSession(db, session) {
          MoveKeepsFloor(db, session, {Open, Settling}, Closed);
        }
      case Pend =>
        if db.sessions[session].status == Active {
          MoveKeepsFloor(db, session, {Open}, PaidPendingService);
        }
    }
  }

  /** Changing only tables without a live session, among Available and Disabled, or a lock, keeps the floor. */
  lemma IdleChangeKeepsFloor(db: Db, tables: map<Id, Table>)
    requires FloorOk(db.tables, db.sessions)
    requires forall t | t in db.tables :: t in tables
    requires forall t | t in tables ::
               if t in db.tables && db.tables[t].status in {Open, Settling} then tables[t].status == db.tables[t].status
               else tables[t].status in {Available, Disabled}
    ensures FloorOk(tables, db.sessions)
  {
    forall s | s in db.sessions && IsLive(db.sessions[s]) ensures Seated(tables, db.sessions[s]) {
      assert Seated(db.tables, db.sessions[s]);
    }
  }

  // ---- when a closing commits ----

  /** Nothing left to collect, cook or answer. */
  predicate ReadyToClose(db: Db, session: Id) {
    && Remaining(db, Session(session)) == 0
    && UnservedCount(db.orders, session) == 0
    && PendingCalls(db.calls, session) == 0
  }

  /** A non-forced closing commits exactly in a state that is ready to close, whatever was read before it. */
  lemma CloseGuard(db: Db, session: Id, table: Id)
    ensures CloseTable(db, session, table, false).Committed? <==> LiveSession(db, session) && ReadyToClose(db, session)
    ensures CloseTable(db, session, table, true).Committed? <==> LiveSession(db, session)
  {
    AxesPartition(db, Session(session));
  }

  /** Run as one step, the automatic settlement closes exactly when something was billed or paid, nothing is owed and all is served. */
  lemma AutoSettleGuard(db: Db, session: Id)
    requires LiveSession(db, session)
    ensures !LiveSession(AutoSettle(db, session), session)
        <==> && Remaining(db, Session(session)) == 0
             && UnservedCount(db.orders, session) == 0
             && (OrderTotal(db.orders, Session(session)) != 0 || Paid(db.payments, Session(session)) != 0)
  {
    AxesPartition(db, Session(session));
  }

  /** After one uninterrupted call the status says whether the session is paid up. */
  lemma AutoSettleReports(db: Db, session: Id)
    requires LiveSession(db, session)
    requires OrderTotal(db.orders, Session(session)) != 0 || Paid(db.payments, Session(session)) != 0
    ensures var after := AutoSettle(db, session);
            LiveSession(after, session) ==>
              after.sessions[session].status ==
                if Remaining(db, Session(session)) == 0 then PaidPendingService else Active
  {
    AxesPartition(db, Session(session));
  }
}
