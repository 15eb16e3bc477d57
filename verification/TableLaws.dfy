/** What the table steps leave behind: the freed table, the locks, the disabled tables, the waiting calls. */
module TableLaws {
  import opened Billing
  import DataReset
  import opened Invariants
  import opened Ledger
  import opened Schema
  import opened Steps
  import opened Sums
  import T = TableSessions
  import opened World
  import opened Wrappers

  // ---- the end of a session ----

  /** Sessions and tables are the only rows that differ, and of those only the session's and its table's. */
  ghost predicate OthersUntouched(before: Db, after: Db, session: Id, table: Id) {
    && after == before.(sessions := after.sessions, tables := after.tables)
    && after.sessions.Keys == before.sessions.Keys && after.tables.Keys == before.tables.Keys
    && (forall s | s in before.sessions && s != session :: after.sessions[s] == before.sessions[s])
    && (forall t | t in before.tables && t != table :: after.tables[t] == before.tables[t])
  }

  /** The session is closed, its occupied table is available under the lock it had, nothing else changed. */
  ghost predicate Freed(before: Db, after: Db, session: Id)
    requires session in before.sessions
  {
    var table := before.sessions[session].table;
    && OthersUntouched(before, after, session, table)
    && after.sessions[session] == TableSession(table, Closed)
    && (table in before.tables ==>
          after.tables[table] ==
            if before.tables[table].status in {Open, Settling} then Table(Available, before.tables[table].paymentsLocked)
            else before.tables[table])
  }

  lemma CloseFrees(db: Db, session: Id, table: Id, force: bool)
    requires T.CloseTable(db, session, table, force).Committed?
    requires session in db.sessions ==> db.sessions[session].table == table
    ensures session in db.sessions && Freed(db, T.CloseTable(db, session, table, force).db, session)
  {
  }

  /** A free table can be opened again at once, unless a plan is asked for that is not on offer. */
  lemma FreedCanBeOpened(db: Db, after: Db, session: Id, plan: Option<bool>)
    requires T.FloorOk(db.tables, db.sessions) && T.LiveSession(db, session) && Freed(db, after, session)
    ensures T.OpenTable(after, db.sessions[session].table, plan).Committed? <==> plan != Some(false)
  {
    assert T.Seated(db.tables, db.sessions[session]);
  }

  lemma StaleFrees(db: Db, op: SessionOp, session: Id)
    requires T.LiveSession(db, session) && !T.LiveSession(CommitSession(db, op), session)
    requires db.next !in db.sessions
    requires op.CloseTable? && op.session in op.seen.sessions && op.session in db.sessions ==>
               op.seen.sessions[op.session].table == db.sessions[op.session].table
    requires op.AutoSettle? && op.session in op.reading.session.sessions && op.session in db.sessions ==>
               op.reading.session.sessions[op.session].table == db.sessions[op.session].table
    ensures Freed(db, CommitSession(db, op), session)
  {
    match op {
      case CloseTable(s, force, seen) =>
        if s in seen.sessions && T.CloseTable(db, s, seen.sessions[s].table, force).Committed? {
          CloseFrees(db, s, seen.sessions[s].table, force);
        }
      case AutoSettle(s, r) =>
        if s in r.session.sessions {
          CarryOutFrees(db, s, r.session.sessions[s].table, Settlement(s, r), session);
        }
      case OpenTable(_, _) =>
    }
  }

  lemma CarryOutFrees(db: Db, settled: Id, table: Id, decision: T.Settlement, session: Id)
    requires T.LiveSession(db, session) && !T.LiveSession(T.CarryOut(db, settled, table, decision), session)
    requires settled in db.sessions ==> db.sessions[settled].table == table
    ensures Freed(db, T.CarryOut(db, settled, table, decision), session)
  {
  }

  /**
   In any interleaving: whichever step ends a session, the session is closed and its table available, with
   its lock, and ready to be opened again; no other table and no other session moved.
   */
  lemma EndedTableIsFree(w: World, op: SessionOp, session: Id, plan: Option<bool>)
    requires WorldOk(w) && Enabled(w, OnSession(op))
    requires T.LiveSession(w.db, session) && !T.LiveSession(CommitSession(w.db, op), session)
    ensures var table := w.db.sessions[session].table;
            && Freed(w.db, CommitSession(w.db, op), session)
            && (T.OpenTable(CommitSession(w.db, op), table, plan).Committed? <==> plan != Some(false))
  {
    assert w.db in w.past && Inv(w.db);
    match op {
      case CloseTable(s, _, seen) =>
        if s in seen.sessions {
          SameTable(w, seen, s);
        }
      case AutoSettle(s, r) =>
        if s in r.session.sessions {
          SameTable(w, r.session, s);
        }
      case _ =>
    }
    StaleFrees(w.db, op, session);
    FreedCanBeOpened(w.db, CommitSession(w.db, op), session, plan);
  }

  // ---- opening, and settling in one uninterrupted call ----

  /** An available table is taken by one new active session, under the lock it has; everything else stays. */
  lemma OpenExactly(db: Db, table: Id, plan: Option<bool>)
    ensures var r := T.OpenTable(db, table, plan);
            && (r.Committed? <==> table in db.tables && db.tables[table].status == Available && plan != Some(false))
            && (r.Committed? ==>
                  r.db == db.(next := db.next + 1, sessions := db.sessions[db.next := TableSession(table, Active)],
                              tables := db.tables[table := Table(Open, db.tables[table].paymentsLocked)]))
  {
  }

  /** Nothing was ever ordered or paid, or it was all cancelled and taken back. */
  ghost predicate NothingBilled(db: Db, session: Id) {
    OrderTotal(db.orders, Session(session)) == 0 && Paid(db.payments, Session(session)) == 0
  }

  /** The status a live session has after a settlement. */
  ghost function Settled(db: Db, session: Id): SessionStatus
    requires session in db.sessions
  {
    if NothingBilled(db, session) then db.sessions[session].status
    else if Remaining(db, Session(session)) != 0 then Active
    else if T.UnservedCount(db.orders, session) == 0 then Closed
    else PaidPendingService
  }

  /** The settlement gives a live session that status and leaves an ended one, every other session and every other table alone. */
  lemma SettlesExactly(db: Db, session: Id)
    requires session in db.sessions
    ensures var after := T.AutoSettle(db, session);
            && OthersUntouched(db, after, session, db.sessions[session].table)
            && after.sessions[session] ==
                 TableSession(db.sessions[session].table,
                              if T.LiveSession(db, session) then Settled(db, session) else db.sessions[session].status)
  {
    AxesPartition(db, Session(session));
  }

  /** Its own table follows: open, settling or available, as the session is. */
  lemma SettledTable(db: Db, session: Id)
    requires T.FloorOk(db.tables, db.sessions) && T.LiveSession(db, session)
    ensures var table := db.sessions[session].table; var after := T.AutoSettle(db, session);
            && table in db.tables && table in after.tables
            && after.tables[table] ==
                 Table(match Settled(db, session)
                       case Active => Open
                       case PaidPendingService => Settling
                       case _ => Available,
                       db.tables[table].paymentsLocked)
  {
    AxesPartition(db, Session(session));
    assert T.Seated(db.tables, db.sessions[session]);
  }

  // ---- disabled tables and locks ----

  predicate IsDisabled(db: Db, table: Id) {
    table in db.tables && db.tables[table].status == Disabled
  }

  predicate IsLocked(db: Db, table: Id) {
    table in db.tables && db.tables[table].paymentsLocked
  }

  /** No table was disabled or put back into use, none locked or unlocked, none removed. */
  ghost predicate SettingsKept(before: Db, after: Db) {
    && (forall t | t in before.tables :: t in after.tables)
    && (forall t: Id :: (IsDisabled(after, t) <==> IsDisabled(before, t)) && (IsLocked(after, t) <==> IsLocked(before, t)))
  }

  lemma OpenKeepsSettings(db: Db, table: Id, plan: Option<bool>)
    ensures SettingsKept(db, T.StateAfter(db, T.OpenTable(db, table, plan)))
  {
  }

  lemma CarryOutKeepsSettings(db: Db, session: Id, table: Id, decision: T.Settlement)
    ensures SettingsKept(db, T.CarryOut(db, session, table, decision))
  {
  }

  lemma SessionKeepsSettings(db: Db, op: SessionOp)
    ensures SettingsKept(db, CommitSession(db, op))
  {
    match op {
      case OpenTable(table, plan) => OpenKeepsSettings(db, table, plan);
      case CloseTable(session, _, seen) =>
        if session in seen.sessions {
          CarryOutKeepsSettings(db, session, seen.sessions[session].table, T.Close);
        }
      case AutoSettle(session, r) =>
        if session in r.session.sessions {
          CarryOutKeepsSettings(db, session, r.session.sessions[session].table, Settlement(session, r));
        }
    }
  }

  lemma AddKeepsSettings(db: Db)
    requires db.next !in db.tables
    ensures SettingsKept(db, T.AddTable(db))
  {
  }

  lemma ResetKeepsSettings(db: Db, scopes: set<DataReset.Scope>)
    ensures SettingsKept(db, DataReset.Reset(db, scopes))
  {
    if DataReset.Tables in scopes {
      VacatedKeepsSettings(db);
    }
  }

  lemma VacatedKeepsSettings(db: Db)
    ensures SettingsKept(db, db.(tables := DataReset.Vacated(db.tables)))
  {
  }

  lemma OrderKeepsTables(db: Db, op: OrderOp)
    ensures CommitOrder(db, op).tables == db.tables
  {
  }

  lemma PaymentKeepsTables(db: Db, op: PaymentOp)
    ensures CommitPayment(db, op).tables == db.tables
  {
  }

  lemma CouponKeepsTables(db: Db, op: CouponOp)
    ensures CommitCoupon(db, op).tables == db.tables
  {
  }

  lemma SaleKeepsTables(db: Db, op: SaleOp)
    ensures CommitSale(db, op).tables == db.tables
  {
  }

  lemma FloorKeepsSettings(db: Db, op: FloorOp)
    requires db.next !in db.tables && !op.SetEnabled? && !op.LockPayments?
    ensures SettingsKept(db, CommitFloor(db, op))
  {
    if op.AddTable? {
      AddKeepsSettings(db);
    }
  }

  /** Tables are disabled, enabled, locked and unlocked by nothing but the two steps that say so, data resets included. */
  lemma OnlyAdminsChangeSettings(db: Db, step: Step)
    requires db.next !in db.tables
    requires !(step.OnFloor? && (step.floor.SetEnabled? || step.floor.LockPayments?))
    ensures SettingsKept(db, Commit(db, step))
  {
    match step {
      case OnSession(op) => SessionKeepsSettings(db, op);
      case OnFloor(op) => FloorKeepsSettings(db, op);
      case OnOrder(op) => OrderKeepsTables(db, op);
      case OnPayment(op) => PaymentKeepsTables(db, op);
      case OnCoupon(op) => CouponKeepsTables(db, op);
      case OnSale(op) => SaleKeepsTables(db, op);
      case ResetData(scopes) => ResetKeepsSettings(db, scopes);
    }
  }

  /** Those two change what they say on the table they name and nothing else; a table in use cannot be disabled. */
  lemma AdminsChangeOneSetting(db: Db, table: Id, on: bool, t: Id)
    requires t in db.tables
    ensures var after := T.SetEnabled(db, table, on);
            && t in after.tables && (IsLocked(after, t) <==> IsLocked(db, t))
            && (IsDisabled(after, t) <==>
                  if t != table || db.tables[t].status in {Open, Settling} then IsDisabled(db, t) else !on)
    ensures var after := T.LockPayments(db, table, on);
            && t in after.tables && after.tables[t].status == db.tables[t].status
            && (IsLocked(after, t) <==> if t == table then on else IsLocked(db, t))
  {
  }

  // ---- what blocks a closing ----

  /** Nothing is unserved iff every order of the session was served, rejected or cancelled. */
  lemma NothingUnserved(db: Db, session: Id)
    ensures T.UnservedCount(db.orders, session) == 0
        <==> forall o | o in db.orders && o.owner == Session(session) :: o.status in {Served, Rejected, Cancelled}
  {
    var waiting := Filter(db.orders, T.UnservedOf(session));
    forall o | o in db.orders ensures o in waiting <==> o.owner == Session(session) && o.status !in {Served, Rejected, Cancelled} {
      FilterMember(db.orders, T.UnservedOf(session), o);
    }
    if waiting != [] {
      FilterMember(db.orders, T.UnservedOf(session), waiting[0]);
    }
  }

  /** Nothing is pending iff every call of the session is done, acknowledged ones not included. */
  lemma NothingPending(db: Db, session: Id)
    ensures T.PendingCalls(db.calls, session) == 0
        <==> forall c | c in db.calls && c.session == session :: c.status == Done
  {
    var waiting := Filter(db.calls, T.PendingOf(session));
    forall c | c in db.calls ensures c in waiting <==> c.session == session && c.status != Done {
      FilterMember(db.calls, T.PendingOf(session), c);
    }
    if waiting != [] {
      FilterMember(db.calls, T.PendingOf(session), waiting[0]);
    }
  }

  /** However often a session calls, one call waits; no other session's calls change. */
  lemma OneCallWaits(db: Db, session: Id, other: Id)
    requires session in db.sessions
    ensures var after := T.CallStaff(db, session).calls;
            T.PendingCalls(after, other) == if other == session then Max(1, T.PendingCalls(db.calls, other))
                                            else T.PendingCalls(db.calls, other)
  {
    FilterConcat(db.calls, [Call(db.next, session, Pending)], T.PendingOf(other));
  }

  /** Answering moves the named call if it is in a status to answer from, and no other. */
  lemma AnswerExactly(db: Db, id: Id, from: set<CallStatus>, to: CallStatus)
    ensures var after := T.AnswerCall(db, id, from, to);
            && after == db.(calls := after.calls) && |after.calls| == |db.calls|
            && forall i | 0 <= i < |db.calls| ::
                 after.calls[i] ==
                   Call(db.calls[i].id, db.calls[i].session,
                        if db.calls[i].id == id && db.calls[i].status in from then to else db.calls[i].status)
  {
  }
}
