/**
 The order of the deletions in a reset (server/src/services/dataReset.ts) against the foreign keys of
 server/prisma/schema.prisma: no single deletion leaves a row that points at a deleted one.
 */
module ResetOrder {
  import opened DataReset
  import opened Schema
  import opened Wrappers

  /** Rows of the tables a reset touches, with their foreign keys. */
  datatype Row =
    | PaymentRow(id: Id, owner: Owner, reverses: Option<Id>)
    | AllocationRow(id: Id, payment: Id, item: Id)
    | OrderRow(id: Id, owner: Owner)
    | ItemRow(id: Id, order: Id, menu: Id)
    | ItemOptionRow(id: Id, item: Id, choice: Id)
    | RedemptionRow(id: Id, coupon: Id, owner: Owner)
    | CouponRow(id: Id, batch: Id)
    | BatchRow(id: Id)
    | TargetRow(id: Id, batch: Id, menu: Id)
    | SessionRow(id: Id, table: Id)
    | UsageRow(id: Id, session: Id)
    | CallRow(id: Id, session: Id)
    | DeviceRow(id: Id, session: Id)
    | TableRow(id: Id)
    | SaleRow(id: Id)
    | ClosingRow(id: Id)
    | CategoryRow(id: Id)
    | MenuRow(id: Id, category: Id, inventory: Option<Id>)
    | GroupRow(id: Id, menu: Id)
    | ChoiceRow(id: Id, group: Id, inventory: Option<Id>)
    | InventoryRow(id: Id)

  datatype Name = NPayment | NOrder | NItem | NCoupon | NBatch | NSession | NTable | NSale | NCategory | NMenu | NGroup
                | NChoice | NInventory | NOther(row: Row)

  /** A row as the target of a foreign key. */
  datatype Ref = Ref(name: Name, id: Id)

  function Self(r: Row): Ref {
    match r
    case PaymentRow(id, _, _) => Ref(NPayment, id)
    case OrderRow(id, _) => Ref(NOrder, id)
    case ItemRow(id, _, _) => Ref(NItem, id)
    case CouponRow(id, _) => Ref(NCoupon, id)
    case BatchRow(id) => Ref(NBatch, id)
    case SessionRow(id, _) => Ref(NSession, id)
    case TableRow(id) => Ref(NTable, id)
    case SaleRow(id) => Ref(NSale, id)
    case CategoryRow(id) => Ref(NCategory, id)
    case MenuRow(id, _, _) => Ref(NMenu, id)
    case GroupRow(id, _) => Ref(NGroup, id)
    case ChoiceRow(id, _, _) => Ref(NChoice, id)
    case InventoryRow(id) => Ref(NInventory, id)
    case _ => Ref(NOther(r), 0)
  }

  function OwnerRef(owner: Owner): Ref {
    if owner.Session? then Ref(NSession, owner.id) else Ref(NSale, owner.id)
  }

  function Maybe(name: Name, id: Option<Id>): set<Ref> {
    if id.Some? then {Ref(name, id.value)} else {}
  }

  /** The foreign keys of a row. */
  function Refs(r: Row): set<Ref> {
    match r
    case PaymentRow(_, owner, reverses) => {OwnerRef(owner)} + Maybe(NPayment, reverses)
    case AllocationRow(_, payment, item) => {Ref(NPayment, payment), Ref(NItem, item)}
    case OrderRow(_, owner) => {OwnerRef(owner)}
    case ItemRow(_, order, menu) => {Ref(NOrder, order), Ref(NMenu, menu)}
    case ItemOptionRow(_, item, choice) => {Ref(NItem, item), Ref(NChoice, choice)}
    case RedemptionRow(_, coupon, owner) => {Ref(NCoupon, coupon), OwnerRef(owner)}
    case CouponRow(_, batch) => {Ref(NBatch, batch)}
    case TargetRow(_, batch, menu) => {Ref(NBatch, batch), Ref(NMenu, menu)}
    case SessionRow(_, table) => {Ref(NTable, table)}
    case UsageRow(_, session) => {Ref(NSession, session)}
    case CallRow(_, session) => {Ref(NSession, session)}
    case DeviceRow(_, session) => {Ref(NSession, session)}
    case MenuRow(_, category, inventory) => {Ref(NCategory, category)} + Maybe(NInventory, inventory)
    case GroupRow(_, menu) => {Ref(NMenu, menu)}
    case ChoiceRow(_, group, inventory) => {Ref(NGroup, group)} + Maybe(NInventory, inventory)
    case _ => {}
  }

  ghost predicate Resolves(rows: set<Row>, ref: Ref) {
    exists t | t in rows :: Self(t) == ref
  }

  /** Every foreign key of every row finds its row. */
  ghost predicate Integrity(rows: set<Row>) {
    forall r, ref | r in rows && ref in Refs(r) :: Resolves(rows, ref)
  }

  /** Reversals stay with their original's owner and are not reversed themselves; primary keys are unique. */
  ghost predicate Sound(rows: set<Row>) {
    && Integrity(rows)
    && (forall r, t | r in rows && t in rows && Self(r) == Self(t) :: r == t)
    && (forall r, t | r in rows && t in rows && r.PaymentRow? && t.PaymentRow? && r.reverses == Some(t.id) ::
          t.owner == r.owner && t.reverses == None)
  }

  // ---- the deletions ----

  datatype Deletion =
    | RedemptionsOf(channel: Channel)
    | AllocationsByPayment(channel: Channel)
    | AllocationsByItem(channel: Channel)
    | ReversalsOf(channel: Channel)
    | PaymentsOf(channel: Channel)
    | OptionsOf(channel: Channel)
    | ItemsOf(channel: Channel)
    | OrdersOf(channel: Channel)
    | AllUsages | AllCalls | AllDevices | AllSessions | AllSales | AllClosings
    | AllRedemptions | AllCoupons | AllTargets | AllBatches
    | AllInventory | AllChoices | AllGroups | AllMenuItems | AllCategories

  ghost predicate PaymentIn(rows: set<Row>, id: Id, channel: Channel) {
    exists p | p in rows :: p.PaymentRow? && p.id == id && In(channel, p.owner)
  }

  ghost predicate OrderIn(rows: set<Row>, id: Id, channel: Channel) {
    exists o | o in rows :: o.OrderRow? && o.id == id && In(channel, o.owner)
  }

  ghost predicate ItemIn(rows: set<Row>, id: Id, channel: Channel) {
    exists i | i in rows :: i.ItemRow? && i.id == id && OrderIn(rows, i.order, channel)
  }

  /** The where clause of a deletion; joins look at the rows as they are when it runs. */
  ghost predicate Doomed(rows: set<Row>, d: Deletion, r: Row) {
    match d
    case RedemptionsOf(c) => r.RedemptionRow? && In(c, r.owner)
    case AllocationsByPayment(c) => r.AllocationRow? && PaymentIn(rows, r.payment, c)
    case AllocationsByItem(c) => r.AllocationRow? && ItemIn(rows, r.item, c)
    case ReversalsOf(c) => r.PaymentRow? && In(c, r.owner) && r.reverses.Some?
    case PaymentsOf(c) => r.PaymentRow? && In(c, r.owner)
    case OptionsOf(c) => r.ItemOptionRow? && ItemIn(rows, r.item, c)
    case ItemsOf(c) => r.ItemRow? && OrderIn(rows, r.order, c)
    case OrdersOf(c) => r.OrderRow? && In(c, r.owner)
    case AllUsages => r.UsageRow?
    case AllCalls => r.CallRow?
    case AllDevices => r.DeviceRow?
    case AllSessions => r.SessionRow?
    case AllSales => r.SaleRow?
    case AllClosings => r.ClosingRow?
    case AllRedemptions => r.RedemptionRow?
    case AllCoupons => r.CouponRow?
    case AllTargets => r.TargetRow?
    case AllBatches => r.BatchRow?
    case AllInventory => r.InventoryRow?
    case AllChoices => r.ChoiceRow?
    case AllGroups => r.GroupRow?
    case AllMenuItems => r.MenuRow?
    case AllCategories => r.CategoryRow?
  }

  ghost function Delete(rows: set<Row>, d: Deletion): set<Row> {
    set r | r in rows && !Doomed(rows, d, r)
  }

  /** No surviving row points at a deleted one. */
  ghost predicate LeavesNothingDangling(rows: set<Row>, d: Deletion) {
    forall r, t | r in rows && t in rows && Self(t) in Refs(r) && Doomed(rows, d, t) :: Doomed(rows, d, r)
  }

  lemma DeleteKeepsSound(rows: set<Row>, d: Deletion)
    requires Sound(rows) && LeavesNothingDangling(rows, d)
    ensures Sound(Delete(rows, d))
  {
    var after := Delete(rows, d);
    forall r, ref | r in after && ref in Refs(r) ensures Resolves(after, ref) {
      assert Resolves(rows, ref);
      var t :| t in rows && Self(t) == ref;
      assert t in after;
    }
  }

  // ---- one channel ----

  /** The deletions of one channel's ledger, in order. */
  const LEDGER_DELETIONS: nat := 8

  function LedgerDeletion(channel: Channel, k: nat): Deletion
    requires k < LEDGER_DELETIONS
  {
    if k == 0 then RedemptionsOf(channel)
    else if k == 1 then AllocationsByPayment(channel)
    else if k == 2 then AllocationsByItem(channel)
    else if k == 3 then ReversalsOf(channel)
    else if k == 4 then PaymentsOf(channel)
    else if k == 5 then OptionsOf(channel)
    else if k == 6 then ItemsOf(channel)
    else OrdersOf(channel)
  }

  /** What the first `k` deletions have removed. */
  ghost predicate Removed(rows: set<Row>, channel: Channel, k: nat) {
    && (k > 0 ==> forall r | r in rows && r.RedemptionRow? :: !In(channel, r.owner))
    && (k > 1 ==> forall r | r in rows && r.AllocationRow? :: !PaymentIn(rows, r.payment, channel))
    && (k > 2 ==> forall r | r in rows && r.AllocationRow? :: !ItemIn(rows, r.item, channel))
    && (k > 3 ==> forall r | r in rows && r.PaymentRow? && In(channel, r.owner) :: r.reverses == None)
    && (k > 4 ==> forall r | r in rows && r.PaymentRow? :: !In(channel, r.owner))
    && (k > 5 ==> forall r | r in rows && r.ItemOptionRow? :: !ItemIn(rows, r.item, channel))
    && (k > 6 ==> forall r | r in rows && r.ItemRow? :: !OrderIn(rows, r.order, channel))
    && (k > 7 ==> forall r | r in rows && r.OrderRow? :: !In(channel, r.owner))
  }

  /** Each deletion of the ledger, in its place, dooms no row that a survivor points at. */
  lemma LedgerDeletionSafe(rows: set<Row>, channel: Channel, k: nat)
    requires Sound(rows) && k < LEDGER_DELETIONS && Removed(rows, channel, k)
    ensures LeavesNothingDangling(rows, LedgerDeletion(channel, k))
  {
    var d := LedgerDeletion(channel, k);
    forall r, t | r in rows && t in rows && Self(t) in Refs(r) && Doomed(rows, d, t) ensures Doomed(rows, d, r) {
      if k == 4 {
        assert r.PaymentRow? ==> r.reverses == Some(t.id);
      } else if k == 6 {
        assert ItemIn(rows, t.id, channel);
      } else if k == 7 {
        assert OrderIn(rows, t.id, channel);
      }
    }
  }

  lemma FewerRows(rows: set<Row>, after: set<Row>, channel: Channel)
    requires after <= rows
    ensures forall id: Id :: PaymentIn(after, id, channel) ==> PaymentIn(rows, id, channel)
    ensures forall id: Id :: OrderIn(after, id, channel) ==> OrderIn(rows, id, channel)
    ensures forall id: Id :: ItemIn(after, id, channel) ==> ItemIn(rows, id, channel)
  {
  }

  lemma LedgerDeletionRemoves(rows: set<Row>, channel: Channel, k: nat)
    requires k < LEDGER_DELETIONS && Removed(rows, channel, k)
    ensures Removed(Delete(rows, LedgerDeletion(channel, k)), channel, k + 1)
  {
    FewerRows(rows, Delete(rows, LedgerDeletion(channel, k)), channel);
  }

  // ---- the whole reset ----

  datatype Action = Remove(deletion: Deletion) | DetachInventory

  function Detached(r: Row): Row {
    match r
    case MenuRow(id, category, _) => MenuRow(id, category, None)
    case ChoiceRow(id, group, _) => ChoiceRow(id, group, None)
    case _ => r
  }

  ghost function Perform(rows: set<Row>, a: Action): set<Row> {
    match a
    case Remove(d) => Delete(rows, d)
    case DetachInventory => set r | r in rows :: Detached(r)
  }

  ghost function RunAll(rows: set<Row>, actions: seq<Action>): set<Row> {
    if actions == [] then rows else Perform(RunAll(rows, actions[..|actions| - 1]), actions[|actions| - 1])
  }

  /** Every single deletion of the list, in the state it runs in, leaves nothing dangling. */
  ghost predicate AllSafe(rows: set<Row>, actions: seq<Action>) {
    actions == []
    || (&& AllSafe(rows, actions[..|actions| - 1])
        && var last := actions[|actions| - 1];
           last.Remove? ==> LeavesNothingDangling(RunAll(rows, actions[..|actions| - 1]), last.deletion))
  }

  function LedgerActions(channel: Channel, k: nat): seq<Action>
    requires k <= LEDGER_DELETIONS
  {
    if k == 0 then [] else LedgerActions(channel, k - 1) + [Remove(LedgerDeletion(channel, k - 1))]
  }

  function TableActions(): seq<Action> {
    LedgerActions(TableRows, LEDGER_DELETIONS)
    + [Remove(AllUsages)] + [Remove(AllCalls)] + [Remove(AllDevices)] + [Remove(AllSessions)]
  }

  function SaleActions(): seq<Action> {
    LedgerActions(SaleRows, LEDGER_DELETIONS) + [Remove(AllSales)]
  }

  function CouponActions(): seq<Action> {
    [] + [Remove(AllRedemptions)] + [Remove(AllCoupons)] + [Remove(AllTargets)] + [Remove(AllBatches)]
  }

  function InventoryActions(): seq<Action> {
    [] + [DetachInventory] + [Remove(AllInventory)]
  }

  function MenuActions(): seq<Action> {
    [] + [Remove(AllChoices)] + [Remove(AllGroups)] + [Remove(AllMenuItems)] + [Remove(AllCategories)]
  }

  function If(c: bool, actions: seq<Action>): seq<Action> {
    if c then actions else []
  }

  /** What a reset of the given scopes does, in order. */
  function Plan(scopes: set<Scope>): seq<Action> {
    If(Tables in scopes, TableActions()) + If(CounterSales in scopes, SaleActions())
    + If(Revenue in scopes, [] + [Remove(AllClosings)]) + If(Coupons in scopes, CouponActions())
    + If(Inventory in scopes, InventoryActions()) + If(Menu in scopes, MenuActions())
  }

  lemma RunAppend(rows: set<Row>, actions: seq<Action>, a: Action)
    ensures RunAll(rows, actions + [a]) == Perform(RunAll(rows, actions), a)
    ensures AllSafe(rows, actions + [a])
        <==> AllSafe(rows, actions) && (a.Remove? ==> LeavesNothingDangling(RunAll(rows, actions), a.deletion))
  {
    assert (actions + [a])[..|actions|] == actions;
  }

  lemma {:induction false} RunConcat(rows: set<Row>, a: seq<Action>, b: seq<Action>)
    ensures RunAll(rows, a + b) == RunAll(RunAll(rows, a), b)
    ensures AllSafe(rows, a + b) <==> AllSafe(rows, a) && AllSafe(RunAll(rows, a), b)
  {
    if b == [] {
      assert a + b == a;
    } else {
      var n := |b| - 1;
      RunConcat(rows, a, b[..n]);
      assert a + b == a + b[..n] + [b[n]] && b == b[..n] + [b[n]];
      RunAppend(rows, a + b[..n], b[n]);
      RunAppend(RunAll(rows, a), b[..n], b[n]);
    }
  }

  /** A phase that ran safely: every deletion safe, the rest sound. */
  ghost predicate Done(rows: set<Row>, actions: seq<Action>, after: set<Row>) {
    AllSafe(rows, actions) && after == RunAll(rows, actions) && Sound(after)
  }

  lemma Then(rows: set<Row>, actions: seq<Action>, after: set<Row>, d: Deletion)
    requires Done(rows, actions, after) && LeavesNothingDangling(after, d)
    ensures Done(rows, actions + [Remove(d)], Delete(after, d))
  {
    RunAppend(rows, actions, Remove(d));
    DeleteKeepsSound(after, d);
  }

  lemma ThenAll(rows: set<Row>, a: seq<Action>, mid: set<Row>, b: seq<Action>, after: set<Row>)
    requires Done(rows, a, mid) && Done(mid, b, after)
    ensures Done(rows, a + b, after)
  {
    RunConcat(rows, a, b);
  }

  /** Nothing of a channel's ledger is left. */
  ghost predicate Cleared(rows: set<Row>, channel: Channel) {
    && (forall r | r in rows && r.RedemptionRow? :: !In(channel, r.owner))
    && (forall r | r in rows && r.PaymentRow? :: !In(channel, r.owner))
    && (forall r | r in rows && r.OrderRow? :: !In(channel, r.owner))
  }

  lemma {:induction false} LedgerPhase(rows: set<Row>, channel: Channel, k: nat) returns (after: set<Row>)
    requires Sound(rows) && k <= LEDGER_DELETIONS
    ensures Done(rows, LedgerActions(channel, k), after) && Removed(after, channel, k) && after <= rows
    decreases k
  {
    if k == 0 {
      after := rows;
    } else {
      var before := LedgerPhase(rows, channel, k - 1);
      var d := LedgerDeletion(channel, k - 1);
      LedgerDeletionSafe(before, channel, k - 1);
      LedgerDeletionRemoves(before, channel, k - 1);
      Then(rows, LedgerActions(channel, k - 1), before, d);
      after := Delete(before, d);
    }
  }

  predicate Wholesale(d: Deletion) {
    !(d.RedemptionsOf? || d.AllocationsByPayment? || d.AllocationsByItem? || d.ReversalsOf? || d.PaymentsOf?
      || d.OptionsOf? || d.ItemsOf? || d.OrdersOf?)
  }

  /** The table a wholesale deletion empties is empty. */
  ghost predicate Gone(rows: set<Row>, d: Deletion) {
    forall r | r in rows :: !Doomed(rows, d, r)
  }

  /** The tables whose rows point at the rows a wholesale deletion removes. */
  ghost predicate Ready(rows: set<Row>, d: Deletion)
    requires Wholesale(d)
  {
    match d
    case AllSessions => Cleared(rows, TableRows) && Gone(rows, AllUsages) && Gone(rows, AllCalls) && Gone(rows, AllDevices)
    case AllSales => Cleared(rows, SaleRows)
    case AllCoupons => Gone(rows, AllRedemptions)
    case AllBatches => Gone(rows, AllCoupons) && Gone(rows, AllTargets)
    case AllInventory => forall r | r in rows && (r.MenuRow? || r.ChoiceRow?) :: r.inventory == None
    case AllChoices => forall r | r in rows :: !r.ItemOptionRow?
    case AllGroups => Gone(rows, AllChoices)
    case AllMenuItems => Gone(rows, AllGroups) && Gone(rows, AllTargets) && forall r | r in rows :: !r.ItemRow?
    case AllCategories => Gone(rows, AllMenuItems)
    case _ => true
  }

  /** Which kinds of row can point at which. */
  lemma ReferringKinds(r: Row, t: Row)
    requires Self(t) in Refs(r)
    ensures match t
            case SessionRow(_, _) =>
              r.UsageRow? || r.CallRow? || r.DeviceRow?
              || ((r.PaymentRow? || r.OrderRow? || r.RedemptionRow?) && In(TableRows, r.owner))
            case SaleRow(_) => (r.PaymentRow? || r.OrderRow? || r.RedemptionRow?) && In(SaleRows, r.owner)
            case CouponRow(_, _) => r.RedemptionRow?
            case BatchRow(_) => r.CouponRow? || r.TargetRow?
            case InventoryRow(_) => (r.MenuRow? || r.ChoiceRow?) && r.inventory.Some?
            case ChoiceRow(_, _, _) => r.ItemOptionRow?
            case GroupRow(_, _) => r.ChoiceRow?
            case MenuRow(_, _, _) => r.ItemRow? || r.TargetRow? || r.GroupRow?
            case CategoryRow(_) => r.MenuRow?
            case PaymentRow(_, _, _) => r.PaymentRow? || r.AllocationRow?
            case OrderRow(_, _) => r.ItemRow?
            case ItemRow(_, _, _) => r.AllocationRow? || r.ItemOptionRow?
            case TableRow(_) => r.SessionRow?
            case _ => false
  {
  }

  lemma ReadyIsSafe(rows: set<Row>, d: Deletion)
    requires Wholesale(d) && Ready(rows, d)
    ensures LeavesNothingDangling(rows, d)
  {
    forall r, t | r in rows && t in rows && Self(t) in Refs(r) && Doomed(rows, d, t) ensures Doomed(rows, d, r) {
      ReferringKinds(r, t);
    }
  }

  /** One wholesale deletion after a safe prefix; `kept` names tables that stay empty. */
  lemma Wipe(rows: set<Row>, actions: seq<Action>, before: set<Row>, d: Deletion, kept: set<Deletion>)
    returns (after: set<Row>)
    requires Done(rows, actions, before) && Wholesale(d) && Ready(before, d)
    requires forall g | g in kept :: Wholesale(g) && Gone(before, g)
    ensures Done(rows, actions + [Remove(d)], after) && after <= before && Gone(after, d)
    ensures forall g | g in kept :: Gone(after, g)
  {
    ReadyIsSafe(before, d);
    Then(rows, actions, before, d);
    after := Delete(before, d);
    forall g | g in kept ensures Gone(after, g) {
      forall r | r in after ensures !Doomed(after, g, r) {
        assert !Doomed(before, g, r);
      }
    }
  }

  lemma TablePhase(rows: set<Row>) returns (after: set<Row>)
    requires Sound(rows)
    ensures Done(rows, TableActions(), after) && after <= rows && Cleared(after, TableRows)
  {
    var a := LedgerActions(TableRows, LEDGER_DELETIONS);
    var s := LedgerPhase(rows, TableRows, LEDGER_DELETIONS);
    var s1 := Wipe(rows, a, s, AllUsages, {});
    var a1 := a + [Remove(AllUsages)];
    var s2 := Wipe(rows, a1, s1, AllCalls, {AllUsages});
    var a2 := a1 + [Remove(AllCalls)];
    var s3 := Wipe(rows, a2, s2, AllDevices, {AllUsages, AllCalls});
    after := Wipe(rows, a2 + [Remove(AllDevices)], s3, AllSessions, {});
  }

  lemma SalePhase(rows: set<Row>) returns (after: set<Row>)
    requires Sound(rows)
    ensures Done(rows, SaleActions(), after) && after <= rows && Cleared(after, SaleRows)
  {
    var s := LedgerPhase(rows, SaleRows, LEDGER_DELETIONS);
    after := Wipe(rows, LedgerActions(SaleRows, LEDGER_DELETIONS), s, AllSales, {});
  }

  lemma CouponPhase(rows: set<Row>) returns (after: set<Row>)
    requires Sound(rows)
    ensures Done(rows, CouponActions(), after) && after <= rows && Gone(after, AllTargets)
  {
    var a: seq<Action> := [];
    var s1 := Wipe(rows, a, rows, AllRedemptions, {});
    var a1 := a + [Remove(AllRedemptions)];
    var s2 := Wipe(rows, a1, s1, AllCoupons, {});
    var a2 := a1 + [Remove(AllCoupons)];
    var s3 := Wipe(rows, a2, s2, AllTargets, {AllCoupons});
    after := Wipe(rows, a2 + [Remove(AllTargets)], s3, AllBatches, {AllTargets});
  }

  lemma DetachKeepsSound(rows: set<Row>)
    requires Sound(rows)
    ensures var after := Perform(rows, DetachInventory);
            && Sound(after)
            && (forall r | r in after :: (r.MenuRow? ==> r.inventory == None) && (r.ChoiceRow? ==> r.inventory == None))
            && (forall r | r in after :: (r.MenuRow? || r.ChoiceRow?) || r in rows)
  {
    var after := Perform(rows, DetachInventory);
    forall r, ref | r in after && ref in Refs(r) ensures Resolves(after, ref) {
      var was :| was in rows && Detached(was) == r;
      assert ref in Refs(was) && Resolves(rows, ref);
      var t :| t in rows && Self(t) == ref;
      assert Self(Detached(t)) == ref && Detached(t) in after;
    }
    forall r, t | r in after && t in after && Self(r) == Self(t) ensures r == t {
      var was :| was in rows && Detached(was) == r;
      var wat :| wat in rows && Detached(wat) == t;
      assert Self(was) == Self(wat);
    }
  }

  lemma InventoryPhase(rows: set<Row>) returns (after: set<Row>)
    requires Sound(rows)
    ensures Done(rows, InventoryActions(), after)
    ensures forall r | r in after :: (r.MenuRow? || r.ChoiceRow?) || r in rows
  {
    var none: seq<Action> := [];
    RunAppend(rows, none, DetachInventory);
    DetachKeepsSound(rows);
    after := Wipe(rows, none + [DetachInventory], Perform(rows, DetachInventory), AllInventory, {});
  }

  /** Without orders there are no items and no item options. */
  lemma NothingOrdered(rows: set<Row>)
    requires Sound(rows) && Cleared(rows, TableRows) && Cleared(rows, SaleRows)
    ensures forall r | r in rows :: !r.OrderRow? && !r.ItemRow? && !r.ItemOptionRow?
  {
    forall r | r in rows ensures !r.ItemRow? {
      assert r.ItemRow? ==> Resolves(rows, Ref(NOrder, r.order));
    }
    forall r | r in rows ensures !r.ItemOptionRow? {
      assert r.ItemOptionRow? ==> Resolves(rows, Ref(NItem, r.item));
    }
  }

  lemma MenuPhase(rows: set<Row>) returns (after: set<Row>)
    requires Sound(rows) && Gone(rows, AllTargets)
    requires forall r | r in rows :: !r.ItemRow? && !r.ItemOptionRow?
    ensures Done(rows, MenuActions(), after)
  {
    var a: seq<Action> := [];
    var s1 := Wipe(rows, a, rows, AllChoices, {AllTargets});
    var a1 := a + [Remove(AllChoices)];
    var s2 := Wipe(rows, a1, s1, AllGroups, {AllTargets});
    var a2 := a1 + [Remove(AllGroups)];
    var s3 := Wipe(rows, a2, s2, AllMenuItems, {});
    after := Wipe(rows, a2 + [Remove(AllMenuItems)], s3, AllCategories, {});
  }

  lemma ClosingPhase(rows: set<Row>) returns (after: set<Row>)
    requires Sound(rows)
    ensures Done(rows, [] + [Remove(AllClosings)], after) && after <= rows
  {
    after := Wipe(rows, [], rows, AllClosings, {});
  }

  lemma Skip(rows: set<Row>)
    requires Sound(rows)
    ensures Done(rows, [], rows)
  {
  }

  lemma ClearedSubset(rows: set<Row>, after: set<Row>, channel: Channel)
    requires Cleared(rows, channel)
    requires forall r | r in after :: (r.MenuRow? || r.ChoiceRow?) || r in rows
    ensures Cleared(after, channel)
  {
  }

  /**
   Whatever scopes are selected, as long as they are closed under their dependencies: every single
   deletion of the reset leaves no surviving row that points at a deleted one, reversals included.
   */
  lemma ResetKeepsReferences(rows: set<Row>, scopes: set<Scope>)
    requires Sound(rows) && DataReset.Closed(scopes)
    ensures AllSafe(rows, Plan(scopes)) && Sound(RunAll(rows, Plan(scopes)))
  {
    var p1 := If(Tables in scopes, TableActions());
    var s1 := rows;
    Skip(rows);
    if Tables in scopes {
      s1 := TablePhase(rows);
    }
    var p2 := If(CounterSales in scopes, SaleActions());
    var s2 := s1;
    Skip(s1);
    if CounterSales in scopes {
      s2 := SalePhase(s1);
    }
    ThenAll(rows, p1, s1, p2, s2);
    RestOfReset(rows, scopes, p1 + p2, s2);
  }

  lemma RestOfReset(rows: set<Row>, scopes: set<Scope>, before: seq<Action>, s2: set<Row>)
    requires DataReset.Closed(scopes) && Done(rows, before, s2)
    requires Tables in scopes ==> Cleared(s2, TableRows)
    requires CounterSales in scopes ==> Cleared(s2, SaleRows)
    ensures var plan := before + If(Revenue in scopes, [] + [Remove(AllClosings)]) + If(Coupons in scopes, CouponActions())
                        + If(Inventory in scopes, InventoryActions()) + If(Menu in scopes, MenuActions());
            AllSafe(rows, plan) && Sound(RunAll(rows, plan))
  {
    var p3 := If(Revenue in scopes, [] + [Remove(AllClosings)]);
    var s3 := s2;
    Skip(s2);
    if Revenue in scopes {
      s3 := ClosingPhase(s2);
    }
    ThenAll(rows, before, s2, p3, s3);
    var p4 := If(Coupons in scopes, CouponActions());
    var s4 := s3;
    Skip(s3);
    if Coupons in scopes {
      s4 := CouponPhase(s3);
    }
    ThenAll(rows, before + p3, s3, p4, s4);
    if Menu in scopes {
      ClearedSubset(s2, s4, TableRows);
      ClearedSubset(s2, s4, SaleRows);
    }
    MenuAndInventory(rows, scopes, before + p3 + p4, s4);
  }

  lemma MenuAndInventory(rows: set<Row>, scopes: set<Scope>, before: seq<Action>, s4: set<Row>)
    requires Done(rows, before, s4)
    requires Menu in scopes ==> Cleared(s4, TableRows) && Cleared(s4, SaleRows) && Gone(s4, AllTargets)
    ensures var plan := before + If(Inventory in scopes, InventoryActions()) + If(Menu in scopes, MenuActions());
            AllSafe(rows, plan) && Sound(RunAll(rows, plan))
  {
    var p5 := If(Inventory in scopes, InventoryActions());
    var s5 := s4;
    Skip(s4);
    if Inventory in scopes {
      s5 := InventoryPhase(s4);
    }
    ThenAll(rows, before, s4, p5, s5);
    var p6 := If(Menu in scopes, MenuActions());
    var s6 := s5;
    Skip(s5);
    if Menu in scopes {
      ClearedSubset(s4, s5, TableRows);
      ClearedSubset(s4, s5, SaleRows);
      NothingOrdered(s5);
      s6 := MenuPhase(s5);
    }
    ThenAll(rows, before + p5, s5, p6, s6);
  }
}
