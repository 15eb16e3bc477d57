/**
 The tables of server/prisma/schema.prisma that carry money, table state and coupons, as rows of a
 value `Db`, and the `Database` whose fields the services update. Ids are handed out in increasing
 order and never reused.
 */
module Schema {
  import opened Sums
  import opened Wrappers

  /** Every order, payment and redemption belongs to a table session or to a counter sale, never to both. */
  datatype Owner = Session(id: Id) | Sale(id: Id)

  // ---- floor ----

  datatype TableStatus = Disabled | Available | Open | Settling

  datatype Table = Table(status: TableStatus, paymentsLocked: bool)

  datatype SessionStatus = Active | PaidPendingService | Closed | Expired

  datatype TableSession = TableSession(table: Id, status: SessionStatus)

  datatype CallStatus = Pending | Acked | Done

  datatype Call = Call(id: Id, session: Id, status: CallStatus)

  datatype Settings = Settings(orderingEnabled: bool, paymentsEnabled: bool)

  predicate IsLive(s: TableSession) {
    s.status == Active || s.status == PaidPendingService
  }

  // ---- orders ----

  datatype OrderStatus = New | Accepted | Preparing | Ready | Served | Rejected | Cancelled

  datatype ServingMode = Kitchen | Counter

  datatype Item = Item(id: Id, menu: Id, unitPrice: int, extras: seq<int>, quantity: int, mode: ServingMode,
                       cancelled: bool)

  datatype OrderKey = TableOrder(session: Id, text: string) | SaleOrder(sale: SaleKey, mode: ServingMode)

  datatype Order = Order(id: Id, owner: Owner, status: OrderStatus, key: OrderKey, at: int, items: seq<Item>)

  // ---- payments ----

  datatype Kind = Charge | Discount | Void | Refund

  /** Method label of a coupon discount, and of a discount typed in by staff. */
  const COUPON_DISCOUNT_METHOD: string := "COUPON"
  const MANUAL_DISCOUNT_METHOD: string := "DISCOUNT"

  /** What a client may write behind the session prefix: any text, so also one that spells a reversal or coupon key. */
  datatype KeyText = Plain(text: string) | Reversal(kind: Kind, payment: Id) | CouponUse(text: string)

  datatype SaleKey = SaleKey(staff: Id, text: string)

  datatype PaymentKey =
    | Scoped(session: Id, text: KeyText)
    | SaleCharge(sale: SaleKey)
    | SaleDiscount(sale: SaleKey)
    | SaleRefund(saleId: Id, payment: Id)

  datatype Allocation = Allocation(item: Id, quantity: int, amount: int)

  /** `coupon` is the code named in the reason of a coupon discount. */
  datatype Payment = Payment(id: Id, owner: Owner, kind: Kind, methodCode: string, amount: int,
                             tendered: Option<int>, change: Option<int>, reverses: Option<Id>,
                             coupon: Option<string>, key: PaymentKey, at: int, allocations: seq<Allocation>)

  // ---- counter sales and coupons ----

  datatype SaleStatus = Completed | SaleCancelled

  datatype CounterSale = CounterSale(id: Id, saleNo: int, status: SaleStatus, key: SaleKey, requestHash: string)

  datatype CouponStatus = Unused | Used | Withdrawn

  datatype Benefit = AmountOff(amount: int) | FreeItem(targets: seq<Id>)

  datatype Coupon = Coupon(status: CouponStatus, benefit: Benefit, expiresAt: Option<int>)

  datatype Redemption = Redemption(coupon: string, owner: Owner, originalAmount: int, discount: int, cancelled: bool)

  datatype Db = Db(next: Id, tables: map<Id, Table>, sessions: map<Id, TableSession>, calls: seq<Call>,
                   settings: Settings, orders: seq<Order>, payments: seq<Payment>, sales: seq<CounterSale>,
                   coupons: map<string, Coupon>, redemptions: seq<Redemption>)

  const EMPTY: Db := Db(0, map[], map[], [], Settings(true, true), [], [], [], map[], [])

  // ---- lookups ----

  /** Row with the given id, as a map built from the rows finds it. */
  function FindPayment(rows: seq<Payment>, id: Id): Option<Payment> {
    if rows == [] then None
    else if rows[|rows| - 1].id == id then Some(rows[|rows| - 1])
    else FindPayment(rows[..|rows| - 1], id)
  }

  function FindOrder(orders: seq<Order>, id: Id): Option<Order> {
    if orders == [] then None
    else if orders[|orders| - 1].id == id then Some(orders[|orders| - 1])
    else FindOrder(orders[..|orders| - 1], id)
  }

  function FindItem(items: seq<Item>, id: Id): Option<Item> {
    if items == [] then None
    else if items[|items| - 1].id == id then Some(items[|items| - 1])
    else FindItem(items[..|items| - 1], id)
  }

  function FindSale(sales: seq<CounterSale>, id: Id): Option<CounterSale> {
    if sales == [] then None
    else if sales[|sales| - 1].id == id then Some(sales[|sales| - 1])
    else FindSale(sales[..|sales| - 1], id)
  }

  predicate KeyTaken(rows: seq<Payment>, key: PaymentKey) {
    exists p | p in rows :: p.key == key
  }

  // ---- prices ----

  function Self(x: int): int {
    x
  }

  function Line(item: Item): int {
    (item.unitPrice + Sum(item.extras, Self)) * item.quantity
  }

  /** The state the services share. */
  class Database {
    var next: Id
    var tables: map<Id, Table>
    var sessions: map<Id, TableSession>
    var calls: seq<Call>
    var settings: Settings
    var orders: seq<Order>
    var payments: seq<Payment>
    var sales: seq<CounterSale>
    var coupons: map<string, Coupon>
    var redemptions: seq<Redemption>

    function View(): Db
      reads this
    {
      Db(next, tables, sessions, calls, settings, orders, payments, sales, coupons, redemptions)
    }

    constructor ()
      ensures View() == EMPTY
    {
      next, tables, sessions, calls, settings := 0, map[], map[], [], Settings(true, true);
      orders, payments, sales, coupons, redemptions := [], [], [], map[], [];
    }
  }
}
