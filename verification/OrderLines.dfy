/**
 From a cart to priced order lines (`resolveOrderLines` of server/src/services/order.ts). Table orders
 and counter sales share it, and no price sent by a client is read.
 */
module OrderLines {
  import opened CounterSales
  import Menu = Options
  import Orders
  import opened Schema
  import opened Wrappers

  datatype Channel = TableOnly | FrontOnly | Both

  datatype Target = AtTable | AtFront

  datatype MenuRow = MenuRow(item: Menu.MenuItem, price: int, active: bool, deleted: bool, channel: Channel,
                             soldOutFlag: bool, inventory: Option<Menu.InventoryItem>, needsCooking: bool,
                             showInKitchen: bool)

  datatype CartItem = CartItem(menu: Id, quantity: int, choices: seq<Id>)

  datatype LineError =
    | EmptyCart
    | NotForSale
    | WrongChannel
    | MenuSoldOut
    | BadQuantity
    | BadOptions(problem: Menu.Problem)

  /** The menu as stored, and every option choice by its id. */
  datatype Catalogue = Catalogue(menu: map<Id, MenuRow>, choices: map<Id, Menu.ChoiceRow>)

  function ServingModeOf(row: MenuRow): ServingMode {
    if row.needsCooking || row.showInKitchen then Kitchen else Counter
  }

  predicate ChannelAllows(channel: Channel, target: Target) {
    channel == Both || channel == if target == AtTable then TableOnly else FrontOnly
  }

  function ResolveLine(db: Catalogue, target: Target, c: CartItem): Result<Orders.OrderLine, LineError> {
    if c.menu !in db.menu || !db.menu[c.menu].active || db.menu[c.menu].deleted then Err(NotForSale)
    else
      var row := db.menu[c.menu];
      if !ChannelAllows(row.channel, target) then Err(WrongChannel)
      else if Menu.SoldOutNow(row.soldOutFlag, row.inventory) then Err(MenuSoldOut)
      else if !(1 <= c.quantity <= 50) then Err(BadQuantity)
      else
        match Menu.Validation(Menu.LiveItem(row.item), c.choices, db.choices)
        case Rejected(problem) => Err(BadOptions(problem))
        case Accepted(options) =>
          Ok(Orders.OrderLine(c.menu, row.price, seq(|options|, i requires 0 <= i < |options| => options[i].extraPrice),
                              c.quantity, ServingModeOf(row)))
  }

  function Extend(lines: Result<seq<Orders.OrderLine>, LineError>, line: Result<Orders.OrderLine, LineError>)
    : Result<seq<Orders.OrderLine>, LineError>
  {
    if lines.Err? then lines else if line.Err? then Err(line.error) else Ok(lines.value + [line.value])
  }

  /** The first entry that cannot be sold refuses the cart. */
  function ResolveAll(db: Catalogue, target: Target, cart: seq<CartItem>): Result<seq<Orders.OrderLine>, LineError> {
    if cart == [] then Ok([])
    else Extend(ResolveAll(db, target, cart[..|cart| - 1]), ResolveLine(db, target, cart[|cart| - 1]))
  }

  function ResolveOrderLines(db: Catalogue, target: Target, cart: seq<CartItem>): Result<seq<Orders.OrderLine>, LineError> {
    if cart == [] then Err(EmptyCart) else ResolveAll(db, target, cart)
  }

  // ---- what a resolved cart is ----

  /** Rows are stored under their ids, and each choice sits in one group of one item. */
  ghost predicate Stored(db: Catalogue) {
    forall id | id in db.menu :: db.menu[id].item.id == id && Menu.Consistent(db.menu[id].item, db.choices)
  }

  /** On sale in this channel, in an allowed quantity, with an acceptable choice of options. */
  ghost predicate CanSell(db: Catalogue, target: Target, c: CartItem) {
    && c.menu in db.menu
    && var row := db.menu[c.menu];
       && row.active && !row.deleted && ChannelAllows(row.channel, target)
       && !Menu.SoldOutNow(row.soldOutFlag, row.inventory)
       && 1 <= c.quantity <= 50 && Menu.Acceptable(row.item, c.choices)
  }

  /** `price` is what the item's own choice `id` costs extra. */
  ghost predicate Costs(item: Menu.MenuItem, id: Id, price: int) {
    exists g, c | g in item.groups && c in g.choices :: c.id == id && c.extraPrice == price
  }

  /** The line repeats the cart entry at the stored prices. */
  ghost predicate PricesEntry(db: Catalogue, c: CartItem, line: Orders.OrderLine)
    requires c.menu in db.menu
  {
    var row := db.menu[c.menu];
    && line.menu == c.menu && line.quantity == c.quantity && line.unitPrice == row.price && line.mode == ServingModeOf(row)
    && |line.extras| == |c.choices|
    && forall k | 0 <= k < |c.choices| :: Costs(row.item, c.choices[k], line.extras[k])
  }

  /** Accepted exactly if the entry can be sold, and then priced from the stored rows. */
  ghost predicate Answers(db: Catalogue, target: Target, c: CartItem, line: Result<Orders.OrderLine, LineError>) {
    && (line.Ok? <==> CanSell(db, target, c))
    && (line.Ok? ==> c.menu in db.menu && PricesEntry(db, c, line.value))
  }

  /** The same, entry by entry and in order. */
  ghost predicate AnswersAll(db: Catalogue, target: Target, cart: seq<CartItem>,
                             lines: Result<seq<Orders.OrderLine>, LineError>) {
    && (lines.Ok? <==> forall i | 0 <= i < |cart| :: CanSell(db, target, cart[i]))
    && (lines.Ok? ==>
          && |lines.value| == |cart|
          && forall i | 0 <= i < |cart| :: cart[i].menu in db.menu && PricesEntry(db, cart[i], lines.value[i]))
  }

  lemma ResolvesLine(db: Catalogue, target: Target, c: CartItem)
    requires Stored(db)
    ensures Answers(db, target, c, ResolveLine(db, target, c))
  {
    if c.menu in db.menu {
      var item := db.menu[c.menu].item;
      Menu.AcceptsExactly(item, c.choices, db.choices);
      if CanSell(db, target, c) {
        Menu.AcceptedAreStored(item, c.choices, db.choices);
      }
    }
  }

  lemma ExtendAnswers(db: Catalogue, target: Target, cart: seq<CartItem>, c: CartItem,
                      lines: Result<seq<Orders.OrderLine>, LineError>, line: Result<Orders.OrderLine, LineError>)
    requires AnswersAll(db, target, cart, lines) && Answers(db, target, c, line)
    ensures AnswersAll(db, target, cart + [c], Extend(lines, line))
  {
    var all := cart + [c];
    assert all[|cart|] == c && forall i | 0 <= i < |cart| :: all[i] == cart[i];
  }

  lemma {:induction false} ResolvesAll(db: Catalogue, target: Target, cart: seq<CartItem>)
    requires Stored(db)
    ensures AnswersAll(db, target, cart, ResolveAll(db, target, cart))
  {
    if cart != [] {
      var front, last := cart[..|cart| - 1], cart[|cart| - 1];
      ResolvesAll(db, target, front);
      ResolvesLine(db, target, last);
      ExtendAnswers(db, target, front, last, ResolveAll(db, target, front), ResolveLine(db, target, last));
      assert cart == front + [last];
    }
  }

  /**
   A cart is accepted exactly when it is not empty and every entry can be sold, and then becomes one
   line per entry, in order, at the stored prices of the item and of the chosen options.
   */
  lemma ResolvesExactly(db: Catalogue, target: Target, cart: seq<CartItem>)
    requires Stored(db)
    ensures ResolveOrderLines(db, target, cart).Ok?
        <==> cart != [] && forall i | 0 <= i < |cart| :: CanSell(db, target, cart[i])
    ensures ResolveOrderLines(db, target, cart).Ok? ==>
              var lines := ResolveOrderLines(db, target, cart).value;
              && |lines| == |cart|
              && forall i | 0 <= i < |cart| :: cart[i].menu in db.menu && PricesEntry(db, cart[i], lines[i])
  {
    ResolvesAll(db, target, cart);
  }

  /** Prices as the admin routes let them through. */
  ghost predicate PricesNonneg(db: Catalogue) {
    forall id | id in db.menu ::
      db.menu[id].price >= 0 && forall g, c | g in db.menu[id].item.groups && c in g.choices :: c.extraPrice >= 0
  }

  /** Resolved lines are what quoting, ordering and every later figure rely on. */
  lemma ResolvedAreValid(db: Catalogue, target: Target, cart: seq<CartItem>)
    requires Stored(db) && PricesNonneg(db) && ResolveOrderLines(db, target, cart).Ok?
    ensures ValidLines(ResolveOrderLines(db, target, cart).value)
  {
    ResolvesExactly(db, target, cart);
    var lines := ResolveOrderLines(db, target, cart).value;
    forall i | 0 <= i < |lines|
      ensures lines[i].unitPrice >= 0 && 1 <= lines[i].quantity <= 50
              && forall k | 0 <= k < |lines[i].extras| :: lines[i].extras[k] >= 0
    {
      assert CanSell(db, target, cart[i]) && PricesEntry(db, cart[i], lines[i]);
      forall k | 0 <= k < |lines[i].extras| ensures lines[i].extras[k] >= 0 {
        assert Costs(db.menu[cart[i].menu].item, cart[i].choices[k], lines[i].extras[k]);
      }
    }
  }
}
