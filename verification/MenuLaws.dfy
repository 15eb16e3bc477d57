/** The rules of sale spelled out on the stored rows, and which rule a refusal names. */
module MenuLaws {
  import opened Options
  import L = OrderLines
  import opened Schema
  import opened Sums
  import opened Wrappers

  // ---- sold out ----

  /** Stock shared through an inventory item decides alone while that item exists; otherwise the entry's own mark does. */
  predicate Shares(inventory: Option<InventoryItem>, stock: InventoryItem) {
    inventory == Some(stock) && !stock.deleted
  }

  /** Whatever is linked to the same stock is sold out and on sale together, whatever was marked on it. */
  lemma SharedStockMovesTogether(a: Choice, b: Choice, row: L.MenuRow, stock: InventoryItem)
    requires Shares(a.inventory, stock) && Shares(b.inventory, stock) && Shares(row.inventory, stock)
    ensures IsSoldOut(a) == IsSoldOut(b) == SoldOutNow(row.soldOutFlag, row.inventory) == stock.soldOut
  {
  }

  // ---- one cart entry ----

  predicate IsOut(flag: bool, inventory: Option<InventoryItem>) {
    if inventory.Some? && !inventory.value.deleted then inventory.value.soldOut else flag
  }

  /** A choice of the group that is offered: both active and undeleted, and not sold out. */
  ghost predicate Offers(g: Group, id: Id) {
    && g.active && !g.deleted
    && exists c | c in g.choices :: c.id == id && c.active && !c.deleted && !IsOut(c.soldOutFlag, c.inventory)
  }

  ghost predicate IsOffered(item: MenuItem, id: Id) {
    exists g | g in item.groups :: Offers(g, id)
  }

  ghost predicate InRange(g: Group, count: int) {
    g.minSelect <= count && (g.maxSelect.None? || count <= g.maxSelect.value)
  }

  /** No choice twice, each offered by a group of the item, and every live group's number in its range. */
  ghost predicate GoodChoices(item: MenuItem, ids: seq<Id>) {
    && (forall i, j | 0 <= i < j < |ids| :: ids[i] != ids[j])
    && (forall id | id in ids :: IsOffered(item, id))
    && (forall g | g in item.groups && g.active && !g.deleted :: InRange(g, Picked(ids, g)))
  }

  lemma AcceptableExactly(item: MenuItem, ids: seq<Id>)
    ensures Acceptable(item, ids) <==> GoodChoices(item, ids)
  {
    forall id ensures Orderable(item, id) <==> IsOffered(item, id) {
      OfferedExactly(item, id);
    }
    assert (forall i | 0 <= i < |ids| :: Orderable(item, ids[i])) <==> forall id | id in ids :: Orderable(item, id);
    RangesExactly(item, ids);
  }

  lemma OfferedExactly(item: MenuItem, id: Id)
    ensures Orderable(item, id) <==> IsOffered(item, id)
  {
    forall g ensures OrderableIn(g, id) <==> Offers(g, id) {
    }
    if Orderable(item, id) {
      var i :| 0 <= i < |item.groups| && OrderableIn(item.groups[i], id);
      assert item.groups[i] in item.groups && Offers(item.groups[i], id);
    }
    if g :| g in item.groups && Offers(g, id) {
      var i :| 0 <= i < |item.groups| && item.groups[i] == g;
      assert OrderableIn(item.groups[i], id);
    }
  }

  lemma RangesExactly(item: MenuItem, ids: seq<Id>)
    ensures (forall i | 0 <= i < |item.groups| && IsLiveGroup(item.groups[i]) :: CountOk(item.groups[i], Picked(ids, item.groups[i])))
        <==> forall g | g in item.groups && g.active && !g.deleted :: InRange(g, Picked(ids, g))
  {
    forall g | g in item.groups && g.active && !g.deleted ensures CountOk(g, Picked(ids, g)) <==> InRange(g, Picked(ids, g)) {
    }
    assert forall i | 0 <= i < |item.groups| :: item.groups[i] in item.groups;
  }

  /** On sale: active, not deleted, in this channel, not sold out, 1 to 50 of it, with good choices. */
  lemma SellsExactly(db: L.Catalogue, target: L.Target, c: L.CartItem)
    ensures L.CanSell(db, target, c)
        <==> && c.menu in db.menu
             && var row := db.menu[c.menu];
                && row.active && !row.deleted && !IsOut(row.soldOutFlag, row.inventory)
                && (target == L.AtTable ==> row.channel != L.FrontOnly)
                && (target == L.AtFront ==> row.channel != L.TableOnly)
                && 1 <= c.quantity <= 50 && GoodChoices(row.item, c.choices)
  {
    if c.menu in db.menu {
      AcceptableExactly(db.menu[c.menu].item, c.choices);
    }
  }

  /** What is cooked or shown in the kitchen goes to the kitchen, all else over the counter. */
  lemma ModeExactly(db: L.Catalogue, target: L.Target, c: L.CartItem)
    requires L.ResolveLine(db, target, c).Ok?
    ensures c.menu in db.menu
    ensures var row := db.menu[c.menu];
            L.ResolveLine(db, target, c).value.mode == if row.needsCooking || row.showInKitchen then Kitchen else Counter
  {
  }

  // ---- which rule a refusal names ----

  ghost predicate Holds(g: Group, id: Id) {
    g.active && !g.deleted && exists c | c in g.choices :: c.id == id && c.active && !c.deleted
  }

  /** A choice is in place if it is live in a live group of the item; in place it may still be sold out. */
  ghost predicate InPlace(item: MenuItem, id: Id) {
    exists g | g in item.groups :: Holds(g, id)
  }

  lemma InPlaceIsFound(item: MenuItem, id: Id, rows: map<Id, ChoiceRow>, i: nat, k: nat)
    requires Consistent(item, rows) && i < |item.groups| && k < |item.groups[i].choices|
    requires IsLiveGroup(item.groups[i]) && IsLiveChoice(item.groups[i].choices[k]) && item.groups[i].choices[k].id == id
    ensures ChoiceProblem(LiveItem(item), id, rows) != Some(Invalid)
  {
    assert RowOf(item, i, item.groups[i].choices[k], rows);
    LiveGroupById(item, item.groups[i].id);
  }

  lemma FoundIsInPlace(item: MenuItem, id: Id, rows: map<Id, ChoiceRow>)
    requires Consistent(item, rows) && ChoiceProblem(LiveItem(item), id, rows) != Some(Invalid)
    ensures InPlace(item, id)
  {
    LiveGroupById(item, rows[id].groupId);
    assert SitsIn(item, id, rows[id]);
    var i :| 0 <= i < |item.groups| && InGroup(item.groups[i], rows[id]);
    var j :| 0 <= j < |item.groups| && IsLiveGroup(item.groups[j]) && item.groups[j].id == rows[id].groupId;
    assert i == j;
    assert Holds(item.groups[i], id);
  }

  /** Out of place is invalid; in place but offered by no group is sold out. */
  lemma ChoiceProblems(item: MenuItem, id: Id, rows: map<Id, ChoiceRow>)
    requires Consistent(item, rows)
    ensures ChoiceProblem(LiveItem(item), id, rows)
         == if !InPlace(item, id) then Some(Invalid) else if !IsOffered(item, id) then Some(SoldOut) else None
  {
    OfferedExactly(item, id);
    ChoiceOkIffOrderable(item, id, rows);
    if ChoiceProblem(LiveItem(item), id, rows) != Some(Invalid) {
      FoundIsInPlace(item, id, rows);
    }
    if InPlace(item, id) {
      var g :| g in item.groups && Holds(g, id);
      var c :| c in g.choices && c.id == id && c.active && !c.deleted;
      var i :| 0 <= i < |item.groups| && item.groups[i] == g;
      var k :| 0 <= k < |g.choices| && g.choices[k] == c;
      InPlaceIsFound(item, id, rows, i, k);
    }
  }

  lemma {:induction false} FirstChoice(item: MenuItem, ids: seq<Id>, rows: map<Id, ChoiceRow>, k: nat)
    requires k < |ids| && ChoiceProblem(item, ids[k], rows) != None
    requires forall j | 0 <= j < k :: ChoiceProblem(item, ids[j], rows) == None
    ensures FirstChoiceProblem(item, ids, rows) == ChoiceProblem(item, ids[k], rows)
  {
    if k < |ids| - 1 {
      FirstChoice(item, ids[..|ids| - 1], rows, k);
    }
  }

  /** Without repeats, the first choice that is not offered decides: sold out if it is in place, else invalid. */
  lemma RefusesChoice(item: MenuItem, ids: seq<Id>, rows: map<Id, ChoiceRow>, k: nat)
    requires Consistent(item, rows) && Distinct(ids)
    requires k < |ids| && !IsOffered(item, ids[k]) && forall j | 0 <= j < k :: IsOffered(item, ids[j])
    ensures Validation(LiveItem(item), ids, rows) == Verdict.Rejected(if InPlace(item, ids[k]) then SoldOut else Invalid)
  {
    forall j | 0 <= j <= k
      ensures ChoiceProblem(LiveItem(item), ids[j], rows)
           == if !InPlace(item, ids[j]) then Some(Invalid) else if !IsOffered(item, ids[j]) then Some(SoldOut) else None
    {
      ChoiceProblems(item, ids[j], rows);
    }
    forall j | 0 <= j < k ensures InPlace(item, ids[j]) {
      var g :| g in item.groups && Offers(g, ids[j]);
      assert Holds(g, ids[j]);
    }
    FirstChoice(LiveItem(item), ids, rows, k);
  }

  lemma LastGroup(groups: seq<Group>, g: Group, ids: seq<Id>, rows: map<Id, ChoiceRow>)
    ensures FirstGroupProblem(groups + [g], ids, rows)
         == if FirstGroupProblem(groups, ids, rows) != None then FirstGroupProblem(groups, ids, rows)
            else GroupProblem(g, CountIn(ids, g.id, rows))
  {
    assert (groups + [g])[..|groups|] == groups;
  }

  /** The problem of the live groups, one group longer. */
  lemma NextGroup(groups: seq<Group>, ids: seq<Id>, rows: map<Id, ChoiceRow>)
    requires groups != []
    ensures var g := groups[|groups| - 1]; var before := FirstGroupProblem(LiveGroups(groups[..|groups| - 1]), ids, rows);
            FirstGroupProblem(LiveGroups(groups), ids, rows)
            == if before != None || !IsLiveGroup(g) then before else GroupProblem(Reduced(g), CountIn(ids, g.id, rows))
  {
    var g := groups[|groups| - 1];
    if IsLiveGroup(g) {
      LastGroup(LiveGroups(groups[..|groups| - 1]), Reduced(g), ids, rows);
    } else {
      assert LiveGroups(groups) == LiveGroups(groups[..|groups| - 1]);
    }
  }

  ghost predicate Meets(g: Group, ids: seq<Id>, rows: map<Id, ChoiceRow>) {
    IsLiveGroup(g) ==> CountOk(g, CountIn(ids, g.id, rows))
  }

  lemma {:induction false} FirstGroup(groups: seq<Group>, ids: seq<Id>, rows: map<Id, ChoiceRow>, i: nat)
    requires i < |groups| && !Meets(groups[i], ids, rows) && forall j | 0 <= j < i :: Meets(groups[j], ids, rows)
    ensures FirstGroupProblem(LiveGroups(groups), ids, rows)
         == GroupProblem(Reduced(groups[i]), CountIn(ids, groups[i].id, rows))
  {
    var front := groups[..|groups| - 1];
    NextGroup(groups, ids, rows);
    if i < |front| {
      FirstGroup(front, ids, rows, i);
    } else {
      NoneBefore(front, ids, rows);
    }
  }

  lemma {:induction false} NoneBefore(groups: seq<Group>, ids: seq<Id>, rows: map<Id, ChoiceRow>)
    requires forall j | 0 <= j < |groups| :: Meets(groups[j], ids, rows)
    ensures FirstGroupProblem(LiveGroups(groups), ids, rows) == None
  {
    if groups != [] {
      NextGroup(groups, ids, rows);
      NoneBefore(groups[..|groups| - 1], ids, rows);
    }
  }

  lemma OfferedCount(g: Group)
    ensures |Filter(Reduced(g).choices, Selectable)| == |OrderableIds(g)|
  {
    var live := Filter(g.choices, IsLiveChoice);
    forall c | c in live ensures Selectable(c) == Sellable(c) {
      FilterMember(g.choices, IsLiveChoice, c);
    }
    FilterCong(live, Selectable, Sellable);
  }

  /**
   With all choices offered, the first live group out of range decides: nothing can be done about it if too
   few were chosen and the group has too few on offer, otherwise the number is wrong.
   */
  lemma RefusesGroup(item: MenuItem, ids: seq<Id>, rows: map<Id, ChoiceRow>, i: nat)
    requires Consistent(item, rows) && Distinct(ids) && forall k | 0 <= k < |ids| :: IsOffered(item, ids[k])
    requires i < |item.groups| && IsLiveGroup(item.groups[i]) && !InRange(item.groups[i], Picked(ids, item.groups[i]))
    requires forall j | 0 <= j < i && IsLiveGroup(item.groups[j]) :: InRange(item.groups[j], Picked(ids, item.groups[j]))
    ensures var g := item.groups[i];
            Validation(LiveItem(item), ids, rows)
            == Verdict.Rejected(if Picked(ids, g) < g.minSelect && |OrderableIds(g)| < g.minSelect then Unavailable else CountInvalid)
  {
    forall k | 0 <= k < |ids|
      ensures Orderable(item, ids[k]) && ChoiceProblem(LiveItem(item), ids[k], rows) == None
    {
      OfferedExactly(item, ids[k]);
      ChoiceOkIffOrderable(item, ids[k], rows);
    }
    forall j | 0 <= j < |item.groups| ensures CountIn(ids, item.groups[j].id, rows) == Picked(ids, item.groups[j]) {
      CountIsPicked(item, ids, rows, j);
    }
    assert forall j | 0 <= j < i :: Meets(item.groups[j], ids, rows);
    OfferedCount(item.groups[i]);
    FirstGroup(item.groups, ids, rows, i);
  }

  /** A guest is told that an item cannot be had at all only where the menu page blocks it too. */
  lemma UnavailableIsBlocked(item: MenuItem, ids: seq<Id>, rows: map<Id, ChoiceRow>)
    requires Consistent(item, rows) && Validation(LiveItem(item), ids, rows) == Verdict.Rejected(Unavailable)
    ensures BlockedRequiredGroups(LiveItem(item)) != []
  {
    var live := LiveItem(item).groups;
    NoUnavailableChoice(LiveItem(item), ids, rows);
    var g := GroupAtFault(live, ids, rows);
    LiveGroupsMembers(item.groups);
    var h :| h in item.groups && IsLiveGroup(h) && g == Reduced(h);
    OfferedCount(h);
    FilterMember(live, IsBlocked, g);
  }

  lemma {:induction false} NoUnavailableChoice(item: MenuItem, ids: seq<Id>, rows: map<Id, ChoiceRow>)
    ensures FirstChoiceProblem(item, ids, rows) in {None, Some(Invalid), Some(SoldOut)}
  {
    if ids != [] {
      NoUnavailableChoice(item, ids[..|ids| - 1], rows);
    }
  }

  lemma {:induction false} GroupAtFault(groups: seq<Group>, ids: seq<Id>, rows: map<Id, ChoiceRow>) returns (g: Group)
    requires FirstGroupProblem(groups, ids, rows) == Some(Unavailable)
    ensures g in groups && |Filter(g.choices, Selectable)| < g.minSelect
  {
    var front, last := groups[..|groups| - 1], groups[|groups| - 1];
    if FirstGroupProblem(front, ids, rows) != None {
      g := GroupAtFault(front, ids, rows);
    } else {
      g := last;
    }
  }

  // ---- which rule refuses a cart ----

  /** Entries are looked at in order, and the first that cannot be sold gives the answer. */
  lemma FirstEntryDecides(db: L.Catalogue, target: L.Target, cart: seq<L.CartItem>, k: nat)
    requires k < |cart| && L.ResolveLine(db, target, cart[k]).Err?
    requires forall j | 0 <= j < k :: L.ResolveLine(db, target, cart[j]).Ok?
    ensures L.ResolveOrderLines(db, target, cart) == Err(L.ResolveLine(db, target, cart[k]).error)
  {
    FirstOfAll(db, target, cart, k);
  }

  lemma {:induction false} FirstOfAll(db: L.Catalogue, target: L.Target, cart: seq<L.CartItem>, k: nat)
    requires k < |cart| && L.ResolveLine(db, target, cart[k]).Err?
    requires forall j | 0 <= j < k :: L.ResolveLine(db, target, cart[j]).Ok?
    ensures L.ResolveAll(db, target, cart) == Err(L.ResolveLine(db, target, cart[k]).error)
  {
    var n := |cart| - 1;
    if k < n {
      FirstOfAll(db, target, cart[..n], k);
    } else {
      AllOk(db, target, cart[..n]);
    }
  }

  lemma {:induction false} AllOk(db: L.Catalogue, target: L.Target, cart: seq<L.CartItem>)
    requires forall j | 0 <= j < |cart| :: L.ResolveLine(db, target, cart[j]).Ok?
    ensures L.ResolveAll(db, target, cart).Ok?
  {
    if cart != [] {
      AllOk(db, target, cart[..|cart| - 1]);
    }
  }
}
