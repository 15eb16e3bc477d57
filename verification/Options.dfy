/**
 Option rules: the order validator (server/src/services/order.ts), the "cannot be sold" check
 (server/src/services/menuCatalog.ts), the count rule (server/src/services/optionRules.ts) and the
 sold-out rule they share (server/src/services/inventory.ts).
 */
module Options {
  import opened Sums
  import opened Wrappers

  datatype InventoryItem = InventoryItem(id: Id, soldOut: bool, deleted: bool)

  datatype Choice = Choice(id: Id, extraPrice: int, soldOutFlag: bool, inventory: Option<InventoryItem>,
                           active: bool, deleted: bool)

  datatype Group = Group(id: Id, minSelect: int, maxSelect: Option<int>, active: bool, deleted: bool,
                         choices: seq<Choice>)

  datatype MenuItem = MenuItem(id: Id, groups: seq<Group>)

  /** A choice row with its group: what the validator looks up by choice id. */
  datatype ChoiceRow = ChoiceRow(choice: Choice, groupId: Id, menuItemId: Id)

  datatype Problem = Duplicate | Invalid | SoldOut | Unavailable | CountInvalid

  datatype Verdict = Accepted(options: seq<Choice>) | Rejected(problem: Problem)

  /** A linked, undeleted inventory item decides alone; otherwise the entry's own flag does. */
  function SoldOutNow(flag: bool, inventory: Option<InventoryItem>): bool {
    if inventory.Some? && !inventory.value.deleted then inventory.value.soldOut else flag
  }

  function IsSoldOut(c: Choice): bool {
    SoldOutNow(c.soldOutFlag, c.inventory)
  }

  predicate IsLiveChoice(c: Choice) {
    !c.deleted && c.active
  }

  predicate IsLiveGroup(g: Group) {
    !g.deleted && g.active
  }

  /** The item as the order and menu queries load it: live groups with their live choices. */
  function LiveItem(item: MenuItem): MenuItem {
    item.(groups := LiveGroups(item.groups))
  }

  function Reduced(g: Group): Group {
    g.(choices := Filter(g.choices, IsLiveChoice))
  }

  function LiveGroups(groups: seq<Group>): seq<Group> {
    if groups == [] then []
    else
      var g := groups[|groups| - 1];
      LiveGroups(groups[..|groups| - 1])
      + if IsLiveGroup(g) then [Reduced(g)] else []
  }

  // ---- select ranges ----

  /** The ranges the admin screens let through. */
  predicate ValidRange(g: Group) {
    g.minSelect >= 0 && (g.maxSelect.Some? ==> g.maxSelect.value >= 1 && g.minSelect <= g.maxSelect.value)
  }

  predicate CountOk(g: Group, count: int) {
    g.minSelect <= count && (g.maxSelect.Some? ==> count <= g.maxSelect.value)
  }

  // ---- the validator ----

  predicate HasGroup(item: MenuItem, groupId: Id) {
    exists i | 0 <= i < |item.groups| :: item.groups[i].id == groupId
  }

  /** What is wrong with one chosen id, if anything. */
  function ChoiceProblem(item: MenuItem, id: Id, rows: map<Id, ChoiceRow>): Option<Problem> {
    if id !in rows || !rows[id].choice.active || rows[id].choice.deleted
       || !HasGroup(item, rows[id].groupId) || rows[id].menuItemId != item.id then Some(Invalid)
    else if IsSoldOut(rows[id].choice) then Some(SoldOut)
    else None
  }

  function FirstChoiceProblem(item: MenuItem, ids: seq<Id>, rows: map<Id, ChoiceRow>): (p: Option<Problem>)
    ensures p == None <==> forall i | 0 <= i < |ids| :: ChoiceProblem(item, ids[i], rows) == None
  {
    if ids == [] then None
    else
      var before := FirstChoiceProblem(item, ids[..|ids| - 1], rows);
      if before != None then before else ChoiceProblem(item, ids[|ids| - 1], rows)
  }

  function CountIn(ids: seq<Id>, groupId: Id, rows: map<Id, ChoiceRow>): nat {
    if ids == [] then 0
    else
      var last := ids[|ids| - 1];
      CountIn(ids[..|ids| - 1], groupId, rows) + if last in rows && rows[last].groupId == groupId then 1 else 0
  }

  predicate Selectable(c: Choice) {
    c.active && !IsSoldOut(c)
  }

  function GroupProblem(g: Group, count: int): Option<Problem> {
    if CountOk(g, count) then None
    else if count < g.minSelect && |Filter(g.choices, Selectable)| < g.minSelect then Some(Unavailable)
    else Some(CountInvalid)
  }

  function FirstGroupProblem(groups: seq<Group>, ids: seq<Id>, rows: map<Id, ChoiceRow>): (p: Option<Problem>)
    ensures p == None <==> forall i | 0 <= i < |groups| :: CountOk(groups[i], CountIn(ids, groups[i].id, rows))
  {
    if groups == [] then None
    else
      var before := FirstGroupProblem(groups[..|groups| - 1], ids, rows);
      if before != None then before
      else GroupProblem(groups[|groups| - 1], CountIn(ids, groups[|groups| - 1].id, rows))
  }

  function Validation(item: MenuItem, ids: seq<Id>, rows: map<Id, ChoiceRow>): Verdict {
    if !Distinct(ids) then Rejected(Duplicate)
    else
      var bad := FirstChoiceProblem(item, ids, rows);
      if bad.Some? then Rejected(bad.value)
      else
        var group := FirstGroupProblem(item.groups, ids, rows);
        if group.Some? then Rejected(group.value)
        else Accepted(seq(|ids|, i requires 0 <= i < |ids| =>
               assert ChoiceProblem(item, ids[i], rows) == None; rows[ids[i]].choice))
  }

  /** How many choices of a group have been counted so far. */
  function Counted(selectedByGroup: map<Id, nat>, g: Id): nat {
    if g in selectedByGroup then selectedByGroup[g] else 0
  }

  method CollectChoices(item: MenuItem, ids: seq<Id>, rows: map<Id, ChoiceRow>)
    returns (problem: Option<Problem>, selectedByGroup: map<Id, nat>, options: seq<Choice>)
    ensures problem == FirstChoiceProblem(item, ids, rows)
    ensures problem == None ==>
              && |options| == |ids|
              && (forall j | 0 <= j < |ids| :: ids[j] in rows && options[j] == rows[ids[j]].choice)
              && forall g :: Counted(selectedByGroup, g) == CountIn(ids, g, rows)
  {
    selectedByGroup, options := map[], [];
    for i := 0 to |ids|
      invariant FirstChoiceProblem(item, ids[..i], rows) == None
      invariant |options| == i
      invariant forall j | 0 <= j < i :: ids[j] in rows && options[j] == rows[ids[j]].choice
      invariant forall g :: Counted(selectedByGroup, g) == CountIn(ids[..i], g, rows)
    {
      assert ids[..i + 1][..i] == ids[..i];
      problem := ChoiceProblem(item, ids[i], rows);
      if problem.Some? {
        ProblemStays(item, ids, rows, i + 1);
        return;
      }
      var row := rows[ids[i]];
      selectedByGroup := selectedByGroup[row.groupId := Counted(selectedByGroup, row.groupId) + 1];
      options := options + [row.choice];
    }
    assert ids[..|ids|] == ids;
    problem := None;
  }

  method ValidateItemOptions(item: MenuItem, ids: seq<Id>, rows: map<Id, ChoiceRow>) returns (r: Verdict)
    ensures r == Validation(item, ids, rows)
  {
    var distinct := AllDistinct(ids);
    if !distinct {
      return Rejected(Duplicate);
    }
    var problem, selectedByGroup, options := CollectChoices(item, ids, rows);
    if problem.Some? {
      return Rejected(problem.value);
    }
    for i := 0 to |item.groups|
      invariant FirstGroupProblem(item.groups[..i], ids, rows) == None
    {
      assert item.groups[..i + 1][..i] == item.groups[..i];
      var g := item.groups[i];
      var count := Counted(selectedByGroup, g.id);
      if !CountOk(g, count) {
        GroupProblemStays(item.groups, ids, rows, i + 1);
        if count < g.minSelect && |Filter(g.choices, Selectable)| < g.minSelect {
          return Rejected(Unavailable);
        }
        return Rejected(CountInvalid);
      }
    }
    assert item.groups[..|item.groups|] == item.groups;
    r := Accepted(options);
  }

  lemma {:induction false} ProblemStays(item: MenuItem, ids: seq<Id>, rows: map<Id, ChoiceRow>, k: nat)
    requires k <= |ids| && FirstChoiceProblem(item, ids[..k], rows) != None
    ensures FirstChoiceProblem(item, ids, rows) == FirstChoiceProblem(item, ids[..k], rows)
    decreases |ids|
  {
    if k < |ids| {
      assert ids[..|ids| - 1][..k] == ids[..k];
      ProblemStays(item, ids[..|ids| - 1], rows, k);
    } else {
      assert ids[..k] == ids;
    }
  }

  lemma {:induction false} GroupProblemStays(groups: seq<Group>, ids: seq<Id>, rows: map<Id, ChoiceRow>, k: nat)
    requires k <= |groups| && FirstGroupProblem(groups[..k], ids, rows) != None
    ensures FirstGroupProblem(groups, ids, rows) == FirstGroupProblem(groups[..k], ids, rows)
    decreases |groups|
  {
    if k < |groups| {
      assert groups[..|groups| - 1][..k] == groups[..k];
      GroupProblemStays(groups[..|groups| - 1], ids, rows, k);
    } else {
      assert groups[..k] == groups;
    }
  }

  // ---- exactly what is accepted ----

  /** The lookup agrees with the item: each choice row sits in one group of one item. */
  ghost predicate Consistent(item: MenuItem, rows: map<Id, ChoiceRow>) {
    && (forall i, j | 0 <= i < j < |item.groups| :: item.groups[i].id != item.groups[j].id)
    && (forall i, k | 0 <= i < |item.groups| && 0 <= k < |item.groups[i].choices| ::
          RowOf(item, i, item.groups[i].choices[k], rows))
    && (forall i, j, k | 0 <= i < |item.groups| && 0 <= j < k < |item.groups[i].choices| ::
          item.groups[i].choices[j].id != item.groups[i].choices[k].id)
    && (forall id | id in rows && rows[id].menuItemId == item.id :: SitsIn(item, id, rows[id]))
  }

  ghost predicate RowOf(item: MenuItem, i: nat, c: Choice, rows: map<Id, ChoiceRow>)
    requires i < |item.groups|
  {
    c.id in rows && rows[c.id] == ChoiceRow(c, item.groups[i].id, item.id)
  }

  ghost predicate SitsIn(item: MenuItem, id: Id, row: ChoiceRow) {
    row.choice.id == id && exists i | 0 <= i < |item.groups| :: InGroup(item.groups[i], row)
  }

  ghost predicate InGroup(g: Group, row: ChoiceRow) {
    g.id == row.groupId && row.choice in g.choices
  }

  /** A choice that may be ordered: live, not sold out, in a live group of this item. */
  ghost predicate Orderable(item: MenuItem, id: Id) {
    exists i | 0 <= i < |item.groups| :: OrderableIn(item.groups[i], id)
  }

  ghost predicate OrderableIn(g: Group, id: Id) {
    IsLiveGroup(g) && exists c | c in g.choices :: c.id == id && IsLiveChoice(c) && !IsSoldOut(c)
  }

  /** Whether an id names a choice of the group. */
  function Names(g: Group): Id -> bool {
    id => exists c | c in g.choices :: c.id == id
  }

  /** How many of the ids name a choice of the group. */
  function Picked(ids: seq<Id>, g: Group): nat {
    |Filter(ids, Names(g))|
  }

  /** The rule in words: no repeats, only orderable choices, and every live group's count in range. */
  ghost predicate Acceptable(item: MenuItem, ids: seq<Id>) {
    && Distinct(ids)
    && (forall i | 0 <= i < |ids| :: Orderable(item, ids[i]))
    && (forall i | 0 <= i < |item.groups| && IsLiveGroup(item.groups[i]) ::
          CountOk(item.groups[i], Picked(ids, item.groups[i])))
  }

  lemma {:induction false} LiveGroupsMembers(groups: seq<Group>)
    ensures forall g | g in LiveGroups(groups) ::
              exists h | h in groups :: IsLiveGroup(h) && g == Reduced(h)
    ensures forall h | h in groups && IsLiveGroup(h) :: Reduced(h) in LiveGroups(groups)
  {
    if groups != [] {
      LiveGroupsMembers(groups[..|groups| - 1]);
      assert groups == groups[..|groups| - 1] + [groups[|groups| - 1]];
    }
  }

  lemma LiveGroupById(item: MenuItem, groupId: Id)
    ensures HasGroup(LiveItem(item), groupId)
        <==> exists i | 0 <= i < |item.groups| :: IsLiveGroup(item.groups[i]) && item.groups[i].id == groupId
  {
    LiveGroupsMembers(item.groups);
    var live := LiveGroups(item.groups);
    if HasGroup(LiveItem(item), groupId) {
      var i :| 0 <= i < |live| && live[i].id == groupId;
      assert live[i] in live;
    }
    if i :| 0 <= i < |item.groups| && IsLiveGroup(item.groups[i]) && item.groups[i].id == groupId {
      assert Reduced(item.groups[i]) in live;
    }
  }

  lemma ChoiceOkIffOrderable(item: MenuItem, id: Id, rows: map<Id, ChoiceRow>)
    requires Consistent(item, rows)
    ensures ChoiceProblem(LiveItem(item), id, rows) == None <==> Orderable(item, id)
  {
    if id in rows {
      LiveGroupById(item, rows[id].groupId);
    }
    if ChoiceProblem(LiveItem(item), id, rows) == None {
      assert SitsIn(item, id, rows[id]);
      var i :| 0 <= i < |item.groups| && InGroup(item.groups[i], rows[id]);
      assert OrderableIn(item.groups[i], id);
    }
    if Orderable(item, id) {
      var i :| 0 <= i < |item.groups| && OrderableIn(item.groups[i], id);
      var c :| c in item.groups[i].choices && c.id == id && IsLiveChoice(c) && !IsSoldOut(c);
      assert RowOf(item, i, c, rows);
    }
  }

  lemma {:induction false} CountIsPicked(item: MenuItem, ids: seq<Id>, rows: map<Id, ChoiceRow>, i: nat)
    requires Consistent(item, rows) && i < |item.groups|
    requires forall k | 0 <= k < |ids| :: Orderable(item, ids[k])
    ensures CountIn(ids, item.groups[i].id, rows) == Picked(ids, item.groups[i])
  {
    if ids != [] {
      CountIsPicked(item, ids[..|ids| - 1], rows, i);
      var id, g := ids[|ids| - 1], item.groups[i];
      var k :| 0 <= k < |item.groups| && OrderableIn(item.groups[k], id);
      var c :| c in item.groups[k].choices && c.id == id && IsLiveChoice(c) && !IsSoldOut(c);
      assert RowOf(item, k, c, rows);
      if d :| d in g.choices && d.id == id {
        assert RowOf(item, i, d, rows);
      }
    }
  }

  /** The validator accepts exactly the acceptable lists, and then returns the chosen rows in order. */
  lemma AcceptsExactly(item: MenuItem, ids: seq<Id>, rows: map<Id, ChoiceRow>)
    requires Consistent(item, rows)
    ensures Validation(LiveItem(item), ids, rows).Accepted? <==> Acceptable(item, ids)
    ensures Acceptable(item, ids) ==>
              && |Validation(LiveItem(item), ids, rows).options| == |ids|
              && forall i | 0 <= i < |ids| :: Validation(LiveItem(item), ids, rows).options[i].id == ids[i]
  {
    forall i | 0 <= i < |ids|
      ensures ChoiceProblem(LiveItem(item), ids[i], rows) == None <==> Orderable(item, ids[i])
    {
      ChoiceOkIffOrderable(item, ids[i], rows);
    }
    if FirstChoiceProblem(LiveItem(item), ids, rows) == None {
      CountsExactly(item, ids, rows);
      forall i | 0 <= i < |ids| ensures ids[i] in rows && rows[ids[i]].choice.id == ids[i] {
        assert ChoiceProblem(LiveItem(item), ids[i], rows) == None;
        assert SitsIn(item, ids[i], rows[ids[i]]);
      }
    }
  }

  /** The returned rows are the item's own choices. */
  lemma AcceptedAreStored(item: MenuItem, ids: seq<Id>, rows: map<Id, ChoiceRow>)
    requires Consistent(item, rows) && Validation(LiveItem(item), ids, rows).Accepted?
    ensures var options := Validation(LiveItem(item), ids, rows).options;
            && |options| == |ids|
            && forall k | 0 <= k < |ids| :: exists g | g in item.groups :: options[k] in g.choices && options[k].id == ids[k]
  {
    forall k | 0 <= k < |ids|
      ensures exists g | g in item.groups ::
                rows[ids[k]].choice in g.choices && rows[ids[k]].choice.id == ids[k]
    {
      assert ChoiceProblem(LiveItem(item), ids[k], rows) == None;
      assert SitsIn(item, ids[k], rows[ids[k]]);
      var i :| 0 <= i < |item.groups| && InGroup(item.groups[i], rows[ids[k]]);
      assert item.groups[i] in item.groups;
    }
  }

  lemma CountsExactly(item: MenuItem, ids: seq<Id>, rows: map<Id, ChoiceRow>)
    requires Consistent(item, rows)
    requires forall i | 0 <= i < |ids| :: Orderable(item, ids[i])
    ensures FirstGroupProblem(LiveItem(item).groups, ids, rows) == None
        <==> forall i | 0 <= i < |item.groups| && IsLiveGroup(item.groups[i]) ::
               CountOk(item.groups[i], Picked(ids, item.groups[i]))
  {
    var live := LiveGroups(item.groups);
    forall i | 0 <= i < |item.groups| ensures CountIn(ids, item.groups[i].id, rows) == Picked(ids, item.groups[i]) {
      CountIsPicked(item, ids, rows, i);
    }
    if FirstGroupProblem(live, ids, rows) == None {
      forall i | 0 <= i < |item.groups| && IsLiveGroup(item.groups[i])
        ensures CountOk(item.groups[i], Picked(ids, item.groups[i]))
      {
        var k := PlaceInLive(item, i);
      }
    }
    if forall i | 0 <= i < |item.groups| && IsLiveGroup(item.groups[i]) ::
         CountOk(item.groups[i], Picked(ids, item.groups[i])) {
      forall k | 0 <= k < |live| ensures CountOk(live[k], CountIn(ids, live[k].id, rows)) {
        var i := PlaceInItem(item, k);
      }
    }
  }

  lemma PlaceInLive(item: MenuItem, i: nat) returns (k: nat)
    requires i < |item.groups| && IsLiveGroup(item.groups[i])
    ensures k < |LiveGroups(item.groups)| && LiveGroups(item.groups)[k] == Reduced(item.groups[i])
  {
    LiveGroupsMembers(item.groups);
    assert item.groups[i] in item.groups;
    k :| 0 <= k < |LiveGroups(item.groups)| && LiveGroups(item.groups)[k] == Reduced(item.groups[i]);
  }

  lemma PlaceInItem(item: MenuItem, k: nat) returns (i: nat)
    requires k < |LiveGroups(item.groups)|
    ensures i < |item.groups| && IsLiveGroup(item.groups[i]) && LiveGroups(item.groups)[k] == Reduced(item.groups[i])
  {
    LiveGroupsMembers(item.groups);
    assert LiveGroups(item.groups)[k] in LiveGroups(item.groups);
    var h :| h in item.groups && IsLiveGroup(h) && LiveGroups(item.groups)[k] == Reduced(h);
    i :| 0 <= i < |item.groups| && item.groups[i] == h;
  }

  // ---- the fast check ----

  function Sellable(c: Choice): bool {
    !IsSoldOut(c)
  }

  predicate IsBlocked(g: Group) {
    g.minSelect > 0 && |Filter(g.choices, Sellable)| < g.minSelect
  }

  /** Live groups that cannot be filled, by id; the source returns their names. */
  function BlockedRequiredGroups(item: MenuItem): seq<Group> {
    Filter(item.groups, IsBlocked)
  }

  /** The ids of the orderable choices of a group, in order. */
  function OrderableIds(g: Group): (ids: seq<Id>)
    ensures |ids| == |Filter(Filter(g.choices, IsLiveChoice), Sellable)|
  {
    var cs := Filter(Filter(g.choices, IsLiveChoice), Sellable);
    seq(|cs|, i requires 0 <= i < |cs| => cs[i].id)
  }

  lemma {:induction false} FilterKeepsDistinct(cs: seq<Choice>, p: Choice -> bool)
    requires forall j, k | 0 <= j < k < |cs| :: cs[j].id != cs[k].id
    ensures forall j, k | 0 <= j < k < |Filter(cs, p)| :: Filter(cs, p)[j].id != Filter(cs, p)[k].id
    ensures forall j | 0 <= j < |Filter(cs, p)| :: Filter(cs, p)[j] in cs && p(Filter(cs, p)[j])
  {
    if cs != [] {
      FilterKeepsDistinct(cs[..|cs| - 1], p);
    }
  }

  lemma OrderableIdsFacts(item: MenuItem, i: nat, rows: map<Id, ChoiceRow>)
    requires Consistent(item, rows) && i < |item.groups|
    ensures Distinct(OrderableIds(item.groups[i]))
    ensures forall id :: id in OrderableIds(item.groups[i]) <==>
              exists c | c in item.groups[i].choices :: c.id == id && IsLiveChoice(c) && !IsSoldOut(c)
  {
    var g := item.groups[i];
    FilterKeepsDistinct(g.choices, IsLiveChoice);
    FilterKeepsDistinct(Filter(g.choices, IsLiveChoice), Sellable);
    var cs := Filter(Filter(g.choices, IsLiveChoice), Sellable);
    forall c | c in g.choices && IsLiveChoice(c) && !IsSoldOut(c) ensures c.id in OrderableIds(g) {
      FilterMember(g.choices, IsLiveChoice, c);
      FilterMember(Filter(g.choices, IsLiveChoice), Sellable, c);
      var k :| 0 <= k < |cs| && cs[k] == c;
      assert OrderableIds(g)[k] == c.id;
    }
  }

  /** The smallest number of choices a group's minimum allows. */
  function Need(g: Group): nat {
    if g.minSelect > 0 then g.minSelect else 0
  }

  /** The first orderable choices of every group, as many as it needs. */
  function Pick(groups: seq<Group>): seq<Id> {
    if groups == [] then []
    else
      var g := groups[|groups| - 1];
      Pick(groups[..|groups| - 1]) + PickOne(g)
  }

  /** Every live group has enough orderable choices for its minimum. */
  ghost predicate Fillable(item: MenuItem) {
    forall i | 0 <= i < |item.groups| && IsLiveGroup(item.groups[i]) ::
      item.groups[i].minSelect <= |OrderableIds(item.groups[i])|
  }

  function PickOne(g: Group): seq<Id> {
    if IsLiveGroup(g) && g.minSelect <= |OrderableIds(g)| then OrderableIds(g)[..Need(g)] else []
  }

  lemma PickStep(groups: seq<Group>, n: nat)
    requires 0 < n <= |groups|
    ensures Pick(groups[..n]) == Pick(groups[..n - 1]) + PickOne(groups[n - 1])
  {
    assert groups[..n][..n - 1] == groups[..n - 1];
  }

  ghost predicate PickedBelow(item: MenuItem, n: nat, id: Id)
    requires n <= |item.groups|
  {
    exists i | 0 <= i < n :: PickedFrom(item.groups[i], id)
  }

  lemma {:induction false} PickMembers(item: MenuItem, n: nat)
    requires n <= |item.groups|
    ensures forall id | id in Pick(item.groups[..n]) :: PickedBelow(item, n, id)
  {
    if n > 0 {
      PickStep(item.groups, n);
      PickMembers(item, n - 1);
      forall id | id in Pick(item.groups[..n]) ensures PickedBelow(item, n, id) {
        if id in PickOne(item.groups[n - 1]) {
          assert PickedFrom(item.groups[n - 1], id);
        } else {
          assert PickedBelow(item, n - 1, id);
        }
      }
    }
  }

  lemma {:induction false} PickDistinct(item: MenuItem, n: nat, rows: map<Id, ChoiceRow>)
    requires Consistent(item, rows) && n <= |item.groups|
    ensures Distinct(Pick(item.groups[..n]))
  {
    if n > 0 {
      PickStep(item.groups, n);
      PickDistinct(item, n - 1, rows);
      NextPickFresh(item, n - 1, rows);
      PickOneDistinct(item, n - 1, rows);
      AppendDistinct(Pick(item.groups[..n - 1]), PickOne(item.groups[n - 1]));
    }
  }

  lemma NextPickFresh(item: MenuItem, n: nat, rows: map<Id, ChoiceRow>)
    requires Consistent(item, rows) && n < |item.groups|
    ensures forall id | id in Pick(item.groups[..n]) :: id !in PickOne(item.groups[n])
  {
    PickMembers(item, n);
    forall id | id in Pick(item.groups[..n]) ensures id !in PickOne(item.groups[n]) {
      PickOneFresh(item, n, id, rows);
    }
  }

  lemma PickOneFresh(item: MenuItem, n: nat, id: Id, rows: map<Id, ChoiceRow>)
    requires Consistent(item, rows) && n < |item.groups| && PickedBelow(item, n, id)
    ensures id !in PickOne(item.groups[n])
  {
    var i :| 0 <= i < n && PickedFrom(item.groups[i], id);
    NoSharedChoice(item, i, n, id, rows);
    if id in PickOne(item.groups[n]) {
      OrderableIsNamed(item.groups[n], id);
    }
  }

  lemma PickOneDistinct(item: MenuItem, n: nat, rows: map<Id, ChoiceRow>)
    requires Consistent(item, rows) && n < |item.groups|
    ensures Distinct(PickOne(item.groups[n]))
  {
    OrderableIdsFacts(item, n, rows);
  }

  lemma AppendDistinct(a: seq<Id>, b: seq<Id>)
    requires Distinct(a) && Distinct(b) && forall id | id in a :: id !in b
    ensures Distinct(a + b)
  {
    forall i, j | 0 <= i < j < |a + b| ensures (a + b)[i] != (a + b)[j] {
      if i < |a| <= j {
        assert (a + b)[i] in a && (a + b)[j] in b;
      }
    }
  }

  ghost predicate PickedFrom(g: Group, id: Id) {
    IsLiveGroup(g) && id in OrderableIds(g)
  }

  lemma {:induction false} PickCounts(item: MenuItem, n: nat, i: nat, rows: map<Id, ChoiceRow>)
    requires Consistent(item, rows) && n <= |item.groups| && Fillable(item)
    requires i < |item.groups| && IsLiveGroup(item.groups[i])
    ensures Picked(Pick(item.groups[..n]), item.groups[i]) == if i < n then Need(item.groups[i]) else 0
  {
    if n > 0 {
      PickStep(item.groups, n);
      PickCounts(item, n - 1, i, rows);
      PickOneSize(item.groups[n - 1]);
      PickedFromGroup(item, i, n - 1, Pick(item.groups[..n - 1]), PickOne(item.groups[n - 1]), rows);
    }
  }

  lemma PickOneSize(g: Group)
    ensures forall id | id in PickOne(g) :: id in OrderableIds(g)
    ensures IsLiveGroup(g) && g.minSelect <= |OrderableIds(g)| ==> |PickOne(g)| == Need(g)
  {
  }

  lemma NoSharedChoice(item: MenuItem, i: nat, j: nat, id: Id, rows: map<Id, ChoiceRow>)
    requires Consistent(item, rows) && i < |item.groups| && j < |item.groups| && i != j
    requires id in OrderableIds(item.groups[i])
    ensures !Names(item.groups[j])(id)
  {
    OrderableIsNamed(item.groups[i], id);
    var d :| d in item.groups[i].choices && d.id == id;
    assert RowOf(item, i, d, rows);
    forall c | c in item.groups[j].choices ensures c.id != id {
      assert RowOf(item, j, c, rows);
    }
  }

  lemma OrderableIsNamed(g: Group, id: Id)
    requires id in OrderableIds(g)
    ensures Names(g)(id)
  {
    var live := Filter(g.choices, IsLiveChoice);
    var cs := Filter(live, Sellable);
    var k :| 0 <= k < |cs| && cs[k].id == id;
    FilterMember(live, Sellable, cs[k]);
    FilterMember(g.choices, IsLiveChoice, cs[k]);
  }

  /** Appending orderable ids of group `j` raises group `j`'s count by their number and no other count. */
  lemma PickedFromGroup(item: MenuItem, i: nat, j: nat, before: seq<Id>, add: seq<Id>, rows: map<Id, ChoiceRow>)
    requires Consistent(item, rows) && i < |item.groups| && j < |item.groups|
    requires forall id | id in add :: id in OrderableIds(item.groups[j])
    ensures Picked(before + add, item.groups[i]) == Picked(before, item.groups[i]) + if i == j then |add| else 0
  {
    var names := Names(item.groups[i]);
    FilterConcat(before, add, names);
    if i == j {
      forall id | id in add ensures names(id) {
        OrderableIsNamed(item.groups[j], id);
      }
      FilterAll(add, names);
    } else {
      forall id | id in add ensures !names(id) {
        NoSharedChoice(item, j, i, id, rows);
      }
      FilterNone(add, names);
    }
  }

  function Elements(ids: seq<Id>): (s: set<Id>)
    ensures |s| <= |ids|
    ensures forall id :: id in s <==> id in ids
    ensures Distinct(ids) ==> |s| == |ids|
  {
    if ids == [] then {}
    else
      var front := ids[..|ids| - 1];
      assert ids == front + [ids[|ids| - 1]];
      Elements(front) + {ids[|ids| - 1]}
  }

  /** Pigeonhole: distinct ids drawn from a list are no more than the list. */
  lemma DistinctWithin(a: seq<Id>, b: seq<Id>)
    requires Distinct(a) && forall id | id in a :: id in b
    ensures |a| <= |b|
  {
    assert Elements(b) == Elements(a) + (Elements(b) - Elements(a));
  }

  lemma {:induction false} FilterIdsDistinct(ids: seq<Id>, p: Id -> bool)
    requires Distinct(ids)
    ensures Distinct(Filter(ids, p))
    ensures forall id | id in Filter(ids, p) :: id in ids && p(id)
  {
    if ids != [] {
      FilterIdsDistinct(ids[..|ids| - 1], p);
    }
  }

  lemma AcceptableFills(item: MenuItem, ids: seq<Id>, i: nat, rows: map<Id, ChoiceRow>)
    requires Consistent(item, rows) && Acceptable(item, ids)
    requires i < |item.groups| && IsLiveGroup(item.groups[i])
    ensures item.groups[i].minSelect <= |OrderableIds(item.groups[i])|
  {
    var g := item.groups[i];
    FilterIdsDistinct(ids, Names(g));
    forall id | id in Filter(ids, Names(g)) ensures id in OrderableIds(g) {
      PickedIsOrderable(item, ids, i, id, rows);
    }
    DistinctWithin(Filter(ids, Names(g)), OrderableIds(g));
  }

  lemma PickedIsOrderable(item: MenuItem, ids: seq<Id>, i: nat, id: Id, rows: map<Id, ChoiceRow>)
    requires Consistent(item, rows) && Acceptable(item, ids) && i < |item.groups|
    requires id in ids && Names(item.groups[i])(id)
    ensures id in OrderableIds(item.groups[i])
  {
    OrderableIdsFacts(item, i, rows);
    var c :| c in item.groups[i].choices && c.id == id;
    var k :| 0 <= k < |ids| && ids[k] == id;
    assert Orderable(item, ids[k]);
    var j :| 0 <= j < |item.groups| && OrderableIn(item.groups[j], id);
    var d :| d in item.groups[j].choices && d.id == id && IsLiveChoice(d) && !IsSoldOut(d);
    assert RowOf(item, i, c, rows) && RowOf(item, j, d, rows);
  }

  /** Nothing is blocked exactly when every live group has enough orderable choices. */
  lemma BlockedExactly(item: MenuItem)
    ensures BlockedRequiredGroups(LiveItem(item)) == []
        <==> forall i | 0 <= i < |item.groups| && IsLiveGroup(item.groups[i]) ::
               item.groups[i].minSelect <= |OrderableIds(item.groups[i])|
  {
    var live := LiveGroups(item.groups);
    LiveGroupsMembers(item.groups);
    if forall g | g in live :: !IsBlocked(g) {
      FilterNone(live, IsBlocked);
      forall i | 0 <= i < |item.groups| && IsLiveGroup(item.groups[i])
        ensures item.groups[i].minSelect <= |OrderableIds(item.groups[i])|
      {
        assert item.groups[i] in item.groups;
        assert !IsBlocked(Reduced(item.groups[i]));
      }
    } else {
      var g :| g in live && IsBlocked(g);
      FilterMember(live, IsBlocked, g);
      var h :| h in item.groups && IsLiveGroup(h) && g == Reduced(h);
      var i :| 0 <= i < |item.groups| && item.groups[i] == h;
    }
  }

  /** What is picked for unblocked groups is accepted if no live group's maximum forbids it. */
  lemma PickAccepted(item: MenuItem, rows: map<Id, ChoiceRow>)
    requires Consistent(item, rows) && Fillable(item)
    requires forall i | 0 <= i < |item.groups| && IsLiveGroup(item.groups[i]) :: CountOk(item.groups[i], Need(item.groups[i]))
    ensures Validation(LiveItem(item), Pick(item.groups), rows).Accepted?
  {
    var ids := Pick(item.groups);
    assert item.groups[..|item.groups|] == item.groups;
    PickDistinct(item, |item.groups|, rows);
    PickMembers(item, |item.groups|);
    forall i | 0 <= i < |item.groups| && IsLiveGroup(item.groups[i])
      ensures CountOk(item.groups[i], Picked(ids, item.groups[i]))
    {
      PickCounts(item, |item.groups|, i, rows);
    }
    forall k | 0 <= k < |ids| ensures Orderable(item, ids[k]) {
      assert ids[k] in ids && PickedBelow(item, |item.groups|, ids[k]);
      var i :| 0 <= i < |item.groups| && PickedFrom(item.groups[i], ids[k]);
      OrderableIdsFacts(item, i, rows);
      assert OrderableIn(item.groups[i], ids[k]);
    }
    AcceptsExactly(item, ids, rows);
  }

  /**
   Whatever the ranges are: some list of choices is accepted exactly when no group is reported and no
   live group's maximum lies below what its minimum needs.
   */
  lemma OrderableExactly(item: MenuItem, rows: map<Id, ChoiceRow>)
    requires Consistent(item, rows)
    ensures (exists ids :: Validation(LiveItem(item), ids, rows).Accepted?)
        <==> && BlockedRequiredGroups(LiveItem(item)) == []
             && forall i | 0 <= i < |item.groups| && IsLiveGroup(item.groups[i]) && item.groups[i].maxSelect.Some? ::
                  Need(item.groups[i]) <= item.groups[i].maxSelect.value
  {
    BlockedExactly(item);
    if ids :| Validation(LiveItem(item), ids, rows).Accepted? {
      AcceptsExactly(item, ids, rows);
      forall i | 0 <= i < |item.groups| && IsLiveGroup(item.groups[i])
        ensures item.groups[i].minSelect <= |OrderableIds(item.groups[i])| && CountOk(item.groups[i], Need(item.groups[i]))
      {
        AcceptableFills(item, ids, i, rows);
      }
    } else if BlockedRequiredGroups(LiveItem(item)) == [] {
      if forall i | 0 <= i < |item.groups| && IsLiveGroup(item.groups[i]) :: CountOk(item.groups[i], Need(item.groups[i])) {
        PickAccepted(item, rows);
      }
    }
  }

  /**
   The fast check agrees with the full validator: an item with valid ranges has no blocked group
   exactly when some list of choices is accepted.
   */
  lemma UnblockedIffOrderable(item: MenuItem, rows: map<Id, ChoiceRow>)
    requires Consistent(item, rows)
    requires forall i | 0 <= i < |item.groups| :: ValidRange(item.groups[i])
    ensures BlockedRequiredGroups(LiveItem(item)) == []
        <==> exists ids :: Validation(LiveItem(item), ids, rows).Accepted?
  {
    OrderableExactly(item, rows);
  }
}
