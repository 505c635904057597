/** The shopping page (app/shopping/page.tsx): the plan query's filter, the
    aggregation loop of `generateShoppingList`, the page state it updates, and
    the clipboard export text. */
module Shopping {
  import opened Wrappers
  import opened Text
  import opened Database
  import opened Aggregation

  /** The plan query's filters: `planned_date` inside the inclusive window
      (rendered as text order on `yyyy-MM-dd`, which `FullDateOrder` shows is
      chronological order) and the stored status text `planned`,
      which only the `Planned` status has (`StatusNamesDistinct`). */
  predicate Contributes(p: JoinedPlan, startDate: string, endDate: string) {
    LexLe(startDate, p.plan.planned_date) && LexLe(p.plan.planned_date, endDate) && StatusName(p.plan.status) == "planned"
  }

  /** The plans the query returns, in the order the store holds them. */
  function SelectPlans(store: seq<JoinedPlan>, startDate: string, endDate: string): (r: seq<JoinedPlan>)
    ensures |r| <= |store|
  {
    if store == [] then []
    else
      var rest := SelectPlans(store[1..], startDate, endDate);
      if Contributes(store[0], startDate, endDate) then [store[0]] + rest else rest
  }

  /** The query returns each stored row that passes the filters, as often as
      it is stored, and no other row. */
  lemma {:induction false} SelectPlansMembers(store: seq<JoinedPlan>, startDate: string, endDate: string)
    ensures forall p :: p in SelectPlans(store, startDate, endDate) <==> p in store && Contributes(p, startDate, endDate)
    ensures forall p :: multiset(SelectPlans(store, startDate, endDate))[p] ==
                        if Contributes(p, startDate, endDate) then multiset(store)[p] else 0
  {
    if store != [] {
      SelectPlansMembers(store[1..], startDate, endDate);
      assert store == [store[0]] + store[1..];
      assert multiset(store) == multiset{store[0]} + multiset(store[1..]);
    }
  }

  /** The first stored row is kept or dropped on its own. */
  lemma SelectPlansFirst(store: seq<JoinedPlan>, startDate: string, endDate: string)
    requires store != []
    ensures SelectPlans(store, startDate, endDate) ==
            (if Contributes(store[0], startDate, endDate) then [store[0]] else []) + SelectPlans(store[1..], startDate, endDate)
  {
  }

  /** The query filters row by row: the rows kept from two runs of the store
      are those kept from the first run followed by those kept from the
      second, so the store's order is kept. */
  lemma {:induction false} SelectPlansAppend(a: seq<JoinedPlan>, b: seq<JoinedPlan>, startDate: string, endDate: string)
    ensures SelectPlans(a + b, startDate, endDate) == SelectPlans(a, startDate, endDate) + SelectPlans(b, startDate, endDate)
  {
    if a == [] {
      assert a + b == b;
    } else {
      var head := if Contributes(a[0], startDate, endDate) then [a[0]] else [];
      var ab := a + b;
      assert ab[0] == a[0];
      assert ab[1..] == a[1..] + b;
      calc {
        SelectPlans(ab, startDate, endDate);
        { SelectPlansFirst(ab, startDate, endDate); }
        head + SelectPlans(a[1..] + b, startDate, endDate);
        { SelectPlansAppend(a[1..], b, startDate, endDate); }
        head + (SelectPlans(a[1..], startDate, endDate) + SelectPlans(b, startDate, endDate));
        (head + SelectPlans(a[1..], startDate, endDate)) + SelectPlans(b, startDate, endDate);
        { SelectPlansFirst(a, startDate, endDate); }
        SelectPlans(a, startDate, endDate) + SelectPlans(b, startDate, endDate);
      }
    }
  }

  // ---------------------------------------------------------------------------
  // The aggregation loop

  /** The stock and deficit fields of a row before `toBuy` is computed. */
  ghost function Pending(cs: seq<Contribution>, id: Id): IngredientNeed
    requires id in Ids(cs)
  {
    NeedFor(cs, id).(toBuy := 0.0)
  }

  /** The entry for `ingredient` once `qty` more of it is needed: created
      first when its id is new (stock from this record, nothing needed yet). */
  function Bumped(needs: map<Id, IngredientNeed>, ingredient: Ingredient, qty: real): IngredientNeed {
    var entry := if ingredient.id in needs then needs[ingredient.id]
                 else IngredientNeed(ingredient, 0.0, ingredient.stock_quantity, 0.0);
    entry.(totalNeeded := entry.totalNeeded + qty)
  }

  /** The `needs` dictionary after the contributions `cs`. */
  ghost function Tally(cs: seq<Contribution>): map<Id, IngredientNeed> {
    if cs == [] then map[]
    else
      var t := Tally(cs[..|cs| - 1]);
      var c := cs[|cs| - 1];
      t[c.ingredient.id := Bumped(t, c.ingredient, c.quantity)]
  }

  /** The dictionary holds exactly the ids asked for, each with its total and
      the stock of the record that introduced it. */
  lemma {:induction false} TallyMeaning(cs: seq<Contribution>)
    ensures forall id :: id in Tally(cs) <==> id in Ids(cs)
    ensures forall id :: id in Ids(cs) ==> Tally(cs)[id] == Pending(cs, id)
  {
    if cs != [] {
      var init, c := cs[..|cs| - 1], cs[|cs| - 1];
      assert init + [c] == cs;
      TallyMeaning(init);
      assert Ids(cs) == Ids(init) + [c.ingredient.id];
      forall id | id in Ids(cs) ensures Tally(cs)[id] == Pending(cs, id) {
        FirstIndexExtend(init, c, id);
        if id in Ids(init) {
          assert cs[FirstIndex(cs, id)] == init[FirstIndex(init, id)];
        } else {
          TotalForAbsent(init, id);
        }
      }
    }
  }

  /** One contribution more: the dictionary update and the key order update
      that the loop body performs. */
  lemma TallyStep(cs: seq<Contribution>, c: Contribution)
    ensures Tally(cs + [c]) == Tally(cs)[c.ingredient.id := Bumped(Tally(cs), c.ingredient, c.quantity)]
    ensures FirstSeenIds(cs + [c]) ==
              if c.ingredient.id in Tally(cs) then FirstSeenIds(cs) else FirstSeenIds(cs) + [c.ingredient.id]
  {
    assert (cs + [c])[..|cs + [c]| - 1] == cs;
    TallyMeaning(cs);
    FirstSeenIdsMembers(cs);
  }

  /** A failure in a prefix of the plans is a failure of all of them. */
  lemma {:induction false} PrefixFails(plans: seq<JoinedPlan>, n: nat)
    requires n <= |plans| && Contributions(plans[..n]).None?
    ensures Contributions(plans).None?
  {
    if n < |plans| {
      var init := plans[..|plans| - 1];
      assert init[..n] == plans[..n];
      PrefixFails(init, n);
    } else {
      assert plans[..n] == plans;
    }
  }

  /** One more line with its ingredient extends the contributions by one. */
  lemma LineStep(lines: seq<JoinedLine>, j: nat, multiplier: real, cs: seq<Contribution>, acc: seq<Contribution>)
    requires j < |lines| && lines[j].ingredients.Some?
    requires LineContributions(lines[..j], multiplier).Some?
    requires acc == cs + LineContributions(lines[..j], multiplier).value
    ensures LineContributions(lines[..j + 1], multiplier).Some?
    ensures cs + LineContributions(lines[..j + 1], multiplier).value ==
            acc + [Contribution(lines[j].ingredients.value, lines[j].line.quantity * multiplier)]
  {
    LineContributionsSnoc(lines, j, multiplier);
    var done := LineContributions(lines[..j], multiplier).value;
    var c := Contribution(lines[j].ingredients.value, lines[j].line.quantity * multiplier);
    assert LineContributions(lines[..j + 1], multiplier).value == done + [c];
    assert cs + (done + [c]) == acc + [c];
  }

  /** The inner `forEach` over one recipe's lines, adding `line.quantity *
      multiplier` of each joined ingredient to `needs` (an entry is created the
      first time its id is met). `failed` when a line's joined ingredient is
      missing, where the source throws. */
  method AddLines(lines: seq<JoinedLine>, multiplier: real, ghost cs: seq<Contribution>,
                  order: seq<Id>, needs: map<Id, IngredientNeed>)
    returns (failed: bool, order': seq<Id>, needs': map<Id, IngredientNeed>)
    requires order == FirstSeenIds(cs) && needs == Tally(cs)
    ensures failed <==> LineContributions(lines, multiplier).None?
    ensures !failed ==> order' == FirstSeenIds(cs + LineContributions(lines, multiplier).value)
    ensures !failed ==> needs' == Tally(cs + LineContributions(lines, multiplier).value)
  {
    order', needs' := order, needs;
    ghost var acc := cs;
    var j := 0;
    while j < |lines|
      invariant 0 <= j <= |lines|
      invariant LineContributions(lines[..j], multiplier).Some?
      invariant acc == cs + LineContributions(lines[..j], multiplier).value
      invariant order' == FirstSeenIds(acc) && needs' == Tally(acc)
    {
      var ri := lines[j];
      if ri.ingredients.None? {
        return true, order', needs';
      }
      var ingredient := ri.ingredients.value;
      var neededQty := ri.line.quantity * multiplier;
      ghost var c := Contribution(ingredient, neededQty);
      assert c == Contribution(lines[j].ingredients.value, lines[j].line.quantity * multiplier);
      LineStep(lines, j, multiplier, cs, acc);
      TallyStep(acc, c);
      if ingredient.id !in needs' {
        order' := order' + [ingredient.id];
      }
      needs' := needs'[ingredient.id := Bumped(needs', ingredient, neededQty)];
      acc := acc + [c];
      j := j + 1;
    }
    assert lines[..|lines|] == lines;
    failed := false;
  }

  /** The outer `forEach` over the plans. `failed` when any plan's joined
      recipe or joined ingredient is missing. */
  method Tabulate(plans: seq<JoinedPlan>) returns (failed: bool, order: seq<Id>, needs: map<Id, IngredientNeed>)
    ensures failed <==> Contributions(plans).None?
    ensures !failed ==> order == FirstSeenIds(Contributions(plans).value) && needs == Tally(Contributions(plans).value)
  {
    needs, order := map[], [];
    ghost var cs: seq<Contribution> := [];
    var i := 0;
    while i < |plans|
      invariant 0 <= i <= |plans|
      invariant Contributions(plans[..i]) == Some(cs)
      invariant order == FirstSeenIds(cs) && needs == Tally(cs)
    {
      var plan := plans[i];
      assert plans[..i + 1][..i] == plans[..i] && plans[..i + 1][i] == plan;
      if plan.recipes.None? {
        PrefixFails(plans, i + 1);
        return true, order, needs;
      }
      var lines := if plan.recipes.value.recipe_ingredients.Some? then plan.recipes.value.recipe_ingredients.value else [];
      assert PlanContributions(plan) == LineContributions(lines, plan.plan.quantity_multiplier);
      var lineFailed;
      lineFailed, order, needs := AddLines(lines, plan.plan.quantity_multiplier, cs, order, needs);
      if lineFailed {
        PrefixFails(plans, i + 1);
        return true, order, needs;
      }
      cs := cs + LineContributions(lines, plan.plan.quantity_multiplier).value;
      i := i + 1;
    }
    assert plans[..|plans|] == plans;
    failed := false;
  }

  /** `Object.values(needs).forEach(need => need.toBuy = Math.max(0, ...))`:
      sets every deficit and returns the entries in key order. */
  method Deficits(ghost cs: seq<Contribution>, order: seq<Id>, needs: map<Id, IngredientNeed>)
    returns (values: seq<IngredientNeed>)
    requires order == FirstSeenIds(cs) && needs == Tally(cs)
    ensures values == Needs(cs)
  {
    assert forall x :: 0 <= x < |order| ==>
             order[x] in Ids(cs) && order[x] in needs && needs[order[x]] == Pending(cs, order[x]) by {
      FirstSeenIdsMembers(cs);
      TallyMeaning(cs);
    }
    FirstSeenIdsDistinct(cs);
    var table := needs;
    var k := 0;
    while k < |order|
      invariant 0 <= k <= |order|
      invariant forall x :: 0 <= x < |order| ==> order[x] in Ids(cs) && order[x] in table
      invariant forall x :: 0 <= x < |order| ==>
                  table[order[x]] == if x < k then NeedFor(cs, order[x]) else Pending(cs, order[x])
    {
      var id := order[k];
      table := table[id := table[id].(toBuy := Max0(table[id].totalNeeded - table[id].inStock))];
      k := k + 1;
    }
    values := seq(|order|, x requires 0 <= x < |order| => table[order[x]]);
  }

  /** `generateShoppingList` after the queries returned: the list to show, or
      `None` when the loops throw. */
  method Aggregate(plans: seq<JoinedPlan>) returns (r: Option<seq<IngredientNeed>>)
    ensures r == ShoppingListOf(plans)
  {
    var failed, order, needs := Tabulate(plans);
    if failed {
      return None;
    }
    var values := Deficits(Contributions(plans).value, order, needs);
    r := Some(Positive(values));
  }

  // ---------------------------------------------------------------------------
  // The clipboard text

  /** `Math.ceil` on a real. */
  function Ceil(x: real): (c: int)
    ensures c as real - 1.0 < x <= c as real
  {
    -((-x).Floor)
  }

  /** One exported line: `${Math.ceil(toBuy)} ${unit} - ${name}`. */
  function ExportLine(item: IngredientNeed): string {
    IntToString(Ceil(item.toBuy)) + " " + item.ingredient.unit + " - " + item.ingredient.name
  }

  /** The lines of the list, joined by `"\n"`. */
  function ExportText(items: seq<IngredientNeed>): string {
    Join(seq(|items|, k requires 0 <= k < |items| => ExportLine(items[k])), "\n")
  }

  /** When no name or unit holds a line break, the exported text splits back
      into exactly one line per item, in list order. */
  lemma ExportTextLines(items: seq<IngredientNeed>)
    requires |items| > 0
    requires forall k :: 0 <= k < |items| ==> '\n' !in items[k].ingredient.unit && '\n' !in items[k].ingredient.name
    ensures Split(ExportText(items), '\n') == seq(|items|, k requires 0 <= k < |items| => ExportLine(items[k]))
  {
    var lines := seq(|items|, k requires 0 <= k < |items| => ExportLine(items[k]));
    forall k | 0 <= k < |items| ensures '\n' !in lines[k] {
      var q := IntToString(Ceil(items[k].toBuy));
      assert lines[k] == q + " " + items[k].ingredient.unit + " - " + items[k].ingredient.name;
    }
    SplitJoin(lines, '\n');
  }

  /** The quantity at the head of an exported line reads back as the ceiling of
      `toBuy`, which is at least 1 for every row of the list. */
  lemma ExportLineQuantity(item: IngredientNeed)
    ensures Split(ExportLine(item), ' ')[0] == IntToString(Ceil(item.toBuy))
    ensures ParseInt(Split(ExportLine(item), ' ')[0]) == Some(Ceil(item.toBuy))
    ensures item.toBuy > 0.0 ==> Ceil(item.toBuy) >= 1
  {
    var q := IntToString(Ceil(item.toBuy));
    var rest := item.ingredient.unit + " - " + item.ingredient.name;
    assert ExportLine(item) == q + [' '] + rest;
    SplitPiece(q, ' ', rest);
    IntToStringRoundTrip(Ceil(item.toBuy));
  }

  // ---------------------------------------------------------------------------
  // The page state

  class ShoppingPage {
    var loading: bool
    var shoppingList: seq<IngredientNeed>
    var startDate: string
    var endDate: string

    constructor ()
      ensures loading && shoppingList == [] && startDate == "" && endDate == ""
    {
      loading, shoppingList, startDate, endDate := true, [], "", "";
    }

    /** The session check on mount. Without a session the page redirects to the
        login page and changes nothing; otherwise the window becomes
        `[today, nextWeek]` (computed from the clock, so given here). */
    method CheckAuth(hasSession: bool, today: string, nextWeek: string) returns (redirectToLogin: bool)
      modifies this
      ensures redirectToLogin == !hasSession
      ensures !hasSession ==> unchanged(this)
      ensures hasSession ==> startDate == today && endDate == nextWeek && !loading && shoppingList == old(shoppingList)
    {
      redirectToLogin := !hasSession;
      if hasSession {
        startDate, endDate := today, nextWeek;
        loading := false;
      }
    }

    method SetStartDate(d: string)
      modifies this`startDate
      ensures startDate == d
    {
      startDate := d;
    }

    method SetEndDate(d: string)
      modifies this`endDate
      ensures endDate == d
    {
      endDate := d;
    }

    /** `generateShoppingList`: `store` is what the plan query sees (`None`: the
        query failed), `stock` the separate ingredient query, whose rows are never
        read. Any failure leaves the shown list as it was. */
    method GenerateShoppingList(store: Option<seq<JoinedPlan>>, stock: Option<seq<Ingredient>>)
      modifies this`shoppingList
      ensures store.None? || stock.None? ==> shoppingList == old(shoppingList)
      ensures store.Some? && stock.Some? ==>
                shoppingList == ShoppingListOf(SelectPlans(store.value, startDate, endDate)).GetOr(old(shoppingList))
      ensures store.Some? && stock.Some? && Contributions(SelectPlans(store.value, startDate, endDate)).Some? ==>
                (ShowsEmptyState() <==> NothingNeeded(Contributions(SelectPlans(store.value, startDate, endDate)).value))
    {
      if store.None? {
        return;
      }
      var plans := SelectPlans(store.value, startDate, endDate);
      if stock.None? {
        return;
      }
      var r := Aggregate(plans);
      if r.Some? {
        shoppingList := r.value;
        NothingToBuy(Contributions(plans).value);
      }
    }

    /** The effect that regenerates the list once both dates are set. */
    method DatesChanged(store: Option<seq<JoinedPlan>>, stock: Option<seq<Ingredient>>)
      modifies this`shoppingList
      ensures startDate == "" || endDate == "" ==> shoppingList == old(shoppingList)
      ensures startDate != "" && endDate != "" && store.Some? && stock.Some? ==>
                shoppingList == ShoppingListOf(SelectPlans(store.value, startDate, endDate)).GetOr(old(shoppingList))
      ensures store.None? || stock.None? ==> shoppingList == old(shoppingList)
    {
      if startDate != "" && endDate != "" {
        GenerateShoppingList(store, stock);
      }
    }

    /** The text the copy button writes to the clipboard. */
    function CopyText(): string
      reads this
    {
      ExportText(shoppingList)
    }

    /** The empty state is shown exactly when the list is empty; after a
        successful computation, that is when nothing is needed beyond the
        stock (`GenerateShoppingList`). */
    predicate ShowsEmptyState()
      reads this
    {
      |shoppingList| == 0
    }
  }
}
