/** The specification of the shopping-list computation (app/shopping/page.tsx):
    what each contributing plan's recipe lines add, the per-ingredient totals in
    the order ingredient ids are first met, the deficit per ingredient, and the
    filter to positive deficits. `Shopping.Aggregate` is the loop the page runs,
    proved equal to `ShoppingListOf` below. */
module Aggregation {
  import opened Wrappers
  import opened Database

  /** What one recipe line of one plan asks for: the joined ingredient record
      and `ri.quantity * plan.quantity_multiplier`. */
  datatype Contribution = Contribution(ingredient: Ingredient, quantity: real)

  /** One row of the shopping list. */
  datatype IngredientNeed = IngredientNeed(ingredient: Ingredient, totalNeeded: real, inStock: real, toBuy: real)

  /** `Math.max(0, x)`. */
  function Max0(x: real): (r: real)
    ensures r >= 0.0 && r >= x
    ensures r == x || r == 0.0
  {
    if x > 0.0 then x else 0.0
  }

  /** The contributions of a recipe's lines, in line order; `None` when a line's
      joined ingredient is missing, where the page's `ingredient.id` throws. */
  function LineContributions(lines: seq<JoinedLine>, multiplier: real): (r: Option<seq<Contribution>>)
    ensures r.Some? <==> forall k :: 0 <= k < |lines| ==> lines[k].ingredients.Some?
    ensures r.Some? ==> |r.value| == |lines|
    ensures r.Some? ==> forall k :: 0 <= k < |lines| ==>
              r.value[k] == Contribution(lines[k].ingredients.value, lines[k].line.quantity * multiplier)
  {
    if lines == [] then Some([])
    else
      var init := LineContributions(lines[..|lines| - 1], multiplier);
      var last := lines[|lines| - 1];
      if init.None? || last.ingredients.None? then None
      else Some(init.value + [Contribution(last.ingredients.value, last.line.quantity * multiplier)])
  }

  /** One more line extends the contributions by that line's, or fails. */
  lemma LineContributionsSnoc(lines: seq<JoinedLine>, j: nat, multiplier: real)
    requires j < |lines| && LineContributions(lines[..j], multiplier).Some?
    ensures lines[j].ingredients.None? ==> LineContributions(lines[..j + 1], multiplier).None?
    ensures lines[j].ingredients.Some? ==>
              LineContributions(lines[..j + 1], multiplier) ==
              Some(LineContributions(lines[..j], multiplier).value
                   + [Contribution(lines[j].ingredients.value, lines[j].line.quantity * multiplier)])
  {
    var pre := lines[..j + 1];
    if lines[j].ingredients.Some? {
      var c := Contribution(lines[j].ingredients.value, lines[j].line.quantity * multiplier);
      var r := LineContributions(pre, multiplier);
      var init := LineContributions(lines[..j], multiplier).value;
      assert forall k :: 0 <= k < |pre| ==> pre[k].ingredients.Some? by {
        assert forall k :: 0 <= k < j ==> pre[k] == lines[..j][k];
      }
      assert |r.value| == |init + [c]|;
      forall k | 0 <= k < |pre| ensures r.value[k] == (init + [c])[k] {
        if k < j {
          assert pre[k] == lines[..j][k];
        }
      }
      assert r.value == init + [c];
    } else {
      assert pre[j] == lines[j];
    }
  }

  /** The contributions of one plan; `None` when its joined recipe is missing
      (`plan.recipes.recipe_ingredients` throws); a recipe without lines adds nothing. */
  function PlanContributions(p: JoinedPlan): Option<seq<Contribution>> {
    match p.recipes
    case None => None
    case Some(r) =>
      match r.recipe_ingredients
      case None => Some([])
      case Some(lines) => LineContributions(lines, p.plan.quantity_multiplier)
  }

  /** All contributions, plans in order and lines in order within each plan. */
  function Contributions(plans: seq<JoinedPlan>): Option<seq<Contribution>> {
    if plans == [] then Some([])
    else
      var init := Contributions(plans[..|plans| - 1]);
      var last := PlanContributions(plans[|plans| - 1]);
      if init.None? || last.None? then None else Some(init.value + last.value)
  }

  /** The ingredient id of each contribution. */
  function Ids(cs: seq<Contribution>): (ids: seq<Id>)
    ensures |ids| == |cs| && forall k :: 0 <= k < |cs| ==> ids[k] == cs[k].ingredient.id
  {
    seq(|cs|, k requires 0 <= k < |cs| => cs[k].ingredient.id)
  }

  /** The position of the first contribution for `id`. */
  function FirstIndex(cs: seq<Contribution>, id: Id): (k: nat)
    requires id in Ids(cs)
    ensures k < |cs| && cs[k].ingredient.id == id
    ensures forall j :: 0 <= j < k ==> cs[j].ingredient.id != id
  {
    if cs[0].ingredient.id == id then 0
    else
      assert id in Ids(cs[1..]) by {
        var j :| 0 <= j < |cs| && Ids(cs)[j] == id;
        assert Ids(cs[1..])[j - 1] == id;
      }
      1 + FirstIndex(cs[1..], id)
  }

  /** The distinct ingredient ids in the order they are first met. */
  function FirstSeenIds(cs: seq<Contribution>): seq<Id> {
    if cs == [] then []
    else
      var init := FirstSeenIds(cs[..|cs| - 1]);
      var id := cs[|cs| - 1].ingredient.id;
      if id in init then init else init + [id]
  }

  /** The sum of the quantities contributed for `id`. */
  function TotalFor(cs: seq<Contribution>, id: Id): real {
    if cs == [] then 0.0
    else TotalFor(cs[..|cs| - 1], id) + (if cs[|cs| - 1].ingredient.id == id then cs[|cs| - 1].quantity else 0.0)
  }

  /** The need for `id`: the total, the stock of the ingredient record that first
      introduced `id`, and the deficit. */
  function NeedFor(cs: seq<Contribution>, id: Id): IngredientNeed
    requires id in Ids(cs)
  {
    var ing := cs[FirstIndex(cs, id)].ingredient;
    var total := TotalFor(cs, id);
    IngredientNeed(ing, total, ing.stock_quantity, Max0(total - ing.stock_quantity))
  }

  /** Every need, one per distinct ingredient id, in first-seen order. */
  function Needs(cs: seq<Contribution>): (ns: seq<IngredientNeed>)
    ensures |ns| == |FirstSeenIds(cs)|
  {
    FirstSeenIdsMembers(cs);
    var ids := FirstSeenIds(cs);
    seq(|ids|, k requires 0 <= k < |ids| => NeedFor(cs, ids[k]))
  }

  /** `filter(n => n.toBuy > 0)`. */
  function Positive(ns: seq<IngredientNeed>): seq<IngredientNeed> {
    if ns == [] then []
    else if ns[0].toBuy > 0.0 then [ns[0]] + Positive(ns[1..])
    else Positive(ns[1..])
  }

  function ShoppingList(cs: seq<Contribution>): seq<IngredientNeed> {
    Positive(Needs(cs))
  }

  /** The list the page shows for the plans the query returned, or `None` when
      the computation throws. */
  function ShoppingListOf(plans: seq<JoinedPlan>): Option<seq<IngredientNeed>> {
    match Contributions(plans)
    case None => None
    case Some(cs) => Some(ShoppingList(cs))
  }

  // ---------------------------------------------------------------------------
  // First-seen order

  lemma {:induction false} FirstSeenIdsMembers(cs: seq<Contribution>)
    ensures forall id :: id in FirstSeenIds(cs) <==> id in Ids(cs)
  {
    if cs != [] {
      var init := cs[..|cs| - 1];
      FirstSeenIdsMembers(init);
      assert Ids(cs) == Ids(init) + [cs[|cs| - 1].ingredient.id];
    }
  }

  lemma {:induction false} FirstSeenIdsDistinct(cs: seq<Contribution>)
    ensures forall i, j :: 0 <= i < j < |FirstSeenIds(cs)| ==> FirstSeenIds(cs)[i] != FirstSeenIds(cs)[j]
  {
    if cs != [] {
      FirstSeenIdsDistinct(cs[..|cs| - 1]);
    }
  }

  /** An id no line asks for has total 0. */
  lemma {:induction false} TotalForAbsent(cs: seq<Contribution>, id: Id)
    requires id !in Ids(cs)
    ensures TotalFor(cs, id) == 0.0
  {
    if cs != [] {
      var init := cs[..|cs| - 1];
      assert Ids(cs) == Ids(init) + [cs[|cs| - 1].ingredient.id];
      TotalForAbsent(init, id);
    }
  }

  lemma FirstIndexExtend(cs: seq<Contribution>, c: Contribution, id: Id)
    requires id in Ids(cs + [c])
    ensures id in Ids(cs) ==> FirstIndex(cs + [c], id) == FirstIndex(cs, id)
    ensures id !in Ids(cs) ==> FirstIndex(cs + [c], id) == |cs|
  {
    var k := FirstIndex(cs + [c], id);
    if id in Ids(cs) {
      var k0 := FirstIndex(cs, id);
      assert (cs + [c])[k0] == cs[k0];
      assert forall j :: 0 <= j < k0 ==> (cs + [c])[j] == cs[j];
    } else {
      assert forall j :: 0 <= j < |cs| ==> (cs + [c])[j].ingredient.id == Ids(cs)[j];
    }
  }

  /** Ids are listed in the order of their first contribution. */
  lemma {:induction false} FirstSeenIdsOrdered(cs: seq<Contribution>)
    ensures forall id :: id in FirstSeenIds(cs) ==> id in Ids(cs)
    ensures forall i, j :: 0 <= i < j < |FirstSeenIds(cs)| ==>
              FirstIndex(cs, FirstSeenIds(cs)[i]) < FirstIndex(cs, FirstSeenIds(cs)[j])
  {
    FirstSeenIdsMembers(cs);
    if cs != [] {
      var init, c := cs[..|cs| - 1], cs[|cs| - 1];
      assert cs == init + [c];
      FirstSeenIdsOrdered(init);
      FirstSeenIdsMembers(init);
      var f := FirstSeenIds(cs);
      forall i, j | 0 <= i < j < |f|
        ensures FirstIndex(cs, f[i]) < FirstIndex(cs, f[j])
      {
        FirstIndexExtend(init, c, f[i]);
        FirstIndexExtend(init, c, f[j]);
        if j == |FirstSeenIds(init)| {
          assert f[j] == c.ingredient.id && f[j] !in Ids(init);
          assert f[i] == FirstSeenIds(init)[i];
          assert FirstIndex(init, f[i]) < |init|;
        }
      }
    }
  }

  // ---------------------------------------------------------------------------
  // The list

  lemma {:induction false} PositiveMembers(ns: seq<IngredientNeed>)
    ensures forall n :: n in Positive(ns) <==> n in ns && n.toBuy > 0.0
  {
    if ns != [] {
      PositiveMembers(ns[1..]);
      assert ns == [ns[0]] + ns[1..];
    }
  }

  /** Ingredient `a` is first met before ingredient `b`. */
  predicate Before(cs: seq<Contribution>, a: IngredientNeed, b: IngredientNeed) {
    a.ingredient.id in Ids(cs) && b.ingredient.id in Ids(cs) &&
    FirstIndex(cs, a.ingredient.id) < FirstIndex(cs, b.ingredient.id)
  }

  lemma {:induction false} PositiveKeepsOrder(cs: seq<Contribution>, ns: seq<IngredientNeed>)
    requires forall i, j :: 0 <= i < j < |ns| ==> Before(cs, ns[i], ns[j])
    ensures forall i, j :: 0 <= i < j < |Positive(ns)| ==> Before(cs, Positive(ns)[i], Positive(ns)[j])
  {
    if ns != [] {
      PositiveKeepsOrder(cs, ns[1..]);
      PositiveMembers(ns[1..]);
      var tail := Positive(ns[1..]);
      if ns[0].toBuy > 0.0 {
        forall j | 0 <= j < |tail| ensures Before(cs, ns[0], tail[j]) {
          assert tail[j] in ns[1..];
          var k :| 0 <= k < |ns[1..]| && ns[1..][k] == tail[j];
          assert ns[k + 1] == tail[j];
        }
      }
    }
  }

  /** Every row of the list holds the total of its ingredient over all
      contributions, the stock of the record that first introduced it, the
      deficit `max(0, total - stock)`, and that deficit is positive. */
  lemma ShoppingListRows(cs: seq<Contribution>)
    ensures forall n :: n in ShoppingList(cs) ==>
              && n.ingredient.id in Ids(cs)
              && n.ingredient == cs[FirstIndex(cs, n.ingredient.id)].ingredient
              && n.totalNeeded == TotalFor(cs, n.ingredient.id)
              && n.inStock == n.ingredient.stock_quantity
              && n.toBuy == Max0(n.totalNeeded - n.inStock)
              && n.toBuy > 0.0
  {
    PositiveMembers(Needs(cs));
    FirstSeenIdsMembers(cs);
  }

  /** An ingredient is on the list exactly when some line asks for it and its
      total exceeds the stock of the record that first introduced it. */
  lemma ShoppingListComplete(cs: seq<Contribution>, id: Id)
    ensures (exists n :: n in ShoppingList(cs) && n.ingredient.id == id) <==>
            id in Ids(cs) && TotalFor(cs, id) > cs[FirstIndex(cs, id)].ingredient.stock_quantity
  {
    PositiveMembers(Needs(cs));
    FirstSeenIdsMembers(cs);
    if id in Ids(cs) && TotalFor(cs, id) > cs[FirstIndex(cs, id)].ingredient.stock_quantity {
      var ids := FirstSeenIds(cs);
      var k :| 0 <= k < |ids| && ids[k] == id;
      assert Needs(cs)[k] in Needs(cs);
      assert Needs(cs)[k] in ShoppingList(cs);
    }
  }
  /** No requested ingredient is needed beyond the stock of the record that
      introduced it (this includes there being no requests at all). */
  predicate NothingNeeded(cs: seq<Contribution>) {
    forall id :: id in Ids(cs) ==> TotalFor(cs, id) <= cs[FirstIndex(cs, id)].ingredient.stock_quantity
  }

  /** The list is empty exactly when there is enough stock for everything
      requested, or nothing is requested. */
  lemma {:induction false} NothingToBuy(cs: seq<Contribution>)
    ensures ShoppingList(cs) == [] <==> NothingNeeded(cs)
  {
    if ShoppingList(cs) == [] {
      forall id | id in Ids(cs)
        ensures TotalFor(cs, id) <= cs[FirstIndex(cs, id)].ingredient.stock_quantity
      {
        ShoppingListComplete(cs, id);
      }
    } else {
      var n := ShoppingList(cs)[0];
      ShoppingListComplete(cs, n.ingredient.id);
    }
  }


  /** The list is in the order ingredient ids are first met, so no id appears twice. */
  lemma ShoppingListOrder(cs: seq<Contribution>)
    ensures forall i, j :: 0 <= i < j < |ShoppingList(cs)| ==> Before(cs, ShoppingList(cs)[i], ShoppingList(cs)[j])
    ensures forall i, j :: 0 <= i < j < |ShoppingList(cs)| ==>
              ShoppingList(cs)[i].ingredient.id != ShoppingList(cs)[j].ingredient.id
  {
    FirstSeenIdsOrdered(cs);
    var ns := Needs(cs);
    assert forall i, j :: 0 <= i < j < |ns| ==> Before(cs, ns[i], ns[j]);
    PositiveKeepsOrder(cs, ns);
  }

  // ---------------------------------------------------------------------------
  // Totals across plans

  lemma {:induction false} TotalForAppend(a: seq<Contribution>, b: seq<Contribution>, id: Id)
    ensures TotalFor(a + b, id) == TotalFor(a, id) + TotalFor(b, id)
  {
    if b == [] {
      assert a + b == a;
    } else {
      TotalForAppend(a, b[..|b| - 1], id);
      assert (a + b)[..|a + b| - 1] == a + b[..|b| - 1];
    }
  }

  lemma {:induction false} ContributionsAppend(a: seq<JoinedPlan>, b: seq<JoinedPlan>)
    ensures Contributions(a + b) ==
              if Contributions(a).None? || Contributions(b).None? then None
              else Some(Contributions(a).value + Contributions(b).value)
  {
    if b == [] {
      assert a + b == a;
      if Contributions(a).Some? {
        assert Contributions(a).value + [] == Contributions(a).value;
      }
    } else {
      ContributionsAppend(a, b[..|b| - 1]);
      assert (a + b)[..|a + b| - 1] == a + b[..|b| - 1];
      assert (a + b)[|a + b| - 1] == b[|b| - 1];
      var ca, cb := Contributions(a), Contributions(b[..|b| - 1]);
      var last := PlanContributions(b[|b| - 1]);
      if ca.Some? && cb.Some? && last.Some? {
        assert ca.value + cb.value + last.value == ca.value + (cb.value + last.value);
      }
    }
  }

  /** Additivity: over two runs of plans, the need for each ingredient is the
      sum of the needs over each run. */
  lemma PlansAdditive(a: seq<JoinedPlan>, b: seq<JoinedPlan>, id: Id)
    requires Contributions(a).Some? && Contributions(b).Some?
    ensures Contributions(a + b).Some?
    ensures TotalFor(Contributions(a + b).value, id) ==
            TotalFor(Contributions(a).value, id) + TotalFor(Contributions(b).value, id)
  {
    ContributionsAppend(a, b);
    TotalForAppend(Contributions(a).value, Contributions(b).value, id);
  }

  /** A single line adds exactly `ri.quantity * plan.quantity_multiplier` to the
      total of its ingredient. */
  lemma LineAdds(p: JoinedPlan, r: JoinedRecipe, lines: seq<JoinedLine>, k: nat)
    requires p.recipes == Some(r) && r.recipe_ingredients == Some(lines)
    requires k < |lines| && PlanContributions(p).Some?
    ensures TotalFor(PlanContributions(p).value, lines[k].ingredients.value.id) ==
            TotalFor(PlanContributions(p).value[..k], lines[k].ingredients.value.id) +
            lines[k].line.quantity * p.plan.quantity_multiplier +
            TotalFor(PlanContributions(p).value[k + 1..], lines[k].ingredients.value.id)
  {
    var pcs := PlanContributions(p).value;
    var id := lines[k].ingredients.value.id;
    assert pcs == pcs[..k] + [pcs[k]] + pcs[k + 1..];
    TotalForAppend(pcs[..k] + [pcs[k]], pcs[k + 1..], id);
    TotalForAppend(pcs[..k], [pcs[k]], id);
    assert [pcs[k]][..0] == [];
  }

  // ---------------------------------------------------------------------------
  // Empty and failing inputs

  /** Plans whose recipes have no lines produce an empty list. */
  lemma {:induction false} NoLinesNoList(plans: seq<JoinedPlan>)
    requires forall k :: 0 <= k < |plans| ==>
               (plans[k].recipes.Some? &&
                (plans[k].recipes.value.recipe_ingredients.None? || plans[k].recipes.value.recipe_ingredients == Some([])))
    ensures Contributions(plans) == Some([])
    ensures ShoppingListOf(plans) == Some([])
  {
    if plans != [] {
      NoLinesNoList(plans[..|plans| - 1]);
      var last := plans[|plans| - 1];
      assert PlanContributions(last) == Some([]) by {
        if last.recipes.value.recipe_ingredients.Some? {
          assert LineContributions([], last.plan.quantity_multiplier) == Some([]);
        }
      }
      var empty: seq<Contribution> := [];
      assert empty + empty == empty;
    }
    assert FirstSeenIds([]) == [];
  }

  /** A line whose ingredient record is missing makes the whole computation fail. */
  lemma {:induction false} MissingIngredientFails(plans: seq<JoinedPlan>, i: nat, k: nat)
    requires i < |plans| && plans[i].recipes.Some?
    requires plans[i].recipes.value.recipe_ingredients.Some?
    requires k < |plans[i].recipes.value.recipe_ingredients.value|
    requires plans[i].recipes.value.recipe_ingredients.value[k].ingredients.None?
    ensures Contributions(plans) == None
    ensures ShoppingListOf(plans) == None
  {
    if i < |plans| - 1 {
      MissingIngredientFails(plans[..|plans| - 1], i, k);
    } else {
      assert PlanContributions(plans[i]) == None;
    }
  }
}
