/** The records the pages read from and write to the record store
    (`types/database.ts`), and the joined shapes that the store's nested
    `select` returns to the shopping and planning pages. Only `description`,
    `baking_temperature` and `notes` may be `null`; they are the only `Option`
    fields of the plain records. */
module Database {
  import opened Wrappers

  /** Record identities (UUID strings assigned by the store). */
  type Id = string

  /** `'planned' | 'in_progress' | 'completed'`; any status may follow any other. */
  datatype Status = Planned | InProgress | Completed

  datatype Recipe = Recipe(
    id: Id,
    user_id: Id,
    name: string,
    description: Option<string>,
    prep_time_minutes: int,
    rest_time_minutes: int,
    baking_time_minutes: int,
    baking_temperature: Option<int>,
    yield_quantity: int,
    yield_unit: string,
    created_at: string,
    updated_at: string)

  datatype Ingredient = Ingredient(
    id: Id,
    user_id: Id,
    name: string,
    unit: string,
    stock_quantity: real,
    created_at: string)

  /** Links one recipe to one ingredient, with the quantity per batch and a display position. */
  datatype RecipeIngredient = RecipeIngredient(
    id: Id,
    recipe_id: Id,
    ingredient_id: Id,
    quantity: real,
    order: int)

  /** `planned_date` is a `yyyy-MM-dd` string, `start_time` an `HH:MM` (or `HH:MM:SS`) string. */
  datatype ProductionPlan = ProductionPlan(
    id: Id,
    user_id: Id,
    recipe_id: Id,
    planned_date: string,
    start_time: string,
    quantity_multiplier: real,
    status: Status,
    notes: Option<string>,
    created_at: string)

  /** The text the store keeps for a status. */
  function StatusName(s: Status): string {
    match s
    case Planned => "planned"
    case InProgress => "in_progress"
    case Completed => "completed"
  }

  /** The status a stored text names; any other text names none. The store
      keeps a plan's status as the text of its enum (types/database.ts), and
      the plan query filters on that text (`.eq('status', 'planned')`); the
      records of this model carry the parsed `Status`, and this function is
      the step between the two. */
  function ParseStatus(t: string): (s: Option<Status>)
    ensures s.Some? ==> StatusName(s.value) == t
  {
    if t == "planned" then Some(Planned)
    else if t == "in_progress" then Some(InProgress)
    else if t == "completed" then Some(Completed)
    else None
  }

  lemma StatusRoundTrip(s: Status)
    ensures ParseStatus(StatusName(s)) == Some(s)
  {
    match s
    case Planned =>
    case InProgress =>
    case Completed =>
  }

  /** Different statuses are stored as different texts, so filtering on the
      text `planned` keeps exactly the `Planned` plans. */
  lemma {:induction false} StatusNamesDistinct(s: Status, t: Status)
    ensures StatusName(s) == StatusName(t) <==> s == t
  {
    StatusRoundTrip(s);
    StatusRoundTrip(t);
  }

  /* The joined shapes, under the field names the pages read (`recipes`,
     `ingredients`), which are not the names `types/database.ts` declares
     (`recipe`, `ingredient`). A joined record the store could not supply
     (a dangling reference) is `None`. */

  /** A recipe line with its joined ingredient record. */
  datatype JoinedLine = JoinedLine(line: RecipeIngredient, ingredients: Option<Ingredient>)

  /** A recipe with its joined lines; `recipe_ingredients` may be absent. */
  datatype JoinedRecipe = JoinedRecipe(recipe: Recipe, recipe_ingredients: Option<seq<JoinedLine>>)

  /** A plan with its joined recipe, as the shopping page queries it. */
  datatype JoinedPlan = JoinedPlan(plan: ProductionPlan, recipes: Option<JoinedRecipe>)

  /** A plan with its joined recipe, as the planning page queries it. */
  datatype ScheduledPlan = ScheduledPlan(plan: ProductionPlan, recipes: Recipe)
}
