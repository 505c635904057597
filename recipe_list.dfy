/** The recipe list (app/recipes/page.tsx): one tile per stored recipe, or
    an empty state when there is none. Each tile shows the name, the
    description when it is present and non-empty, one duration chip per
    stage that takes time, and the yield. */
module RecipeList {
  import opened Wrappers
  import opened Database
  import opened Durations

  datatype Tile = Tile(
    recipeId: Id,
    name: string,
    description: Option<string>,
    chips: seq<Chip>,
    yieldQuantity: int,
    yieldUnit: string)

  datatype Listing = EmptyState | Tiles(tiles: seq<Tile>)

  function RecipeTile(r: Recipe): Tile {
    Tile(
      r.id,
      r.name,
      if r.description.Some? && r.description.value != "" then r.description else None,
      Chips(r.prep_time_minutes, r.rest_time_minutes, r.baking_time_minutes),
      r.yield_quantity,
      r.yield_unit)
  }

  function ListRecipes(recipes: seq<Recipe>): (v: Listing)
    ensures v.EmptyState? <==> recipes == []
    ensures v.Tiles? ==> |v.tiles| == |recipes|
    ensures v.Tiles? ==> forall k :: 0 <= k < |recipes| ==> v.tiles[k] == RecipeTile(recipes[k])
  {
    if recipes == [] then EmptyState
    else Tiles(seq(|recipes|, k requires 0 <= k < |recipes| => RecipeTile(recipes[k])))
  }

  /** The description line appears exactly when the description is present
      and non-empty, and then shows it unchanged. */
  lemma TileDescription(r: Recipe)
    ensures RecipeTile(r).description.Some? <==> r.description.Some? && r.description.value != ""
    ensures RecipeTile(r).description.Some? ==> RecipeTile(r).description == r.description
  {
  }

  /** A tile has a chip for a stage exactly when that stage takes a positive
      time, its text is that time formatted as on the planning page, and a
      chip's text reads back as its minutes. */
  lemma {:induction false} TileChips(r: Recipe)
    ensures forall stage ::
              (exists k :: 0 <= k < |RecipeTile(r).chips| && RecipeTile(r).chips[k].stage == stage) <==>
              StageMinutes(stage, r.prep_time_minutes, r.rest_time_minutes, r.baking_time_minutes) > 0
    ensures forall c :: c in RecipeTile(r).chips ==>
              c.minutes > 0 && ReadDuration(c.text) == Some(c.minutes)
  {
    ChipsShown(r.prep_time_minutes, r.rest_time_minutes, r.baking_time_minutes);
    forall c | c in RecipeTile(r).chips
      ensures c.minutes > 0 && ReadDuration(c.text) == Some(c.minutes)
    {
      FormatTimeRoundTrip(c.minutes);
    }
  }

  /** What the page shows: nothing but the placeholder while the recipes
      load, then the listing. */
  function PageView(loading: bool, recipes: seq<Recipe>): (v: Option<Listing>)
    ensures v.None? <==> loading
    ensures v.Some? ==> (v.value.EmptyState? <==> recipes == [])
  {
    if loading then None else Some(ListRecipes(recipes))
  }
}
