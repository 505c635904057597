/** The new-recipe form (app/recipes/new/page.tsx): the editable list of
    recipe lines, the inline creation of an ingredient, the number-input
    fallbacks, and the rows the submission sends to the store. */
module RecipeForm {
  import opened Wrappers
  import opened Database
  import opened Inputs

  /** A recipe line being edited (`RecipeIngredientInput`). */
  datatype LineInput = LineInput(ingredient_id: Id, quantity: real, order: int)

  // ---------------------------------------------------------------------------
  // The line list

  /** `handleAddRecipeIngredient`: nothing without ingredients to choose from;
      otherwise one line for the first ingredient, quantity 0, numbered with
      the current length. */
  function AppendLine(lines: seq<LineInput>, ingredients: seq<Ingredient>): (r: seq<LineInput>)
    ensures ingredients == [] ==> r == lines
    ensures ingredients != [] ==> |r| == |lines| + 1 && r[..|lines|] == lines
    ensures ingredients != [] ==> r[|lines|] == LineInput(ingredients[0].id, 0.0, |lines|)
  {
    if |ingredients| == 0 then lines
    else lines + [LineInput(ingredients[0].id, 0.0, |lines|)]
  }

  /** `handleRemoveRecipeIngredient(index)`: `filter((_, i) => i !== index)`. */
  function RemoveAt(lines: seq<LineInput>, index: int): seq<LineInput> {
    if 0 <= index < |lines| then lines[..index] + lines[index + 1..] else lines
  }

  /** Removing drops exactly the element at `index`, keeps the others in
      their order and renumbers nothing; an index outside the list removes
      nothing. */
  lemma RemoveAtEffect(lines: seq<LineInput>, index: int)
    ensures 0 <= index < |lines| ==> |RemoveAt(lines, index)| == |lines| - 1
    ensures 0 <= index < |lines| ==> forall k :: 0 <= k < index ==> RemoveAt(lines, index)[k] == lines[k]
    ensures 0 <= index < |lines| ==> forall k :: index <= k < |lines| - 1 ==> RemoveAt(lines, index)[k] == lines[k + 1]
    ensures 0 <= index < |lines| ==> multiset(RemoveAt(lines, index)) + multiset{lines[index]} == multiset(lines)
    ensures !(0 <= index < |lines|) ==> RemoveAt(lines, index) == lines
  {
    if 0 <= index < |lines| {
      assert lines == lines[..index] + [lines[index]] + lines[index + 1..];
    }
  }

  /** Lines numbered `0, 1, ...` in list order. */
  predicate Numbered(lines: seq<LineInput>) {
    forall k :: 0 <= k < |lines| ==> lines[k].order == k
  }

  /** Appending keeps a numbered list numbered, and so does removing the last
      line. */
  lemma NumberingKept(lines: seq<LineInput>, ingredients: seq<Ingredient>)
    requires Numbered(lines)
    ensures Numbered(AppendLine(lines, ingredients))
    ensures |lines| > 0 ==> Numbered(RemoveAt(lines, |lines| - 1))
  {
  }

  /** Removing any other line breaks the numbering, so that a later append
      can repeat an `order`: remove the first of two lines, then add one. */
  lemma OrdersCanRepeat(a: Id, b: Id, ing: Ingredient)
    ensures
      var lines := [LineInput(a, 1.0, 0), LineInput(b, 2.0, 1)];
      var after := AppendLine(RemoveAt(lines, 0), [ing]);
      |after| == 2 && after[0].order == 1 && after[1].order == 1
  {
    var lines := [LineInput(a, 1.0, 0), LineInput(b, 2.0, 1)];
    assert RemoveAt(lines, 0) == [LineInput(b, 2.0, 1)];
  }

  // ---------------------------------------------------------------------------
  // Rows sent to the store

  /** The optional baking temperature field: `''` until something is typed,
      then whatever `parseInt` made of it (`None` for NaN). */
  datatype TempField = Blank | Typed(parsed: Option<int>)

  /** `bakingTemp || null`: blank, NaN and 0 are all stored as `null`. */
  function TempOrNull(t: TempField): (r: Option<int>)
    ensures r.None? <==> t.Blank? || t.parsed.None? || t.parsed.value == 0
    ensures r.Some? ==> t == Typed(r) && r.value != 0
  {
    match t
    case Blank => None
    case Typed(p) => if p.Some? && p.value != 0 then p else None
  }

  datatype RecipeInsert = RecipeInsert(
    user_id: Id,
    name: string,
    description: Option<string>,
    prep_time_minutes: int,
    rest_time_minutes: int,
    baking_time_minutes: int,
    baking_temperature: Option<int>,
    yield_quantity: int,
    yield_unit: string)

  datatype LineInsert = LineInsert(recipe_id: Id, ingredient_id: Id, quantity: real, order: int)

  /** `ingredientsToInsert`: one row per line, in line order, for the new recipe. */
  function InsertRows(recipeId: Id, lines: seq<LineInput>): (rows: seq<LineInsert>)
    ensures |rows| == |lines|
    ensures forall k :: 0 <= k < |lines| ==>
              rows[k] == LineInsert(recipeId, lines[k].ingredient_id, lines[k].quantity, lines[k].order)
  {
    seq(|lines|, k requires 0 <= k < |lines| => LineInsert(recipeId, lines[k].ingredient_id, lines[k].quantity, lines[k].order))
  }

  /** The rows can be mapped back to the lines they came from. */
  lemma InsertRowsRoundTrip(recipeId: Id, lines: seq<LineInput>)
    ensures seq(|lines|, k requires 0 <= k < |lines| =>
              LineInput(InsertRows(recipeId, lines)[k].ingredient_id, InsertRows(recipeId, lines)[k].quantity,
                        InsertRows(recipeId, lines)[k].order)) == lines
  {
  }

  datatype IngredientInsert = IngredientInsert(user_id: Id, name: string, unit: string, stock_quantity: real)

  /** The characters `String.prototype.trim` removes that the model knows of. */
  predicate IsSpace(c: char) {
    c == ' ' || c == '\t' || c == '\n' || c == '\r' || c == '\U{000B}' || c == '\U{000C}'
    || c == '\U{00A0}' || c == '\U{FEFF}' || c == '\U{2028}' || c == '\U{2029}'
  }

  /** `!s.trim()`: the text is empty once surrounding spaces are removed. */
  predicate IsBlank(s: string) {
    forall k :: 0 <= k < |s| ==> IsSpace(s[k])
  }

  /** The outcome of a submission. */
  datatype Outcome = NoSession | RecipeFailed | LinesFailed | Opened(recipeId: Id)

  class NewRecipeForm {
    var loading: bool
    var ingredients: seq<Ingredient>
    var name: string
    var description: string
    var prepTime: int
    var restTime: int
    var bakingTime: int
    var bakingTemp: TempField
    var yieldQuantity: int
    var yieldUnit: string
    var lines: seq<LineInput>
    var newIngredientName: string
    var newIngredientUnit: string

    constructor ()
      ensures !loading && ingredients == [] && name == "" && description == ""
      ensures prepTime == 0 && restTime == 0 && bakingTime == 0 && bakingTemp == Blank
      ensures yieldQuantity == 1 && yieldUnit == "pièces" && lines == []
      ensures newIngredientName == "" && newIngredientUnit == "g"
      ensures SubmitDisabled()
    {
      loading, ingredients, name, description := false, [], "", "";
      prepTime, restTime, bakingTime, bakingTemp := 0, 0, 0, Blank;
      yieldQuantity, yieldUnit, lines := 1, "pièces", [];
      newIngredientName, newIngredientUnit := "", "g";
    }

    method AddRecipeIngredient()
      modifies this`lines
      ensures lines == AppendLine(old(lines), ingredients)
    {
      lines := AppendLine(lines, ingredients);
    }

    method RemoveRecipeIngredient(index: int)
      modifies this`lines
      ensures lines == RemoveAt(old(lines), index)
    {
      lines := RemoveAt(lines, index);
    }

    /** The ingredient selector of line `index`: only that line's ingredient changes. */
    method SetLineIngredient(index: nat, id: Id)
      requires index < |lines|
      modifies this`lines
      ensures lines == old(lines)[index := old(lines)[index].(ingredient_id := id)]
    {
      lines := lines[index := lines[index].(ingredient_id := id)];
    }

    /** The quantity input of line `index`: `parseFloat(v) || 0`. */
    method SetLineQuantity(index: nat, parsed: Option<real>)
      requires index < |lines|
      modifies this`lines
      ensures lines == old(lines)[index := old(lines)[index].(quantity := RealOr(parsed, 0.0))]
    {
      lines := lines[index := lines[index].(quantity := RealOr(parsed, 0.0))];
    }

    /** The three time inputs: `parseInt(v) || 0`. */
    method SetTimes(prep: Option<int>, rest: Option<int>, baking: Option<int>)
      modifies this`prepTime, this`restTime, this`bakingTime
      ensures prepTime == IntOr(prep, 0) && restTime == IntOr(rest, 0) && bakingTime == IntOr(baking, 0)
    {
      prepTime, restTime, bakingTime := IntOr(prep, 0), IntOr(rest, 0), IntOr(baking, 0);
    }

    /** The temperature input: `v ? parseInt(v) : ''`. */
    method SetBakingTemp(text: string, parsed: Option<int>)
      modifies this`bakingTemp
      ensures bakingTemp == if text == "" then Blank else Typed(parsed)
    {
      bakingTemp := if text == "" then Blank else Typed(parsed);
    }

    /** The yield input: `parseInt(v) || 1`, so the yield is never 0. */
    method SetYield(parsed: Option<int>)
      modifies this`yieldQuantity
      ensures yieldQuantity == IntOr(parsed, 1) && yieldQuantity != 0
    {
      yieldQuantity := IntOr(parsed, 1);
    }

    /** `handleAddIngredient`: `session` is the signed-in user, if any, and
        `created` the record the store returns for the insert (`None` on
        error). A blank name sends nothing. */
    method AddIngredient(session: Option<Id>, created: Option<Ingredient>) returns (sent: Option<IngredientInsert>)
      modifies this`ingredients, this`newIngredientName, this`newIngredientUnit
      ensures IsBlank(old(newIngredientName)) || session.None? ==> sent.None? && unchanged(this)
      ensures !IsBlank(old(newIngredientName)) && session.Some? ==>
                sent == Some(IngredientInsert(session.value, old(newIngredientName), old(newIngredientUnit), 0.0))
      ensures !IsBlank(old(newIngredientName)) && session.Some? && created.Some? ==>
                ingredients == old(ingredients) + [created.value] && newIngredientName == "" && newIngredientUnit == "g"
      ensures created.None? ==> unchanged(this)
    {
      if IsBlank(newIngredientName) || session.None? {
        return None;
      }
      sent := Some(IngredientInsert(session.value, newIngredientName, newIngredientUnit, 0.0));
      if created.Some? {
        ingredients := ingredients + [created.value];
        newIngredientName, newIngredientUnit := "", "g";
      }
    }

    /** `disabled={loading || !name}`. */
    predicate SubmitDisabled()
      reads this
    {
      loading || name == ""
    }

    /** The recipe row for the signed-in user. */
    function RecipeRow(userId: Id): (row: RecipeInsert)
      reads this
      ensures row.user_id == userId
      ensures row.description.None? <==> description == ""
      ensures row.description.Some? ==> row.description.value == description
      ensures row.baking_temperature == TempOrNull(bakingTemp)
      ensures row.name == name && row.yield_quantity == yieldQuantity && row.yield_unit == yieldUnit
      ensures row.prep_time_minutes == prepTime && row.rest_time_minutes == restTime && row.baking_time_minutes == bakingTime
    {
      RecipeInsert(userId, name, TextOrNull(description), prepTime, restTime, bakingTime,
                   TempOrNull(bakingTemp), yieldQuantity, yieldUnit)
    }

    /** `handleSubmit`: `session` is the signed-in user, `created` the id of
        the inserted recipe (`None` on error), `linesStored` whether the line
        insert succeeded. The line rows are sent only when there are lines;
        `loading` is false again whatever the outcome. */
    method Submit(session: Option<Id>, created: Option<Id>, linesStored: bool)
      returns (recipeSent: Option<RecipeInsert>, linesSent: Option<seq<LineInsert>>, outcome: Outcome)
      modifies this`loading
      ensures !loading
      ensures SubmitDisabled() <==> name == ""
      ensures session.None? ==> recipeSent.None? && linesSent.None? && outcome == NoSession
      ensures session.Some? ==> recipeSent == Some(RecipeRow(session.value))
      ensures session.Some? && created.None? ==> linesSent.None? && outcome == RecipeFailed
      ensures session.Some? && created.Some? ==>
                linesSent == (if |lines| > 0 then Some(InsertRows(created.value, lines)) else None)
      ensures session.Some? && created.Some? ==>
                outcome == (if |lines| > 0 && !linesStored then LinesFailed else Opened(created.value))
    {
      loading := true;
      recipeSent, linesSent := None, None;
      if session.None? {
        outcome := NoSession;
      } else {
        recipeSent := Some(RecipeRow(session.value));
        if created.None? {
          outcome := RecipeFailed;
        } else {
          if |lines| > 0 {
            linesSent := Some(InsertRows(created.value, lines));
          }
          outcome := if |lines| > 0 && !linesStored then LinesFailed else Opened(created.value);
        }
      }
      loading := false;
    }
  }
}
