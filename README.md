# fluffy-barkery bakery planner: a Dafny model of its page logic

fluffy-barkery is a web app for a bakery. Bakers keep recipes (timings, yield,
ingredient lines), an ingredient inventory with stock levels and a production
plan (which recipe on which date, when to start, a quantity multiplier). The
logic of the app lives in its page components. This project models that logic
and proves what the pages promise:

- **Shopping list** (`app/shopping/page.tsx`). The plan query is a filter:
  planned status, with the date inside the window. The page then runs two
  nested loops that add up `line quantity × plan multiplier` per ingredient
  into a dictionary. A pass sets `toBuy = max(0, total − stock)`, and the
  rows with a positive `toBuy` are kept, then exported as clipboard text.
  The loops are the `Shopping.Aggregate` methods. They are proved equal to
  an independent specification in module `Aggregation`: first-seen
  ingredient order, per-id totals and the stock of the first record met.
- **Planning** (`app/planning/page.tsx`):
  - `formatTime`;
  - `calculateEndTime`, including JavaScript's truncating `%` and the
    `"NaN:NaN"` result;
  - date grouping of plans, as a loop method proved against a specification;
  - the plan card's derived values;
  - the add-plan form and its reset rules.
- **New recipe** (`app/recipes/new/page.tsx`):
  - the editable line list;
  - the fallbacks of the number inputs;
  - inline ingredient creation;
  - the rows the submission sends.
- **Inventory** (`app/inventory/page.tsx`): the single-row stock editor, the
  save and delete effects on the stock table, and the low-stock styling.
- **Recipe list** (`app/recipes/page.tsx`): the tiles, the duration chips and
  the empty state.
- **Sign-up and password reset** (`app/auth/signup/page.tsx`,
  `app/auth/reset-password/page.tsx`):
  - the password checks, with the mismatch checked first and then the
    6-character minimum;
  - the error fallback;
  - the recovery-session flags.

Calls to the hosted database and authentication service are not modelled as
code. They appear as parameters: the rows a query returns, or whether an
insert, update or delete succeeded. An insert returns the row it sends
(`Planning.PlanForm.AddPlan`, `RecipeForm.NewRecipeForm.AddIngredient`,
`RecipeForm.NewRecipeForm.Submit`). An update or delete takes the table and
returns it updated (`Inventory.InventoryPage.Save`, `Inventory.InventoryPage.Delete`),
so the effect of the write can be stated.

Modules: `Wrappers` (Option), `Text` (JavaScript `String(n)`, `Number`,
`split`, `join`, `padStart`, text order), `Dates`, `Database` (the records of
`types/database.ts`), `Inputs` (`x || fallback`), `Aggregation`, `Shopping`,
`Durations`, `Planning`, `RecipeForm`, `Inventory`, `RecipeList`,
`Passwords`, `Signup` and `ResetPassword`.

An ingredient line whose joined ingredient record is missing makes the
shopping page read `ingredient.id` of `null` (app/shopping/page.tsx:79-82),
which throws. The exception is caught (app/shopping/page.tsx:101-103), so no
list is produced and the page keeps its previous one
(`Aggregation.MissingIngredientFails`,
`Shopping.ShoppingPage.GenerateShoppingList`). Such a line is not counted as
zero stock.

## Model

| member | source | states |
|---|---|---|
| `Database.StatusRoundTrip` | types/database.ts:40 | each of the three plan statuses reads back from the text the store keeps for it |
| `Database.ParseStatus` | types/database.ts:40 | a text names a status only if it is that status's stored name |
| `Database.StatusNamesDistinct` | app/shopping/page.tsx:63 | two statuses have the same stored text exactly when they are the same status, so the `planned` text filter keeps exactly the `Planned` plans |
| `Dates.FullDateOrder` | app/shopping/page.tsx:61-62 | the model renders the `gte`/`lte` date window as text order; for well-formed `yyyy-MM-dd` texts that order is the chronological order |
| `Dates.YearOrder` | app/shopping/page.tsx:61-62 | four zero-padded digits compare and are equal exactly as the years they spell |
| `Dates.Pad2Order` | app/shopping/page.tsx:61-62 | two zero-padded digits compare and are equal exactly as the numbers they spell |
| `Text.NatToStringRoundTrip` | app/shopping/page.tsx:184 | reading back the decimal digits of `String(n)` gives `n`, for any natural number |
| `Text.IntToStringRoundTrip` | app/shopping/page.tsx:184 | `String(i)`, negative numbers included, parses back to `i` |
| `Text.SplitJoin` | app/shopping/page.tsx:184-185 | splitting a join undoes it when no piece holds the separator |
| `Text.JoinSplit` | app/planning/page.tsx:155 | joining the pieces of a split puts the separators back and rebuilds the text |
| `Text.SplitPiece` | app/planning/page.tsx:155 | a piece without the separator, then a separator, splits off as exactly one piece |
| `Text.Split` | app/planning/page.tsx:155 | a split yields at least one piece, and no piece holds the separator |
| `Text.LexLeAppend` | app/shopping/page.tsx:61-62 | the text order, when the shorter text is extended, is decided by the common-length prefix first |
| `Inputs.NumberOr` | app/planning/page.tsx:259 | `parsed \|\| fallback`: NaN and 0 give the fallback, any other value is kept, and a non-zero fallback is never replaced by 0 |
| `Inputs.TextOrNull` | app/planning/page.tsx:102 | `s \|\| null`: only the empty text becomes `null`; any other text is kept |
| `Aggregation.LineContributions` | app/shopping/page.tsx:78-80 | a recipe's lines contribute `quantity × multiplier` of their joined ingredient, one per line in order; `None`, where the page throws, exactly when some line's ingredient record is missing |
| `Aggregation.Max0` | app/shopping/page.tsx:97 | `Math.max(0, x)`: never negative, never below `x`, and either `x` or 0 |
| `Aggregation.FirstSeenIdsMembers` | app/shopping/page.tsx:82-89 | the dictionary's keys are exactly the ingredient ids some line asks for |
| `Aggregation.FirstSeenIdsDistinct` | app/shopping/page.tsx:82-89 | each ingredient id gets one entry |
| `Aggregation.FirstSeenIdsOrdered` | app/shopping/page.tsx:96-100 | entries come in the order their ids are first met |
| `Aggregation.TotalForAbsent` | app/shopping/page.tsx:91 | an id no line asks for has a total of 0 |
| `Aggregation.PositiveMembers` | app/shopping/page.tsx:100 | the filter keeps exactly the rows with a positive `toBuy` |
| `Aggregation.PositiveKeepsOrder` | app/shopping/page.tsx:100 | the filter keeps the rows' first-seen order |
| `Aggregation.ShoppingListRows` | app/shopping/page.tsx:82-100 | every listed row holds its ingredient's total over all contributions, the stock of the record that introduced it, `toBuy = max(0, total − stock)`, and that `toBuy` is positive |
| `Aggregation.ShoppingListComplete` | app/shopping/page.tsx:82-100 | an ingredient is listed exactly when some line asks for it and its total exceeds that stock |
| `Aggregation.NothingToBuy` | app/shopping/page.tsx:163-170 | the list is empty, and "Aucun achat nécessaire" shows, exactly when no requested ingredient is needed beyond the stock of its record (nothing requested included) |
| `Aggregation.ShoppingListOrder` | app/shopping/page.tsx:96-100 | the list is in first-seen order, so no ingredient appears twice |
| `Aggregation.TotalForAppend` | app/shopping/page.tsx:91 | totals add up over concatenated contributions |
| `Aggregation.ContributionsAppend` | app/shopping/page.tsx:77-93 | the contributions of two runs of plans are the two runs' contributions, one after the other, and a failure in either fails the whole |
| `Aggregation.PlansAdditive` | app/shopping/page.tsx:77-93 | over two runs of plans, each ingredient's total is the sum of the two runs' totals |
| `Aggregation.LineAdds` | app/shopping/page.tsx:80-91 | a single line adds exactly `ri.quantity × plan.quantity_multiplier` to its ingredient's total |
| `Aggregation.NoLinesNoList` | app/shopping/page.tsx:78 | plans whose recipes have no lines (`recipe_ingredients` absent or empty) give an empty list |
| `Aggregation.MissingIngredientFails` | app/shopping/page.tsx:79-82 | a line whose ingredient record is missing makes the whole computation fail |
| `Shopping.SelectPlansMembers` | app/shopping/page.tsx:61-63 | the query returns exactly the stored plans with status text `planned` and date inside the inclusive window, each as often as it is stored |
| `Shopping.SelectPlansAppend` | app/shopping/page.tsx:61-63 | the query filters row by row: over two runs of the store it returns the rows kept from the first run, then those kept from the second, so the store's order is kept |
| `Shopping.TallyMeaning` | app/shopping/page.tsx:82-91 | the dictionary the loops build holds exactly the requested ids, each with its total and the stock of the record that introduced it |
| `Shopping.AddLines` | app/shopping/page.tsx:78-92 | the inner loop fails exactly when a line's ingredient is missing; otherwise it leaves key order and dictionary as those of the contributions so far plus this recipe's |
| `Shopping.Tabulate` | app/shopping/page.tsx:75-93 | the outer loop fails exactly when the specification fails; otherwise its key order and dictionary are those of all contributions |
| `Shopping.Deficits` | app/shopping/page.tsx:96-98 | after the `toBuy` pass, the dictionary's values in key order are the specified needs |
| `Shopping.Aggregate` | app/shopping/page.tsx:75-100 | the loops compute exactly `ShoppingListOf` of the returned plans, or fail where it fails |
| `Shopping.Ceil` | app/shopping/page.tsx:184 | `Math.ceil`: the least integer not below the value |
| `Shopping.ExportTextLines` | app/shopping/page.tsx:183-185 | for a non-empty list where no unit or name holds a line break, the clipboard text (`ShoppingPage.CopyText`, what the copy button writes) splits back into one line per row, in list order |
| `Shopping.ExportLineQuantity` | app/shopping/page.tsx:184 | each exported line starts with `ceil(toBuy)`, which reads back and is at least 1 for a listed row |
| `Shopping.ShoppingPage.constructor` | app/shopping/page.tsx:16-21 | the page opens loading, with an empty list and empty dates |
| `Shopping.ShoppingPage.SetStartDate` | app/shopping/page.tsx:145 | the start-date input sets the start date |
| `Shopping.ShoppingPage.SetEndDate` | app/shopping/page.tsx:156 | the end-date input sets the end date |
| `Shopping.ShoppingPage.CheckAuth` | app/shopping/page.tsx:23-44 | without a session the page redirects and changes nothing; otherwise the window is set to the given dates and loading ends |
| `Shopping.ShoppingPage.GenerateShoppingList` | app/shopping/page.tsx:46-104 | a failed plan or stock query, or a failing computation, leaves the shown list unchanged; otherwise the list becomes the specified list for the plans in the window, and the empty state (`ShowsEmptyState`, line 163) shows exactly when nothing is needed beyond the stock |
| `Shopping.ShoppingPage.DatesChanged` | app/shopping/page.tsx:106-110 | the list is regenerated only once both dates are set |
| `Durations.FormatTimeRoundTrip` | app/planning/page.tsx:147-152 | every duration, negative ones included, reads back from its `formatTime` text |
| `Durations.FormatTimeInjective` | app/planning/page.tsx:147-152 | two different durations never render alike |
| `Durations.FormatTimeExamples` | app/planning/page.tsx:147-152 | 45 → `45min`, 60 → `1h`, 65 → `1h5`, 90 → `1h30` |
| `Durations.JsRem` | app/planning/page.tsx:157-158 | JavaScript `%`: the remainder lies strictly between `−b` and `b`, equals the mathematical remainder for a non-negative dividend and is never positive for a negative one |
| `Durations.ClockTextReads` | app/planning/page.tsx:157-159 | for a non-negative minute count the text is a well-formed 5-character `HH:MM` reading as the count modulo 24 hours |
| `Durations.EndTimeIsClock` | app/planning/page.tsx:154-160 | for a readable start and a non-negative end, the end time is a well-formed `HH:MM` time: start plus duration, modulo 24 hours |
| `Durations.EndTimeWrapsDaily` | app/planning/page.tsx:154-160 | a duration one day longer ends at the same clock text |
| `Durations.SecondsIgnored` | app/planning/page.tsx:155 | only the first two `:` pieces of the start are read, so a seconds field changes nothing |
| `Durations.StartExample` | app/planning/page.tsx:155-156 | `23:00` reads as minute 1380 of the day |
| `Durations.ClockExample` | app/planning/page.tsx:157-159 | minute 1500 shows as `01:00` |
| `Durations.MinuteOfDay` | app/planning/page.tsx:157-158 | for a non-negative count, hours modulo 24 and minutes modulo 60 give back the count modulo 1440 |
| `Durations.EndTimeExample` | app/planning/page.tsx:154-160 | `23:00` plus 120 minutes ends at `01:00`: the day is dropped |
| `Durations.ChipsShown` | app/planning/page.tsx:362-391 | a stage has a chip exactly when its duration is positive; the chip shows that duration formatted; there are at most three, in the order preparation, rest, baking |
| `Planning.GroupPlansByDate` | app/planning/page.tsx:162-171 | the loop's groups are keyed by exactly the dates that occur, in first-seen order, and each holds the plans of that date in their order |
| `Planning.DatesInOrderMembers` | app/planning/page.tsx:162-171 | a date is a group key exactly when some plan has it |
| `Planning.DatesInOrderDistinct` | app/planning/page.tsx:162-171 | no date is a key twice |
| `Planning.OnDateMembers` | app/planning/page.tsx:164-169 | a group holds exactly the plans of its date |
| `Planning.GroupsPartition` | app/planning/page.tsx:162-171 | the group sizes add up to the number of plans |
| `Planning.InExactlyOneGroup` | app/planning/page.tsx:162-171 | every plan is in the group of its date and in no other |
| `Planning.NoGroupsIffNoPlans` | app/planning/page.tsx:291 | the empty state (no groups) is shown exactly when there are no plans |
| `Planning.PlanForm.constructor` | app/planning/page.tsx:21-28 | the form opens closed, on today's date, starting at `06:00`, with multiplier 1 and no recipe or notes |
| `Planning.PlanCardDuration` | app/planning/page.tsx:310-323 | the card's duration text reads back as the recipe's total time |
| `Planning.PlanCardChips` | app/planning/page.tsx:310-391 | for non-negative timings, the chips add up to the total time |
| `Planning.PlanCardEndTime` | app/planning/page.tsx:310-311 | the card's end time is the start plus the total time, modulo 24 hours |
| `Planning.PlanCardOptional` | app/planning/page.tsx:325-357 | the scaled yield appears exactly when the multiplier is not 1 and is `yield × multiplier`; the notes appear exactly when present and non-empty |
| `Planning.PlanForm.SetMultiplier` | app/planning/page.tsx:259 | the multiplier input maps NaN and 0 to 1, so the multiplier is never 0 |
| `Planning.PlanForm.Row` | app/planning/page.tsx:95-103 | a new plan has status `planned`, the form's fields, and `null` notes exactly when the notes are empty |
| `Planning.PlanForm.AddPlan` | app/planning/page.tsx:86-115 | without a session nothing is sent; after a successful insert the form closes and resets notes and multiplier and keeps the rest; after a failure nothing changes |
| `RecipeForm.AppendLine` | app/recipes/new/page.tsx:91-102 | with no ingredient nothing changes; otherwise one line is appended for the first ingredient, quantity 0, numbered with the old length |
| `RecipeForm.NumberingKept` | app/recipes/new/page.tsx:91-106 | appending keeps lines numbered `0, 1, …` in list order, and so does removing the last line |
| `RecipeForm.RemoveAtEffect` | app/recipes/new/page.tsx:104-106 | removing drops exactly the line at the index and keeps the others in order; an index outside the list removes nothing |
| `RecipeForm.OrdersCanRepeat` | app/recipes/new/page.tsx:91-106 | removing a line other than the last, then adding one, makes two lines share an `order` |
| `RecipeForm.TempOrNull` | app/recipes/new/page.tsx:126 | the baking temperature is stored as `null` exactly when the field is blank, NaN or 0 |
| `RecipeForm.InsertRows` | app/recipes/new/page.tsx:136-142 | one line row per edited line, in order, each carrying the new recipe's id and the line's ingredient, quantity and order |
| `RecipeForm.InsertRowsRoundTrip` | app/recipes/new/page.tsx:136-142 | the sent rows give back the edited lines: nothing of a line is lost |
| `RecipeForm.NewRecipeForm.constructor` | app/recipes/new/page.tsx:17-32 | the form opens empty: no lines, zero timings, blank temperature, yield 1 `pièces`, a new ingredient in `g`, so the submit button (`SubmitDisabled`, line 408) starts disabled |
| `RecipeForm.NewRecipeForm.AddRecipeIngredient` | app/recipes/new/page.tsx:91-102 | the line list becomes `AppendLine` of the old one |
| `RecipeForm.NewRecipeForm.RemoveRecipeIngredient` | app/recipes/new/page.tsx:104-106 | the line list becomes `RemoveAt` of the old one |
| `RecipeForm.NewRecipeForm.SetLineIngredient` | app/recipes/new/page.tsx:354-357 | only the edited line's ingredient changes |
| `RecipeForm.NewRecipeForm.SetLineQuantity` | app/recipes/new/page.tsx:376-379 | only the edited line's quantity changes, to the parsed value, with NaN and 0 giving 0 |
| `RecipeForm.NewRecipeForm.SetTimes` | app/recipes/new/page.tsx:217-243 | each timing input maps NaN and 0 to 0 |
| `RecipeForm.NewRecipeForm.SetYield` | app/recipes/new/page.tsx:277 | the yield input maps NaN and 0 to 1, so the yield is never 0 |
| `RecipeForm.NewRecipeForm.SetBakingTemp` | app/recipes/new/page.tsx:256 | an empty field is blank; otherwise the field keeps the parsed value, NaN included |
| `RecipeForm.NewRecipeForm.AddIngredient` | app/recipes/new/page.tsx:63-89 | a blank name or no session sends nothing; otherwise the ingredient is sent with stock 0; on success it is appended and the name and unit reset to `''` and `g`; on failure nothing changes |
| `RecipeForm.NewRecipeForm.RecipeRow` | app/recipes/new/page.tsx:119-129 | the recipe row carries the signed-in user's id, the form's name, timings and yield, the description, or `null` exactly when it is empty, and the baking temperature through `TempOrNull` |
| `RecipeForm.NewRecipeForm.Submit` | app/recipes/new/page.tsx:108-158 | without a session nothing is sent; the line rows are sent only after the recipe insert and only when there are lines; the outcome names the failing step, or opens the new recipe; `loading` ends false; afterwards the submit button (`SubmitDisabled`, `loading \|\| !name` at line 408) is disabled exactly when the name is empty |
| `Inventory.StockStyle` | app/inventory/page.tsx:187-190 | stock below 100 is styled as a warning, any other stock as healthy |
| `Inventory.UpdateStockRows` | app/inventory/page.tsx:49-52 | the update writes the stock of the rows with the given id and leaves every other row unchanged |
| `Inventory.UpdateOnlyMatching` | app/inventory/page.tsx:49-52 | after the update, every other row is still in the table and the matching row is there with the new stock |
| `Inventory.DeleteRowsMembers` | app/inventory/page.tsx:66-69 | the delete removes exactly the rows with the given id; every other row stays, as often as it was there |
| `Inventory.DeleteAbsent` | app/inventory/page.tsx:66-69 | deleting an id no row has changes nothing |
| `Inventory.AtMostOneEditor` | app/inventory/page.tsx:153 | with distinct ids, at most one row shows the editor |
| `Inventory.InventoryPage.constructor` | app/inventory/page.tsx:11-14 | the page opens loading, with no rows and no row being edited |
| `Inventory.InventoryPage.LoadIngredients` | app/inventory/page.tsx:31-45 | a successful read replaces the list, a failed one keeps it; loading ends either way |
| `Inventory.InventoryPage.ClickStock` | app/inventory/page.tsx:180-183 | clicking a stock value opens the editor on that row with its current stock |
| `Inventory.InventoryPage.ChangeEditQuantity` | app/inventory/page.tsx:159 | the editor input maps NaN and 0 to 0, with no lower bound |
| `Inventory.InventoryPage.Cancel` | app/inventory/page.tsx:171 | cancelling closes the editor; no stock is written |
| `Inventory.InventoryPage.Save` | app/inventory/page.tsx:47-60 | a failed update changes nothing and keeps the editor open; a successful one writes the edited stock for the edited id only, reloads and closes the editor |
| `Inventory.InventoryPage.Delete` | app/inventory/page.tsx:62-76 | without confirmation or on failure nothing changes; otherwise exactly the rows with that id are removed and the list reloads |
| `RecipeList.ListRecipes` | app/recipes/page.tsx:79-92 | the empty state is shown exactly when there are no recipes; otherwise there is one tile per recipe, in the store's order |
| `RecipeList.TileDescription` | app/recipes/page.tsx:96-98 | the description appears exactly when present and non-empty, and unchanged |
| `RecipeList.TileChips` | app/recipes/page.tsx:101-133 | a tile has a chip for a stage exactly when its time is positive, and each chip's text reads back as its minutes |
| `RecipeList.PageView` | app/recipes/page.tsx:52-60 | only the placeholder shows while loading; afterwards the listing shows |
| `Passwords.Check` | app/auth/signup/page.tsx:20-28 | a mismatch is reported before length; a matching pair is too short exactly below 6 characters |
| `Passwords.CheckExamples` | app/auth/signup/page.tsx:20-28 | a short mismatched pair reports the mismatch; 5 characters are too short; 6 are accepted |
| `Passwords.RejectionMessage` | app/auth/reset-password/page.tsx:44-52 | a rejected pair gets the mismatch message or the form's too-short message; an accepted pair gets none |
| `Passwords.ErrorText` | app/auth/reset-password/page.tsx:67-68 | an absent or empty service message falls back to the generic one, so the shown error is never empty |
| `Signup.SignupForm.constructor` | app/auth/signup/page.tsx:10-14 | the form opens with empty fields, no error, not loading |
| `Signup.SignupForm.Submit` | app/auth/signup/page.tsx:16-30 | the old error is cleared; the request is sent exactly for an accepted pair, which alone turns `loading` on; a rejected pair shows its message |
| `Signup.SignupForm.SignUpFinished` | app/auth/signup/page.tsx:32-46 | success redirects to the login page with the confirmation message; failure shows the service's message or the fallback; `loading` ends false |
| `Signup.SubmitAndWait` | app/auth/signup/page.tsx:16-47 | a whole submission: the service is reached only for an accepted pair; the form ends idle, without an error exactly when the sign-up succeeded |
| `ResetPassword.ReplayMeaning` | app/auth/reset-password/page.tsx:18-38 | in any order of arrival, the session is valid exactly when a session was found or a `PASSWORD_RECOVERY` event arrived, and checking ends exactly when the check answered or such an event arrived |
| `ResetPassword.OtherEventsIgnored` | app/auth/reset-password/page.tsx:28-32 | any other state-change event leaves both flags unchanged |
| `ResetPassword.ResetPasswordPage.constructor` | app/auth/reset-password/page.tsx:10-16 | the page opens checking the session, not valid yet, with empty fields |
| `ResetPassword.ResetPasswordPage.SessionCheckAnswered` | app/auth/reset-password/page.tsx:19-25 | the session check applies its step to the flags |
| `ResetPassword.ResetPasswordPage.AuthStateChange` | app/auth/reset-password/page.tsx:28-33 | the callback applies its step to the flags |
| `ResetPassword.ResetPasswordPage.CurrentView` | app/auth/reset-password/page.tsx:74-106 | the placeholder shows exactly while checking; the invalid-link view shows exactly after checking without a valid session; with a valid session, the confirmation shows exactly when the update succeeded and the form exactly when it has not |
| `ResetPassword.ResetPasswordPage.Submit` | app/auth/reset-password/page.tsx:40-54 | the same checks in the same order as sign-up, with this form's wording; the update is requested exactly for an accepted pair |
| `ResetPassword.ResetPasswordPage.UpdateFinished` | app/auth/reset-password/page.tsx:56-71 | success shows the confirmation; failure shows the service's message or the fallback; `loading` ends false |

## Left out

- Calls to the hosted database and authentication service. Queries, inserts, updates, deletes, `getSession`, `signUp` and `updateUser` are replaced by parameters: the rows returned, or whether the call succeeded.
- React rendering, effects scheduling, `alert`, `confirm` (its answer is a parameter), `console.error` and navigation (returned as a redirect value where the page redirects).
- The `setTimeout` redirect after a password reset: a timer.
- The clock. Today's date and the date a week later on the shopping page, and today's date on the planning form, are parameters. `date-fns` formatting of dates for display is not modelled.
- Sorting by the store: plans by date and start time, recipes newest first, ingredients by name. The model takes the rows in the order the store returns them.
- How the store compares `planned_date` in the `gte`/`lte` window (app/shopping/page.tsx:61-62). The model renders the window as text order on `yyyy-MM-dd` strings, which `Dates.FullDateOrder` shows is chronological order for well-formed dates.
- Floating point. Quantities and multipliers are exact reals; IEEE rounding is not modelled. The shown `toFixed` decimals are not modelled either.
- `parseInt`/`parseFloat` on input text. The parse result is a parameter (`None` for NaN); only the `|| fallback` step is modelled. `Number` on start-time pieces is modelled for ASCII decimal digits and a leading minus sign only. The model reads any other piece as NaN, although JavaScript's `Number` accepts more: surrounding spaces (`Number(" 12")` is 12), a `+` sign, decimals, exponents and hexadecimal.
- `String.prototype.trim`: blank means made entirely of the whitespace characters `RecipeForm.IsSpace` lists, not every Unicode space.
- Text lengths count characters, not UTF-16 code units. This matters only for the 6-character password minimum on characters outside the Basic Multilingual Plane.
- Dictionary key order. `Object.values` is taken as insertion order, which holds for the UUID keys the store assigns. It would not hold for integer-like keys.
- Aliasing in the recipe form's line edits. The page mutates the shallow-copied line object in place (app/recipes/new/page.tsx:354-357, 376-379). The model replaces that one line by value, so sharing between the old and new arrays is not captured.
- The planning page's delete and status-change handlers (app/planning/page.tsx:117-145). They are one foreign call each, followed by a reload.
- The login, forgot-password, dashboard and landing pages, which hold no modelled logic.
- The separately fetched ingredient list on the shopping page (app/shopping/page.tsx:68-72). Only its error is used: the stock comes from the joined records.
