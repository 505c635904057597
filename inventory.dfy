/** The stock page (app/inventory/page.tsx): the table of ingredients, the
    single-row stock editor, saving and deleting, and the low-stock styling.
    The record store's table is passed in and returned, so that the effect
    of each write on it can be stated. */
module Inventory {
  import opened Wrappers
  import opened Database
  import opened Inputs

  /** Stock below 100 is styled as a warning, otherwise as a success. */
  datatype Styling = Warning | Healthy

  function StockStyle(i: Ingredient): (s: Styling)
    ensures s == Warning <==> i.stock_quantity < 100.0
  {
    if i.stock_quantity < 100.0 then Warning else Healthy
  }

  /** The store's `update({ stock_quantity }).eq('id', id)`. */
  function UpdateStockRows(rows: seq<Ingredient>, id: Id, quantity: real): (r: seq<Ingredient>)
    ensures |r| == |rows|
    ensures forall k :: 0 <= k < |rows| ==>
              r[k] == if rows[k].id == id then rows[k].(stock_quantity := quantity) else rows[k]
  {
    seq(|rows|, k requires 0 <= k < |rows| => if rows[k].id == id then rows[k].(stock_quantity := quantity) else rows[k])
  }

  /** The store's `delete().eq('id', id)`. */
  function DeleteRows(rows: seq<Ingredient>, id: Id): seq<Ingredient> {
    if rows == [] then []
    else if rows[0].id == id then DeleteRows(rows[1..], id)
    else [rows[0]] + DeleteRows(rows[1..], id)
  }

  /** Deleting removes exactly the rows with that id and keeps the rest. */
  lemma {:induction false} DeleteRowsMembers(rows: seq<Ingredient>, id: Id)
    ensures forall x :: x in DeleteRows(rows, id) <==> x in rows && x.id != id
    ensures forall x :: multiset(DeleteRows(rows, id))[x] == if x.id == id then 0 else multiset(rows)[x]
    ensures |DeleteRows(rows, id)| <= |rows|
  {
    if rows != [] {
      DeleteRowsMembers(rows[1..], id);
      assert rows == [rows[0]] + rows[1..];
      assert multiset(rows) == multiset{rows[0]} + multiset(rows[1..]);
    }
  }

  /** Deleting an id no row has changes nothing. */
  lemma {:induction false} DeleteAbsent(rows: seq<Ingredient>, id: Id)
    requires forall k :: 0 <= k < |rows| ==> rows[k].id != id
    ensures DeleteRows(rows, id) == rows
  {
    if rows != [] {
      DeleteAbsent(rows[1..], id);
      assert [rows[0]] + rows[1..] == rows;
    }
  }

  /** Updating then reading back: the row with that id has the new stock,
      and every other row is unchanged. */
  lemma UpdateOnlyMatching(rows: seq<Ingredient>, id: Id, quantity: real, x: Ingredient)
    requires x in rows
    ensures x.id != id ==> x in UpdateStockRows(rows, id, quantity)
    ensures x.id == id ==> x.(stock_quantity := quantity) in UpdateStockRows(rows, id, quantity)
  {
    var k :| 0 <= k < |rows| && rows[k] == x;
    assert UpdateStockRows(rows, id, quantity)[k] == if x.id == id then x.(stock_quantity := quantity) else x;
  }

  /** A row shows the editor when its id is the edited one. */
  predicate Editing(editingId: Option<Id>, row: Ingredient) {
    editingId == Some(row.id)
  }

  /** With distinct ids, at most one row shows the editor. */
  lemma AtMostOneEditor(rows: seq<Ingredient>, editingId: Option<Id>)
    requires forall a, b :: 0 <= a < b < |rows| ==> rows[a].id != rows[b].id
    ensures forall i, j ::
              (0 <= i < |rows| && 0 <= j < |rows| && Editing(editingId, rows[i]) && Editing(editingId, rows[j])) ==> i == j
  {
  }

  class InventoryPage {
    var ingredients: seq<Ingredient>
    var loading: bool
    var editingId: Option<Id>
    var editQuantity: real

    constructor ()
      ensures ingredients == [] && loading && editingId.None? && editQuantity == 0.0
    {
      ingredients, loading, editingId, editQuantity := [], true, None, 0.0;
    }

    /** `loadIngredients`: `read` is the store's answer (`None` on error). */
    method LoadIngredients(read: Option<seq<Ingredient>>)
      modifies this`ingredients, this`loading
      ensures ingredients == read.GetOr(old(ingredients)) && !loading
    {
      if read.Some? {
        ingredients := read.value;
      }
      loading := false;
    }

    /** Clicking a stock value opens the editor on that row with its stock. */
    method ClickStock(row: Ingredient)
      modifies this`editingId, this`editQuantity
      ensures editingId == Some(row.id) && editQuantity == row.stock_quantity
    {
      editingId, editQuantity := Some(row.id), row.stock_quantity;
    }

    /** The editor's input: `parseFloat(v) || 0`, with no lower bound. */
    method ChangeEditQuantity(parsed: Option<real>)
      modifies this`editQuantity
      ensures editQuantity == RealOr(parsed, 0.0)
    {
      editQuantity := RealOr(parsed, 0.0);
    }

    method Cancel()
      modifies this`editingId
      ensures editingId.None?
    {
      editingId := None;
    }

    /** The save button of the edited row: `handleUpdateStock(editingId,
        editQuantity)`. `store` is the store's table, `written` whether the
        update succeeded and `read` the reload's answer. On a failed update
        nothing changes and the editor stays open. */
    method Save(store: seq<Ingredient>, written: bool, read: Option<seq<Ingredient>>) returns (store': seq<Ingredient>)
      requires editingId.Some?
      modifies this`ingredients, this`loading, this`editingId
      ensures !written ==> store' == store && unchanged(this)
      ensures written ==> store' == UpdateStockRows(store, old(editingId).value, editQuantity)
      ensures written ==> ingredients == read.GetOr(old(ingredients)) && !loading && editingId.None?
    {
      if !written {
        return store;
      }
      store' := UpdateStockRows(store, editingId.value, editQuantity);
      LoadIngredients(read);
      editingId := None;
    }

    /** `handleDelete(id)`: nothing without confirmation or when the delete fails. */
    method Delete(store: seq<Ingredient>, id: Id, confirmed: bool, deleted: bool, read: Option<seq<Ingredient>>)
      returns (store': seq<Ingredient>)
      modifies this`ingredients, this`loading
      ensures !confirmed || !deleted ==> store' == store && unchanged(this)
      ensures confirmed && deleted ==> store' == DeleteRows(store, id)
      ensures confirmed && deleted ==> ingredients == read.GetOr(old(ingredients)) && !loading
    {
      if !confirmed || !deleted {
        return store;
      }
      store' := DeleteRows(store, id);
      LoadIngredients(read);
    }
  }
}
