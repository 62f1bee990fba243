/**
 * The inventory page (inventario/script.js): a module-level list of
 * `{ name, quantity }` rows. Adding merges by name or pushes a new row;
 * deleting splices one row out by index. The list is the field of an
 * `Inventory` object that the two handlers update in place. The form fields
 * arrive already read: the name as typed and the quantity as `parseInt` left
 * it (`None` for `NaN`).
 */
module Inventory {
  import opened Types

  datatype Item = Item(name: string, quantity: int)

  /** `inventory.find(item => item.name === name)`, as the index of the first match. */
  function IndexOfName(items: seq<Item>, name: string): (r: Option<nat>)
    ensures r.Some? ==> r.value < |items| && items[r.value].name == name
    ensures r.Some? ==> forall j :: 0 <= j < r.value ==> items[j].name != name
    ensures r.None? ==> forall j :: 0 <= j < |items| ==> items[j].name != name
  {
    if items == [] then None
    else if items[0].name == name then Some(0)
    else match IndexOfName(items[1..], name)
      case None => None
      case Some(k) => Some(k + 1)
  }

  /** The guard of `addItem`: a non-empty name and a quantity that is a number. */
  predicate ValidInput(name: string, quantity: Option<int>)
  {
    name != "" && quantity.Some?
  }

  /** The list after a valid add of `quantity` units of `name`. */
  function Added(items: seq<Item>, name: string, quantity: int): seq<Item>
  {
    match IndexOfName(items, name)
    case Some(i) => items[i := items[i].(quantity := items[i].quantity + quantity)]
    case None => items + [Item(name, quantity)]
  }

  /** Where `splice(index, 1)` starts: a negative index counts from the end, clamped to the list. */
  function SpliceStart(index: int, len: nat): (r: nat)
    ensures r <= len
  {
    if index < 0 then (if len + index < 0 then 0 else len + index)
    else if index > len then len
    else index
  }

  /** The list after `splice(index, 1)`. */
  function Spliced(items: seq<Item>, index: int): (r: seq<Item>)
    ensures 0 <= index < |items| ==>
      |r| == |items| - 1 &&
      forall j :: 0 <= j < |r| ==> r[j] == items[if j < index then j else j + 1]
    ensures index >= |items| ==> r == items
  {
    var start := SpliceStart(index, |items|);
    if start < |items| then items[..start] + items[start + 1..] else items
  }

  ghost predicate UniqueNames(items: seq<Item>)
  {
    forall i, j :: 0 <= i < j < |items| ==> items[i].name != items[j].name
  }

  function TotalQuantity(items: seq<Item>): int
  {
    if items == [] then 0 else items[0].quantity + TotalQuantity(items[1..])
  }

  class Inventory {
    var items: seq<Item>

    constructor ()
      ensures items == []
    {
      items := [];
    }

    /** The lookup of `addItem`: the first row with the name, scanning from the front. */
    method FindByName(name: string) returns (found: Option<nat>)
      ensures found == IndexOfName(items, name)
    {
      var i := 0;
      while i < |items| && items[i].name != name
        invariant 0 <= i <= |items|
        invariant forall j :: 0 <= j < i ==> items[j].name != name
      {
        i := i + 1;
      }
      found := if i < |items| then Some(i) else None;
      if found.None? {
        assert IndexOfName(items, name).None?;
      }
    }

    /** `addItem`: merge into the row with the same name or push a new row; refuse a bad input. */
    method AddItem(name: string, quantity: Option<int>) returns (ok: bool)
      modifies this
      ensures ok == ValidInput(name, quantity)
      ensures items == if ok then Added(old(items), name, quantity.value) else old(items)
    {
      ok := ValidInput(name, quantity);
      if !ok {
        return;
      }
      var found := FindByName(name);
      match found
      case Some(i) =>
        items := items[i := items[i].(quantity := items[i].quantity + quantity.value)];
      case None =>
        items := items + [Item(name, quantity.value)];
    }

    /** `deleteItem`: `inventory.splice(index, 1)`. */
    method DeleteItem(index: int)
      modifies this
      ensures items == Spliced(old(items), index)
    {
      var start := SpliceStart(index, |items|);
      if start < |items| {
        items := items[..start] + items[start + 1..];
      }
    }
  }

  // ---------------------------------------------------------------------------
  // Lemmas

  /**
   * A valid add of a name already listed adds to that row's quantity and
   * keeps the length; a new name is appended at the end.
   */
  lemma AddMergesOrAppends(items: seq<Item>, name: string, quantity: int)
    requires UniqueNames(items)
    ensures var r := Added(items, name, quantity);
      (exists i :: 0 <= i < |items| && items[i].name == name) ==>
        |r| == |items| &&
        forall j :: 0 <= j < |items| ==>
          r[j] == if items[j].name == name then items[j].(quantity := items[j].quantity + quantity) else items[j]
    ensures (forall i :: 0 <= i < |items| ==> items[i].name != name) ==>
      Added(items, name, quantity) == items + [Item(name, quantity)]
  {
    match IndexOfName(items, name)
    case Some(i) =>
      forall j | 0 <= j < |items| && j != i ensures items[j].name != name {
      }
    case None =>
  }

  /** Names stay unique under a valid add. */
  lemma AddedUniqueNames(items: seq<Item>, name: string, quantity: int)
    requires UniqueNames(items)
    ensures UniqueNames(Added(items, name, quantity))
  {
    var r := Added(items, name, quantity);
    match IndexOfName(items, name)
    case Some(i) =>
      assert forall j :: 0 <= j < |r| ==> r[j].name == items[j].name;
    case None =>
      assert r == items + [Item(name, quantity)];
      assert r[|items|].name == name;
  }

  /** The inventory after a series of form submissions, valid or not. */
  function AfterAdds(items: seq<Item>, adds: seq<(string, Option<int>)>): seq<Item>
    decreases |adds|
  {
    if adds == [] then items
    else
      var (name, quantity) := adds[0];
      AfterAdds(if ValidInput(name, quantity) then Added(items, name, quantity.value) else items, adds[1..])
  }

  /** Names stay unique across any sequence of adds. */
  lemma {:induction false} AfterAddsUniqueNames(items: seq<Item>, adds: seq<(string, Option<int>)>)
    requires UniqueNames(items)
    ensures UniqueNames(AfterAdds(items, adds))
    decreases |adds|
  {
    if adds != [] {
      var (name, quantity) := adds[0];
      if ValidInput(name, quantity) {
        AddedUniqueNames(items, name, quantity.value);
        AfterAddsUniqueNames(Added(items, name, quantity.value), adds[1..]);
      } else {
        AfterAddsUniqueNames(items, adds[1..]);
      }
    }
  }

  lemma {:induction false} TotalQuantityAppend(items: seq<Item>, x: Item)
    ensures TotalQuantity(items + [x]) == TotalQuantity(items) + x.quantity
  {
    if items != [] {
      assert (items + [x])[1..] == items[1..] + [x];
      TotalQuantityAppend(items[1..], x);
    }
  }

  lemma {:induction false} TotalQuantityUpdate(items: seq<Item>, i: nat, x: Item)
    requires i < |items|
    ensures TotalQuantity(items[i := x]) == TotalQuantity(items) - items[i].quantity + x.quantity
  {
    if i > 0 {
      assert items[i := x][1..] == items[1..][i - 1 := x];
      TotalQuantityUpdate(items[1..], i - 1, x);
    } else {
      assert items[i := x][1..] == items[1..];
    }
  }

  /** A valid add raises the sum of all quantities by exactly the quantity given, whatever its sign. */
  lemma AddedTotal(items: seq<Item>, name: string, quantity: int)
    ensures TotalQuantity(Added(items, name, quantity)) == TotalQuantity(items) + quantity
  {
    match IndexOfName(items, name)
    case Some(i) =>
      TotalQuantityUpdate(items, i, items[i].(quantity := items[i].quantity + quantity));
    case None =>
      TotalQuantityAppend(items, Item(name, quantity));
  }

  /**
   * A rejected submission leaves the inventory as it was, whatever came
   * before it: the list after all the submissions is the list after all but
   * the last.
   */
  lemma {:induction false} InvalidAddUnchanged(items: seq<Item>, adds: seq<(string, Option<int>)>)
    requires |adds| >= 1 && !ValidInput(adds[|adds| - 1].0, adds[|adds| - 1].1)
    ensures AfterAdds(items, adds) == AfterAdds(items, adds[..|adds| - 1])
    decreases |adds|
  {
    if |adds| == 1 {
      assert adds[1..] == [] && adds[..0] == [];
    } else {
      var (name, quantity) := adds[0];
      var next := if ValidInput(name, quantity) then Added(items, name, quantity.value) else items;
      assert adds[1..][..|adds| - 2] == adds[..|adds| - 1][1..];
      InvalidAddUnchanged(next, adds[1..]);
    }
  }

  /** Deleting index `i` of the list removes exactly row `i`; the others keep their order. */
  lemma DeleteRemovesOne(items: seq<Item>, i: int)
    requires 0 <= i < |items|
    ensures Spliced(items, i) == items[..i] + items[i + 1..]
    ensures multiset(Spliced(items, i)) + multiset{items[i]} == multiset(items)
  {
    assert items == items[..i] + [items[i]] + items[i + 1..];
  }
}
