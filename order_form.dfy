/**
 * The order cart of the order form (project/src/components/OrderForm.tsx).
 * Every handler builds a new list from the old one with `find`, `map`,
 * `filter` or `reduce`, and the form replaces its cart wholesale, so the cart
 * operations are functions from the old cart to the new one.
 */
module OrderForm {
  import opened Types

  /** A cart line: the menu item itself, a quantity and optional notes. */
  datatype CartLine = CartLine(menuItem: MenuItem, quantity: int, notes: Option<string>)

  /** What the form hands to its `onSubmit` callback. */
  datatype Submission = Submission(items: seq<CartLine>, total: int)

  /** No two lines are for the same menu item. */
  ghost predicate UniqueIds(cart: seq<CartLine>)
  {
    forall i, j :: 0 <= i < j < |cart| ==> cart[i].menuItem.id != cart[j].menuItem.id
  }

  /** Every line has a quantity of at least one. */
  ghost predicate Positive(cart: seq<CartLine>)
  {
    forall i :: 0 <= i < |cart| ==> cart[i].quantity >= 1
  }

  ghost predicate WellFormed(cart: seq<CartLine>)
  {
    UniqueIds(cart) && Positive(cart)
  }

  /** `orderItems.find(item => item.menuItem.id === id)`, as the index of the first match. */
  function FindLine(cart: seq<CartLine>, id: int): (r: Option<nat>)
    ensures r.Some? ==> r.value < |cart| && cart[r.value].menuItem.id == id
    ensures r.Some? ==> forall j :: 0 <= j < r.value ==> cart[j].menuItem.id != id
    ensures r.None? ==> forall j :: 0 <= j < |cart| ==> cart[j].menuItem.id != id
  {
    if cart == [] then None
    else if cart[0].menuItem.id == id then Some(0)
    else match FindLine(cart[1..], id)
      case None => None
      case Some(k) => Some(k + 1)
  }

  /** The `map` that adds `delta` to the quantity of every line for menu item `id`. */
  function Bump(cart: seq<CartLine>, id: int, delta: int): (r: seq<CartLine>)
    ensures |r| == |cart|
    ensures forall i :: 0 <= i < |r| ==> r[i].menuItem == cart[i].menuItem && r[i].notes == cart[i].notes
    ensures forall i :: 0 <= i < |r| ==>
      r[i].quantity == cart[i].quantity + (if cart[i].menuItem.id == id then delta else 0)
  {
    seq(|cart|, i requires 0 <= i < |cart| =>
      if cart[i].menuItem.id == id then cart[i].(quantity := cart[i].quantity + delta) else cart[i])
  }

  /** The `filter` that drops every line for menu item `id`. */
  function Without(cart: seq<CartLine>, id: int): (r: seq<CartLine>)
    ensures |r| <= |cart|
    ensures forall x :: x in r <==> x in cart && x.menuItem.id != id
  {
    if cart == [] then []
    else if cart[0].menuItem.id == id then Without(cart[1..], id)
    else [cart[0]] + Without(cart[1..], id)
  }

  /** `addItem`: one more of a menu item already in the cart, else a new line of one. */
  function AddItem(cart: seq<CartLine>, m: MenuItem): seq<CartLine>
  {
    if FindLine(cart, m.id).Some? then Bump(cart, m.id, 1)
    else cart + [CartLine(m, 1, None)]
  }

  /** `removeItem`: one fewer of a menu item, dropping its line when the last one goes. */
  function RemoveItem(cart: seq<CartLine>, m: MenuItem): seq<CartLine>
  {
    match FindLine(cart, m.id)
    case None => cart
    case Some(i) =>
      if cart[i].quantity > 1 then Bump(cart, m.id, -1)
      else Without(cart, m.id)
  }

  /** `updateNotes`: the lines for the menu item get the new notes. */
  function UpdateNotes(cart: seq<CartLine>, m: MenuItem, notes: string): seq<CartLine>
  {
    seq(|cart|, i requires 0 <= i < |cart| =>
      if cart[i].menuItem.id == m.id then cart[i].(notes := Some(notes)) else cart[i])
  }

  function LineTotal(line: CartLine): int
  {
    line.menuItem.price * line.quantity
  }

  /** `calculateTotal`: the `reduce` of price times quantity over the cart, from 0. */
  function CalculateTotal(cart: seq<CartLine>): int
  {
    if cart == [] then 0 else LineTotal(cart[0]) + CalculateTotal(cart[1..])
  }

  /** `handleSubmit`: nothing for an empty cart, otherwise the cart and its total. */
  function HandleSubmit(cart: seq<CartLine>): (r: Option<Submission>)
    ensures r.None? <==> cart == []
    ensures r.Some? ==> r.value.items == cart && r.value.total == CalculateTotal(cart)
  {
    if |cart| == 0 then None else Some(Submission(cart, CalculateTotal(cart)))
  }

  /** `item.category || 'Others'`: an absent or empty category reads as "Others". */
  function CategoryOf(item: MenuItem): (r: string)
    ensures r != ""
    ensures item.category.Some? && item.category.value != "" ==> r == item.category.value
  {
    match item.category
    case Some(c) => if c == "" then "Others" else c
    case None => "Others"
  }

  /** The category the form starts on. */
  const InitialCategory: Option<string> := Some("Comida")

  /** `Array.from(new Set(xs))`: the distinct values, each at its first occurrence. */
  function Distinct(xs: seq<string>): (r: seq<string>)
  {
    DistinctAfter([], xs)
  }

  function DistinctAfter(seen: seq<string>, xs: seq<string>): seq<string>
    decreases |xs|
  {
    if xs == [] then seen
    else if xs[0] in seen then DistinctAfter(seen, xs[1..])
    else DistinctAfter(seen + [xs[0]], xs[1..])
  }

  /** The category buttons: one per distinct category, in the menu's order. */
  function Categories(menu: seq<MenuItem>): seq<string>
  {
    Distinct(seq(|menu|, i requires 0 <= i < |menu| => CategoryOf(menu[i])))
  }

  /** The menu items listed under the selected category (all of them when none is selected). */
  function Shown(menu: seq<MenuItem>, selected: Option<string>): (r: seq<MenuItem>)
    ensures forall x :: x in r <==> x in menu && (selected.None? || CategoryOf(x) == selected.value)
  {
    if menu == [] then []
    else if selected.None? || CategoryOf(menu[0]) == selected.value then [menu[0]] + Shown(menu[1..], selected)
    else Shown(menu[1..], selected)
  }

  // ---------------------------------------------------------------------------
  // Lemmas

  /**
   * `addItem` on a menu item already in a well-formed cart raises that line's
   * quantity by one and changes nothing else.
   */
  lemma AddItemPresent(cart: seq<CartLine>, m: MenuItem, i: nat)
    requires UniqueIds(cart)
    requires FindLine(cart, m.id) == Some(i)
    ensures AddItem(cart, m) == cart[i := cart[i].(quantity := cart[i].quantity + 1)]
  {
    var r := AddItem(cart, m);
    var e := cart[i := cart[i].(quantity := cart[i].quantity + 1)];
    assert |r| == |e|;
    forall j | 0 <= j < |r| ensures r[j] == e[j] {
      if j != i {
        assert cart[j].menuItem.id != m.id;
      }
    }
  }

  /** `addItem` on a menu item not in the cart appends a line of one, without notes. */
  lemma AddItemAbsent(cart: seq<CartLine>, m: MenuItem)
    requires FindLine(cart, m.id).None?
    ensures AddItem(cart, m) == cart + [CartLine(m, 1, None)]
  {
  }

  /** Dropping the lines of an item that occurs only at `i` removes exactly line `i`. */
  lemma {:induction false} WithoutAt(cart: seq<CartLine>, id: int, i: nat)
    requires i < |cart| && cart[i].menuItem.id == id
    requires forall j :: 0 <= j < |cart| && j != i ==> cart[j].menuItem.id != id
    ensures Without(cart, id) == cart[..i] + cart[i + 1..]
  {
    if i == 0 {
      WithoutNone(cart[1..], id);
      assert cart[1..] == cart[i + 1..];
    } else {
      assert cart[0].menuItem.id != id;
      WithoutAt(cart[1..], id, i - 1);
      WithoutAtStep(cart, id, i);
    }
  }

  lemma WithoutAtStep(cart: seq<CartLine>, id: int, i: nat)
    requires 0 < i < |cart| && cart[0].menuItem.id != id
    requires Without(cart[1..], id) == cart[1..][..i - 1] + cart[1..][i..]
    ensures Without(cart, id) == cart[..i] + cart[i + 1..]
  {
    assert cart[1..][..i - 1] == cart[1..i];
    assert cart[1..][i..] == cart[i + 1..];
    assert cart[..i] == [cart[0]] + cart[1..i];
  }

  /** Dropping the lines of an item the cart does not hold changes nothing. */
  lemma {:induction false} WithoutNone(cart: seq<CartLine>, id: int)
    requires forall j :: 0 <= j < |cart| ==> cart[j].menuItem.id != id
    ensures Without(cart, id) == cart
  {
    if cart != [] {
      WithoutNone(cart[1..], id);
      assert cart == [cart[0]] + cart[1..];
    }
  }

  /** `removeItem` of a menu item not in the cart changes nothing. */
  lemma RemoveItemAbsent(cart: seq<CartLine>, m: MenuItem)
    requires FindLine(cart, m.id).None?
    ensures RemoveItem(cart, m) == cart
  {
  }

  /**
   * `removeItem` of a menu item in a well-formed cart: one fewer when there
   * is more than one, otherwise the line goes and the rest keep their order.
   */
  lemma RemoveItemPresent(cart: seq<CartLine>, m: MenuItem, i: nat)
    requires UniqueIds(cart)
    requires FindLine(cart, m.id) == Some(i)
    ensures cart[i].quantity > 1 ==> RemoveItem(cart, m) == cart[i := cart[i].(quantity := cart[i].quantity - 1)]
    ensures cart[i].quantity <= 1 ==> RemoveItem(cart, m) == cart[..i] + cart[i + 1..]
  {
    forall j | 0 <= j < |cart| && j != i ensures cart[j].menuItem.id != m.id {
    }
    if cart[i].quantity > 1 {
      var r := RemoveItem(cart, m);
      var e := cart[i := cart[i].(quantity := cart[i].quantity - 1)];
      assert |r| == |e|;
      forall j | 0 <= j < |r| ensures r[j] == e[j] {
      }
    } else {
      WithoutAt(cart, m.id, i);
    }
  }

  /** `addItem` keeps menu-item ids unique and every quantity at least one. */
  lemma AddItemWellFormed(cart: seq<CartLine>, m: MenuItem)
    requires WellFormed(cart)
    ensures WellFormed(AddItem(cart, m))
  {
    match FindLine(cart, m.id)
    case Some(i) =>
      AddItemPresent(cart, m, i);
    case None =>
      var r := AddItem(cart, m);
      assert r == cart + [CartLine(m, 1, None)];
      assert r[|cart|].menuItem.id == m.id;
  }

  /** `removeItem` keeps menu-item ids unique and every quantity at least one. */
  lemma RemoveItemWellFormed(cart: seq<CartLine>, m: MenuItem)
    requires WellFormed(cart)
    ensures WellFormed(RemoveItem(cart, m))
  {
    match FindLine(cart, m.id)
    case None =>
    case Some(i) =>
      RemoveItemPresent(cart, m, i);
      if cart[i].quantity > 1 {
        DecrementWellFormed(cart, i);
      } else {
        DropWellFormed(cart, i);
      }
  }

  lemma DecrementWellFormed(cart: seq<CartLine>, i: nat)
    requires WellFormed(cart) && i < |cart| && cart[i].quantity > 1
    ensures WellFormed(cart[i := cart[i].(quantity := cart[i].quantity - 1)])
  {
    var r := cart[i := cart[i].(quantity := cart[i].quantity - 1)];
    assert forall a :: 0 <= a < |r| ==> r[a].menuItem == cart[a].menuItem;
  }

  lemma DropWellFormed(cart: seq<CartLine>, i: nat)
    requires WellFormed(cart) && i < |cart|
    ensures WellFormed(cart[..i] + cart[i + 1..])
  {
    var r := cart[..i] + cart[i + 1..];
    assert forall a :: 0 <= a < |r| ==> r[a] == cart[if a < i then a else a + 1];
  }

  /** Removing an item right after adding it gives the original cart back, whether or not it was there. */
  lemma RemoveAfterAdd(cart: seq<CartLine>, m: MenuItem)
    requires Positive(cart)
    ensures RemoveItem(AddItem(cart, m), m) == cart
  {
    var added := AddItem(cart, m);
    match FindLine(cart, m.id)
    case Some(i) =>
      assert FindLine(added, m.id) == Some(i) by { FindLineSameIds(cart, added, m.id); }
      var r := RemoveItem(added, m);
      assert |r| == |cart|;
      forall j | 0 <= j < |r| ensures r[j] == cart[j] {
      }
    case None =>
      var line := CartLine(m, 1, None);
      assert added == cart + [line];
      assert FindLine(added, m.id) == Some(|cart|) by { FindLineAppend(cart, line, m.id); }
      calc {
        RemoveItem(added, m);
        Without(cart + [line], m.id);
        { WithoutAt(cart + [line], m.id, |cart|); }
        (cart + [line])[..|cart|] + (cart + [line])[|cart| + 1..];
        { assert (cart + [line])[..|cart|] == cart; }
        cart;
      }
  }

  /** Two carts with the same ids line by line have their first matches at the same place. */
  lemma {:induction false} FindLineSameIds(a: seq<CartLine>, b: seq<CartLine>, id: int)
    requires |a| == |b|
    requires forall j :: 0 <= j < |a| ==> a[j].menuItem.id == b[j].menuItem.id
    ensures FindLine(a, id) == FindLine(b, id)
  {
    if a != [] {
      FindLineSameIds(a[1..], b[1..], id);
    }
  }

  /** An item absent from the cart is found at the line appended for it. */
  lemma FindLineAppend(cart: seq<CartLine>, line: CartLine, id: int)
    requires FindLine(cart, id).None? && line.menuItem.id == id
    ensures FindLine(cart + [line], id) == Some(|cart|)
  {
    var r := FindLine(cart + [line], id);
    assert (cart + [line])[|cart|].menuItem.id == id;
    if r.Some? {
      assert r.value == |cart|;
    }
  }

  /** `updateNotes` changes only the notes of the lines for the item; an absent item is a no-op. */
  lemma UpdateNotesOnly(cart: seq<CartLine>, m: MenuItem, notes: string)
    ensures |UpdateNotes(cart, m, notes)| == |cart|
    ensures forall i :: 0 <= i < |cart| ==>
      var r := UpdateNotes(cart, m, notes)[i];
      r.menuItem == cart[i].menuItem && r.quantity == cart[i].quantity &&
      r.notes == (if cart[i].menuItem.id == m.id then Some(notes) else cart[i].notes)
    ensures FindLine(cart, m.id).None? ==> UpdateNotes(cart, m, notes) == cart
  {
    if FindLine(cart, m.id).None? {
      var r := UpdateNotes(cart, m, notes);
      assert |r| == |cart|;
      forall i | 0 <= i < |r| ensures r[i] == cart[i] {
      }
    }
  }

  /** The total of a cart with one more line is the old total plus that line's total. */
  lemma {:induction false} TotalAppend(cart: seq<CartLine>, line: CartLine)
    ensures CalculateTotal(cart + [line]) == CalculateTotal(cart) + LineTotal(line)
  {
    if cart != [] {
      assert (cart + [line])[1..] == cart[1..] + [line];
      TotalAppend(cart[1..], line);
    }
  }

  /** Replacing one line changes the total by the difference of the two line totals. */
  lemma {:induction false} TotalUpdate(cart: seq<CartLine>, i: nat, line: CartLine)
    requires i < |cart|
    ensures CalculateTotal(cart[i := line]) == CalculateTotal(cart) - LineTotal(cart[i]) + LineTotal(line)
  {
    if i > 0 {
      assert cart[i := line][1..] == cart[1..][i - 1 := line];
      TotalUpdate(cart[1..], i - 1, line);
    } else {
      assert cart[i := line][1..] == cart[1..];
    }
  }

  /**
   * Adding an item to a well-formed cart raises the total by exactly the
   * item's price, provided a line already there for it carries the same price.
   */
  lemma TotalAfterAdd(cart: seq<CartLine>, m: MenuItem)
    requires UniqueIds(cart)
    requires forall j :: 0 <= j < |cart| && cart[j].menuItem.id == m.id ==> cart[j].menuItem.price == m.price
    ensures CalculateTotal(AddItem(cart, m)) == CalculateTotal(cart) + m.price
  {
    match FindLine(cart, m.id)
    case Some(i) =>
      AddItemPresent(cart, m, i);
      OneMoreTotal(cart, i);
      assert cart[i].menuItem.price == m.price;
    case None =>
      AddItemAbsent(cart, m);
      TotalAppend(cart, CartLine(m, 1, None));
  }

  /** One more of line `i` raises the total by that line's price. */
  lemma OneMoreTotal(cart: seq<CartLine>, i: nat)
    requires i < |cart|
    ensures CalculateTotal(cart[i := cart[i].(quantity := cart[i].quantity + 1)]) == CalculateTotal(cart) + cart[i].menuItem.price
  {
    var line := cart[i].(quantity := cart[i].quantity + 1);
    TotalUpdate(cart, i, line);
    assert LineTotal(line) == LineTotal(cart[i]) + cart[i].menuItem.price;
  }

  /** `Distinct` keeps what has been seen, adds every value of the input, and nothing else. */
  lemma {:induction false} DistinctAfterMembers(seen: seq<string>, xs: seq<string>)
    ensures forall x :: x in DistinctAfter(seen, xs) <==> x in seen || x in xs
    decreases |xs|
  {
    if xs != [] {
      if xs[0] in seen {
        DistinctAfterMembers(seen, xs[1..]);
      } else {
        DistinctAfterMembers(seen + [xs[0]], xs[1..]);
      }
      assert xs == [xs[0]] + xs[1..];
    }
  }

  ghost predicate NoDuplicates(s: seq<string>)
  {
    forall i, j :: 0 <= i < j < |s| ==> s[i] != s[j]
  }

  /** Starting from distinct values, `Distinct` stays free of duplicates. */
  lemma {:induction false} DistinctAfterNoDuplicates(seen: seq<string>, xs: seq<string>)
    requires NoDuplicates(seen)
    ensures NoDuplicates(DistinctAfter(seen, xs))
    decreases |xs|
  {
    if xs != [] {
      if xs[0] in seen {
        DistinctAfterNoDuplicates(seen, xs[1..]);
      } else {
        var s' := seen + [xs[0]];
        forall i, j | 0 <= i < j < |s'| ensures s'[i] != s'[j] {
          if j == |seen| {
            assert s'[i] == seen[i];
          }
        }
        DistinctAfterNoDuplicates(s', xs[1..]);
      }
    }
  }

  /** The category buttons are distinct, and a category has a button iff some menu item falls under it. */
  lemma CategoriesExact(menu: seq<MenuItem>)
    ensures NoDuplicates(Categories(menu))
    ensures forall c :: c in Categories(menu) <==> exists i :: 0 <= i < |menu| && CategoryOf(menu[i]) == c
  {
    var cats := seq(|menu|, i requires 0 <= i < |menu| => CategoryOf(menu[i]));
    DistinctAfterMembers([], cats);
    DistinctAfterNoDuplicates([], cats);
    forall c ensures c in Categories(menu) <==> exists i :: 0 <= i < |menu| && CategoryOf(menu[i]) == c {
      if c in Categories(menu) {
        var k :| 0 <= k < |cats| && cats[k] == c;
        assert CategoryOf(menu[k]) == c;
      }
      if exists i :: 0 <= i < |menu| && CategoryOf(menu[i]) == c {
        var k :| 0 <= k < |menu| && CategoryOf(menu[k]) == c;
        assert cats[k] == c;
      }
    }
  }
}
