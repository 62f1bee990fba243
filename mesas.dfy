/**
 * The table-toggle page (mesas/script.js): every table button has a click
 * handler that toggles its `occupied` class and then writes `data-status` to
 * match the class. A button is an object with those two pieces of state.
 */
module Mesas {

  /** The `data-status` written for a class state. */
  function StatusFor(occupied: bool): string
  {
    if occupied then "occupied" else "free"
  }

  class TableButton {
    /** Whether `classList` contains `occupied`. */
    var occupied: bool
    /** `dataset.status`, as the markup gave it until the first click. */
    var status: string

    constructor (occupied: bool, status: string)
      ensures this.occupied == occupied && this.status == status
    {
      this.occupied := occupied;
      this.status := status;
    }

    /** The click handler: toggle the class, then mirror it in `data-status`. */
    method Click()
      modifies this
      ensures occupied == !old(occupied)
      ensures status == StatusFor(occupied)
    {
      occupied := !occupied;
      if occupied {
        status := "occupied";
      } else {
        status := "free";
      }
    }
  }

  /** A click on one button of the page leaves every other button as it was. */
  method ClickOne(buttons: seq<TableButton>, i: nat)
    requires i < |buttons|
    modifies buttons[i]
    ensures buttons[i].occupied == !old(buttons[i].occupied)
    ensures buttons[i].status == StatusFor(buttons[i].occupied)
    ensures forall b :: b in buttons && b != buttons[i] ==> b.occupied == old(b.occupied) && b.status == old(b.status)
  {
    buttons[i].Click();
  }

  /** Two clicks give the class back, and `data-status` then mirrors it. */
  method ClickTwice(button: TableButton)
    modifies button
    ensures button.occupied == old(button.occupied)
    ensures button.status == StatusFor(button.occupied)
  {
    button.Click();
    button.Click();
  }
}
