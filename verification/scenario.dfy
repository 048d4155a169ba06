/** The fixed demonstration run of `main`, starting from an empty stock as
    `loadData` leaves it when no snapshot file exists. */
module Scenario {
  import opened Ledger
  import opened Inventory

  /** The five calls of `main`, with the branch each one takes. */
  function Run(): (r: (State, seq<Status>))
  {
    var a := AddItem(Initial, Text("apple"), Int(10));
    var b := AddItem(a.next, Text("banana"), Int(2));
    var c := AddItem(b.next, Text("orange"), Unparsable);
    var d := RemoveItem(c.next, Text("apple"), Int(3));
    var e := RemoveItem(d.next, Text("orange"), Int(1));
    (e.next, [a.status, b.status, c.status, d.status, e.status])
  }

  /** The stock and log after the two additions. */
  const TwoAdded: State :=
    State([Entry("apple", 10), Entry("banana", 2)], [Added(10, "apple"), Added(2, "banana")])

  /** The stock and log after apple is reduced to 7. */
  const AppleReduced: State :=
    State([Entry("apple", 7), Entry("banana", 2)], TwoAdded.logs + [Removed(3, "apple")])

  /** `addItem("apple", 10)` creates the first entry and logs it. */
  lemma AppleAdded()
    ensures AddItem(Initial, Text("apple"), Int(10)) == Step(State([Entry("apple", 10)], [Added(10, "apple")]), Done)
  {
  }

  /** `addItem("banana", 2)` appends a second entry after apple. */
  lemma BananaAdded()
    ensures AddItem(State([Entry("apple", 10)], [Added(10, "apple")]), Text("banana"), Int(2)) == Step(TwoAdded, Done)
  {
  }

  /** `addItem("orange", "ten")` fails to parse its quantity and changes nothing. */
  lemma OrangeRejected()
    ensures AddItem(TwoAdded, Text("orange"), Unparsable) == Step(TwoAdded, InvalidQuantity)
  {
  }

  /** `removeItem("apple", 3)` lowers apple to 7 in place. */
  lemma AppleRemoved()
    ensures RemoveItem(TwoAdded, Text("apple"), Int(3)) == Step(AppleReduced, Done)
  {
  }

  /** `removeItem("orange", 1)` finds no orange and changes nothing. */
  lemma OrangeMissing()
    ensures RemoveItem(AppleReduced, Text("orange"), Int(1)) == Step(AppleReduced, MissingItem)
  {
  }

  /** `checkLowItems()` with its default threshold of 5 reports banana alone. */
  lemma OnlyBananaLow()
    ensures CheckLowItems(AppleReduced, DefaultThreshold) == ["banana"]
  {
  }

  /** Apple ends at 7 and banana at 2; the unparsable quantity and the
      removal of the never-added orange change nothing; banana alone is low. */
  lemma MainScenario()
    ensures Run().1 == [Done, Done, InvalidQuantity, Done, MissingItem]
    ensures GetQty(Run().0, Text("apple")) == 7
    ensures GetQty(Run().0, Text("banana")) == 2
    ensures !InStock(Run().0, Text("orange"))
    ensures Run().0.stock == [Entry("apple", 7), Entry("banana", 2)]
    ensures Run().0.logs == [Added(10, "apple"), Added(2, "banana"), Removed(3, "apple")]
    ensures CheckLowItems(Run().0, DefaultThreshold) == ["banana"]
  {
    assert Run() == (AppleReduced, [Done, Done, InvalidQuantity, Done, MissingItem]) by {
      AppleAdded();
      BananaAdded();
      OrangeRejected();
      AppleRemoved();
      OrangeMissing();
    }
    OnlyBananaLow();
  }
}
