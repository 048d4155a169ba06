/** The inventory of `inventory_system.py`: the global `stock_data` dict and
    the `logs` buffer, made one immutable state value, with `addItem` and
    `removeItem` as transitions and `getQty` and `checkLowItems` as queries. */
module Inventory {
  import opened Ledger
  import Strings

  /** The `item` argument: a Python `str`, or a value of any other type. */
  datatype Item = Text(s: string) | NotText

  /** The `qty` argument as `int(qty)` sees it: it converts to an integer,
      or the conversion raises `ValueError`. */
  datatype Quantity = Int(n: int) | Unparsable

  /** One activity-log line, without its timestamp. */
  datatype Activity = Added(qty: int, item: string) | Removed(qty: int, item: string)

  /** The branch a call took, which decides what it reports to the
      diagnostic log: `Done` (info), `InvalidName` and `InvalidQuantity`
      (error, the `ValueError` handlers), `MissingItem` (warning). */
  datatype Status = Done | InvalidName | InvalidQuantity | MissingItem

  /** `stock_data` and `logs`. */
  datatype State = State(stock: Items, logs: seq<Activity>)

  /** The state after a transition and the branch that produced it. */
  datatype Step = Step(next: State, status: Status)

  /** The default `threshold` of `checkLowItems`. */
  const DefaultThreshold: int := 5

  /** The state before anything is loaded or added. */
  const Initial: State := State([], [])

  /** The only invariant: the stock is a dict, each name held once. Nothing
      bounds the quantities. */
  predicate Valid(st: State) {
    Wf(st.stock)
  }

  /** `addItem`'s name check: a `str` whose `strip()` is not empty, that
      is, one that is not blank (`Strings.StripEmptyIffBlank`). */
  predicate AcceptedName(item: Item) {
    item.Text? && !Strings.IsBlank(item.s)
  }

  /** `item in stock_data`. */
  predicate InStock(st: State, item: Item) {
    item.Text? && item.s in ToMap(st.stock)
  }

  /** `getQty(item)`: the stored quantity, or 0 for an absent name. */
  function GetQty(st: State, item: Item): (r: int)
    ensures InStock(st, item) ==> r == ToMap(st.stock)[item.s]
    ensures !InStock(st, item) ==> r == 0
  {
    match item
    case NotText => 0
    case Text(s) => Get(st.stock, s)
  }

  /** `addItem(item, qty)`. */
  function AddItem(st: State, item: Item, qty: Quantity): (r: Step)
    requires Valid(st)
    ensures Valid(r.next)
    ensures !AcceptedName(item) ==> r == Step(st, InvalidName)
    ensures AcceptedName(item) && qty.Unparsable? ==> r == Step(st, InvalidQuantity)
    ensures AcceptedName(item) && qty.Int? ==>
      && r.status == Done
      && InStock(r.next, item)
      && GetQty(r.next, item) == GetQty(st, item) + qty.n
      && ToMap(r.next.stock) == ToMap(st.stock)[item.s := GetQty(st, item) + qty.n]
      && r.next.logs == st.logs + [Added(qty.n, item.s)]
    ensures AcceptedName(item) && qty.Int? && InStock(st, item) ==>
      Names(r.next.stock) == Names(st.stock)
    ensures AcceptedName(item) && qty.Int? && !InStock(st, item) ==>
      Names(r.next.stock) == Names(st.stock) + [item.s]
  {
    if !AcceptedName(item) then Step(st, InvalidName)
    else
      match qty
      case Unparsable => Step(st, InvalidQuantity)
      case Int(q) =>
        ToMapKeys(st.stock);
        var stock := Put(st.stock, item.s, Get(st.stock, item.s) + q);
        Step(State(stock, st.logs + [Added(q, item.s)]), Done)
  }

  /** `removeItem(item, qty)`. */
  function RemoveItem(st: State, item: Item, qty: Quantity): (r: Step)
    requires Valid(st)
    ensures Valid(r.next)
    ensures qty.Unparsable? ==> r == Step(st, InvalidQuantity)
    ensures qty.Int? && !InStock(st, item) ==> r == Step(st, MissingItem)
    ensures qty.Int? && InStock(st, item) ==>
      && r.status == Done
      && r.next.logs == st.logs + [Removed(qty.n, item.s)]
      && IsSubseq(Names(r.next.stock), Names(st.stock))
    ensures qty.Int? && InStock(st, item) && GetQty(st, item) - qty.n <= 0 ==>
      && ToMap(r.next.stock) == ToMap(st.stock) - {item.s}
      && !InStock(r.next, item)
      && GetQty(r.next, item) == 0
    ensures qty.Int? && InStock(st, item) && GetQty(st, item) - qty.n > 0 ==>
      && ToMap(r.next.stock) == ToMap(st.stock)[item.s := GetQty(st, item) - qty.n]
      && Names(r.next.stock) == Names(st.stock)
  {
    match qty
    case Unparsable => Step(st, InvalidQuantity)
    case Int(q) =>
      if !InStock(st, item) then Step(st, MissingItem)
      else
        ToMapKeys(st.stock);
        var left := Get(st.stock, item.s) - q;
        var logs := st.logs + [Removed(q, item.s)];
        if left <= 0 then
          var stock := Delete(st.stock, item.s);
          DeleteKeepsWf(st.stock, item.s);
          SubseqNames(stock, st.stock);
          Step(State(stock, logs), Done)
        else
          var stock := Put(st.stock, item.s, left);
          assert Names(stock) == Names(st.stock);
          SubseqRefl(Names(stock));
          Step(State(stock, logs), Done)
  }

  /** `checkLowItems(threshold)`: the names whose quantity is strictly below
      `threshold`, each once, in stock order. */
  function CheckLowItems(st: State, threshold: int): (r: seq<string>)
    requires Valid(st)
    ensures IsSubseq(r, Names(st.stock))
    ensures Distinct(r)
    ensures forall n :: n in r <==> n in ToMap(st.stock) && ToMap(st.stock)[n] < threshold
  {
    Below(st.stock, threshold)
  }

  /** A name passes `addItem`'s check exactly when it is a `str` whose
      `strip()` is not empty, which is when it holds a non-whitespace
      character. */
  lemma AcceptedNameIffStripped(item: Item)
    ensures AcceptedName(item) <==> item.Text? && Strings.Strip(item.s) != []
    ensures AcceptedName(item) <==>
      item.Text? && exists k :: 0 <= k < |item.s| && !Strings.IsSpace(item.s[k])
  {
    if item.Text? {
      Strings.StripEmptyIffBlank(item.s);
      Strings.IsBlankAllSpace(item.s);
    }
  }

  /** Every successful `addItem` or `removeItem` appends exactly one activity
      entry; every other call appends none and leaves the state alone. */
  lemma OneActivityPerSuccess(st: State, item: Item, qty: Quantity)
    requires Valid(st)
    ensures var r := AddItem(st, item, qty);
      && (r.status == Done ==> |r.next.logs| == |st.logs| + 1 && r.next.logs[..|st.logs|] == st.logs)
      && (r.status != Done ==> r.next == st)
    ensures var r := RemoveItem(st, item, qty);
      && (r.status == Done ==> |r.next.logs| == |st.logs| + 1 && r.next.logs[..|st.logs|] == st.logs)
      && (r.status != Done ==> r.next == st)
  {
  }

  /** Removing what was just added restores the stock exactly, order
      included, unless the name was already held at a quantity of 0 or
      below: then the removal deletes it. */
  lemma AddThenRemoveRestores(st: State, s: string, q: int)
    requires Valid(st)
    requires AcceptedName(Text(s))
    requires !InStock(st, Text(s)) || GetQty(st, Text(s)) > 0
    ensures var mid := AddItem(st, Text(s), Int(q)).next;
      var fin := RemoveItem(mid, Text(s), Int(q));
      && fin.status == Done
      && fin.next.stock == st.stock
      && fin.next.logs == st.logs + [Added(q, s), Removed(q, s)]
  {
    if InStock(st, Text(s)) {
      RestoredWhenHeld(st, s, q);
    } else {
      RestoredWhenNew(st, s, q);
    }
  }

  /** The round trip on a name held at a positive quantity: the removal
      writes the old quantity back in place. */
  lemma RestoredWhenHeld(st: State, s: string, q: int)
    requires Valid(st)
    requires AcceptedName(Text(s))
    requires InStock(st, Text(s)) && GetQty(st, Text(s)) > 0
    ensures var mid := AddItem(st, Text(s), Int(q)).next;
      var fin := RemoveItem(mid, Text(s), Int(q));
      && fin.status == Done
      && fin.next.stock == st.stock
      && fin.next.logs == st.logs + [Added(q, s), Removed(q, s)]
  {
  }

  /** The round trip on a new name: the removal deletes the entry the
      addition appended. */
  lemma RestoredWhenNew(st: State, s: string, q: int)
    requires Valid(st)
    requires AcceptedName(Text(s))
    requires !InStock(st, Text(s))
    ensures var mid := AddItem(st, Text(s), Int(q)).next;
      var fin := RemoveItem(mid, Text(s), Int(q));
      && fin.status == Done
      && fin.next.stock == st.stock
      && fin.next.logs == st.logs + [Added(q, s), Removed(q, s)]
  {
    var mid := AddItem(st, Text(s), Int(q)).next;
    var fin := RemoveItem(mid, Text(s), Int(q)).next;
    assert GetQty(mid, Text(s)) - q == 0;
    ToMapKeys(st.stock);
    ToMapKeys(fin.stock);
    assert ToMap(fin.stock) == ToMap(st.stock)[s := q] - {s};
    assert ToMap(fin.stock) == ToMap(st.stock);
    SubseqDropLast(Names(fin.stock), Names(st.stock), s);
    SubseqCovering(Names(fin.stock), Names(st.stock));
    SameViewSameItems(fin.stock, st.stock);
  }

  /** A name already held at 0 is deleted by adding and then removing the
      same amount, so the round trip above needs its precondition. */
  lemma AddThenRemoveDeletesNonPositive()
    ensures var st := AddItem(Initial, Text("pear"), Int(0)).next;
      && InStock(st, Text("pear"))
      && !InStock(RemoveItem(AddItem(st, Text("pear"), Int(4)).next, Text("pear"), Int(4)).next, Text("pear"))
  {
  }

  /** `addItem` stores the name as given, surrounding whitespace included,
      and stores quantities of 0 and below. */
  lemma AddKeepsRawNameAndSign()
    ensures var st := AddItem(Initial, Text(" kiwi "), Int(-3)).next;
      && st.stock == [Entry(" kiwi ", -3)]
      && GetQty(st, Text("kiwi")) == 0
      && CheckLowItems(st, DefaultThreshold) == [" kiwi "]
  {
  }
}
