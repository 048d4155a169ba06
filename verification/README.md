# Inventory ledger model

A Dafny model of the in-memory inventory of `inventory_system.py`. The
program keeps two module-level globals: `stock_data`, a dict from item name
to integer quantity, and `logs`, a buffer of activity lines. Four functions
act on them. `addItem` adds a quantity to a name. `removeItem` subtracts
one and deletes the entry once it reaches 0 or below. `getQty` reads a
quantity, with 0 for an absent name. `checkLowItems` lists the names below
a threshold.

The model makes the two globals one immutable value, `Inventory.State`.
Each mutating function becomes a pure transition that returns the next
state together with the branch it took (`Inventory.Status`). That branch
is what decides the program's diagnostic log level: info on success, error
for invalid input, warning for a missing item.

- `strings.dfy` (`Strings`) models Python's `str.isspace` and `str.strip()`.
  The name check of `addItem` relies on them.
- `ledger.dfy` (`Ledger`) models the dict as its entries in insertion order
  (`Items`). `ToMap` gives the plain mapping the entries stand for. The
  module defines `d.get(k, 0)`, `d[k] = v` and `del d[k]`, plus the
  `items()` filter that `checkLowItems` performs. Their contracts are stated
  against the mapping and the key order.
- `inventory.dfy` (`Inventory`) holds the state, the four operations, and
  lemmas that relate several calls.
- `scenario.dfy` (`Scenario`) replays the fixed call sequence of `main`.

Arguments are abstracted as follows:
- `item` is `Text(s)` for a Python `str`, or `NotText` for any other value.
- `qty` is `Int(n)` when `int(qty)` succeeds, or `Unparsable` when it
  raises `ValueError`.
- An activity entry is `Added(qty, item)` or `Removed(qty, item)`. The
  timestamp is dropped.

Three facts about the code shape the model:
- `addItem` checks `item.strip()` but stores the untrimmed `item`
  (inventory_system.py:14, 17; `Inventory.AddKeepsRawNameAndSign`).
- `addItem` can store 0 or a negative quantity. Only `removeItem` deletes
  entries that are not positive (inventory_system.py:16-17, 32-33). So
  `Inventory.Valid` asks only that names are distinct.
- `checkLowItems` returns a list in dict order (inventory_system.py:77),
  and the model proves that order.

## Model

| member | source | states |
|---|---|---|
| Strings.Strip | inventory_system.py:14 | `strip()` gives the part of the name between its leading and trailing whitespace; that part starts and ends with non-whitespace and is empty exactly when every character is whitespace |
| Strings.StripEmptyIffBlank | inventory_system.py:14 | `item.strip()` is empty exactly when the name is blank, the form of the check the model uses |
| Inventory.AcceptedNameIffStripped | inventory_system.py:14-15 | a name passes `addItem`'s check iff it is a `str` whose `strip()` is non-empty, iff it has a non-whitespace character |
| Ledger.Get | inventory_system.py:44 | `d.get(k, 0)` is the quantity the mapping holds for `k`, and 0 when `k` is absent |
| Ledger.Put | inventory_system.py:17 | `d[k] = v` sets `k` to `v` and leaves every other key alone; an existing key keeps its place, a new key goes last; names stay distinct |
| Ledger.Delete | inventory_system.py:33 | `del d[k]` removes exactly `k` from the mapping and keeps the other entries in their relative order |
| Ledger.Below | inventory_system.py:77 | the comprehension over `items()` yields each name whose quantity is below `t`, and only those, once each, in dict order |
| Inventory.GetQty | inventory_system.py:42-44 | `getQty` returns the stored quantity of a held name and 0 for an absent name or a non-`str` value |
| Inventory.AddItem | inventory_system.py:11-21 | a non-`str` or blank name, or an unparsable quantity, changes neither stock nor log, and the name check comes first; otherwise the untrimmed name ends at old quantity + `q`, other names keep their quantities, an existing name keeps its place and a new one goes last, and one `Added` entry is logged |
| Inventory.RemoveItem | inventory_system.py:24-39 | an unparsable quantity changes nothing, even for a held name, and the parse comes first; an absent name changes nothing; otherwise one `Removed` entry is logged and the remaining names keep their order; old − `q` ≤ 0 deletes the name and `getQty` then returns 0; otherwise the name holds old − `q` in place, and no other entry changes |
| Inventory.CheckLowItems | inventory_system.py:75-77 | the result holds exactly the names whose quantity is strictly below the threshold, without duplicates, in stock order |
| Inventory.OneActivityPerSuccess | inventory_system.py:11-39 | a successful `addItem` or `removeItem` appends exactly one activity entry after the old ones; any other outcome leaves stock and log as they were |
| Inventory.AddThenRemoveRestores | inventory_system.py:17-33 | adding `q` to a name and then removing `q` gives back the original stock, entry order included, when the name was absent or held a positive quantity, and logs two entries |
| Inventory.RestoredWhenHeld | inventory_system.py:31-33 | the held-name case of that round trip: the removal writes the old positive quantity back in place |
| Inventory.RestoredWhenNew | inventory_system.py:31-33 | the new-name case: the removal reaches 0 and deletes the entry the addition appended |
| Inventory.AddThenRemoveDeletesNonPositive | inventory_system.py:16-33 | a name stored at 0 by `addItem` is deleted by adding and then removing the same amount, so the round trip needs its precondition |
| Inventory.AddKeepsRawNameAndSign | inventory_system.py:14-17 | `addItem(" kiwi ", -3)` stores the key `" kiwi "` untrimmed with a negative quantity; `getQty("kiwi")` is 0 and the entry counts as low |
| Scenario.AppleAdded | inventory_system.py:97 | `addItem("apple", 10)` on an empty inventory creates apple = 10 and logs it |
| Scenario.BananaAdded | inventory_system.py:98 | `addItem("banana", 2)` appends banana = 2 after apple |
| Scenario.OrangeRejected | inventory_system.py:99 | `addItem("orange", "ten")` is rejected for its quantity and changes nothing |
| Scenario.AppleRemoved | inventory_system.py:100 | `removeItem("apple", 3)` leaves apple = 7 in first place and logs the removal |
| Scenario.OrangeMissing | inventory_system.py:101 | `removeItem("orange", 1)` reports a missing item and changes nothing |
| Scenario.OnlyBananaLow | inventory_system.py:103 | `checkLowItems()` with the default threshold 5 returns `["banana"]` |
| Scenario.MainScenario | inventory_system.py:96-103 | the scripted run ends with apple = 7, banana = 2, in that order, and no orange; the log holds three entries; `checkLowItems()` is `["banana"]` |

## Left out

- `loadData` and `saveData` (inventory_system.py:47-62) read and write the JSON snapshot, which is file I/O. The scenario starts from the empty state that `loadData` produces when no snapshot file exists. The decode-error branch keeps the previous `stock_data` rather than clearing it; the model does not cover that branch.
- `saveLogs` (inventory_system.py:80-85) appends the buffer to a file and then clears it. This is file I/O.
- `printData` and the `print` calls of `main` (inventory_system.py:65-72, 102-103) only write to the console.
- `logging.basicConfig` and the `logging` calls are diagnostic side effects. The model records only which branch ran, as `Inventory.Status`.
- `datetime.now()` in activity lines is a clock read, so entries carry no timestamp. The text format of a line is not modelled either.
- The exact conversion rules of Python `int()` are not modelled: truncating floats, accepting bools, parsing numeric strings. A quantity is either already an integer or unparsable.
- The `TypeError` and `OverflowError` that escape both functions are not modelled. A `TypeError` arises, for example, from `int(None)` or from an unhashable `item` in `removeItem` or `getQty`; an `OverflowError` arises from `int(float('inf'))`. Neither is caught by the `except ValueError` clauses (inventory_system.py:20, 36). Only the caught `ValueError` is modelled.
- The `KeyError` handler of `removeItem` (inventory_system.py:38-39) is unreachable once membership has been checked, so it has no model.
