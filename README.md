# PedidosListos: the pickup-counter board

A Dafny model of the `PedidosListos` React component (`page.tsx`), a board at
a food pickup counter. Staff type a customer name and submit it. The name
appears as a tile, trimmed and upper-cased. Each tile shows a countdown and
leaves the board two minutes after it was created, or earlier when someone
presses its delete button. A switch turns the notification sound on and off.

The model has three modules:

- `Text` (`text.dfy`): JavaScript's `String.prototype.trim`, over ECMAScript's
  whitespace and line-terminator code points, and `toUpperCase` on ASCII
  letters.
- `Pedidos` (`pedidos.dfy`): the `Pedido` record and the pure computations
  behind the handlers. These are the list filter used both by the periodic
  sweep and by deletion (`Filter`, `Sweep`, `Remove`), the order a submitted
  name becomes (`NewPedido`), and the countdown (`GetTimeRemaining`).
  Clock readings are integer milliseconds passed as parameters.
- `Board` (`board.dfy`): the class `PedidosListos`, with one field per state
  cell of the component (`pedidos`, `nombre`, `soundEnabled`). Its methods
  are the handlers. Each one overwrites the fields with the value from the
  pure function. Its invariant `Valid()` says that every name on the board is
  non-empty, trimmed and upper-case.

Modelling choices:

- An order's `id` is the decimal string of a clock reading. It is modelled as
  that integer. Decimal `toString` is injective on integers, so comparing ids
  with `!==` is the same as comparing the integers.
- `agregarPedido` reads the clock twice: once for the id (line 48) and once
  for the timestamp (line 50). `AgregarPedido` therefore takes two readings,
  `idNow` and `now`. Two orders created in the same millisecond share an id,
  and deleting one then deletes both (`RemoveDistinct` covers the case of
  distinct ids).
- The notification sound is the boolean result `cue` of `AgregarPedido`.
- The sweep also removes an order exactly two minutes old, because line 26
  keeps only `now - timestamp < 120000`. The countdown is rounded up
  (`Math.ceil`, line 65).
- `SweepDropsOldest`, `RemoveDistinct` and `AppendKeepsDistinctIds` are
  conditional facts. They hold on boards whose timestamps do not decrease, or
  whose ids are distinct. The component itself guarantees neither, because
  `Date.now()` may go back or repeat a value. `AppendKeepsChronological` and
  `FilterKeepsChronological` show that with a clock that does not go back
  every board the handlers build is chronological.

## Model

| member | source | states |
|---|---|---|
| Text.TrimStart | page.tsx:45 | the leading-whitespace strip leaves a suffix that does not start with whitespace; everything dropped was whitespace |
| Text.TrimEnd | page.tsx:45 | the trailing-whitespace strip leaves a prefix that does not end with whitespace; everything dropped was whitespace |
| Text.Trim | page.tsx:45 | `trim` never lengthens a string, and neither end of its result is whitespace |
| Text.TrimIsInfix | page.tsx:49 | the trimmed name is a contiguous piece of the typed name, with only whitespace before and after it |
| Text.TrimEmptyIffBlank | page.tsx:45 | `nombre.trim()` is the empty string exactly when the typed name is all whitespace, the case the submit handler rejects |
| Text.TrimOfTrimmed | page.tsx:49 | `trim` changes nothing on a string with no whitespace at either end |
| Text.TrimIdempotent | page.tsx:49 | trimming twice gives the same as trimming once |
| Text.UpperChar | page.tsx:49 | one character upper-cased: a lower-case ASCII letter becomes its capital, any other character is unchanged, and no lower-case letter results |
| Text.ToUpper | page.tsx:49 | `toUpperCase` keeps the length, leaves no lower-case ASCII letter, and moves no other character |
| Text.ToUpperIdempotent | page.tsx:49 | upper-casing an upper-cased name changes nothing |
| Text.ToUpperKeepsTrimmed | page.tsx:49 | upper-casing a trimmed name leaves it trimmed |
| Pedidos.Filter | page.tsx:26 | `Array.prototype.filter`, as used by the sweep (line 26) and by deletion (line 59): an element is in the result exactly when it is in the input and passes the test, and the result is no longer than the input |
| Pedidos.FilterIsSubsequence | page.tsx:26 | the filter result is a subsequence of the input: the kept elements keep their relative order |
| Pedidos.FilterCount | page.tsx:26 | the filter keeps every copy of a passing element and no copy of a failing one |
| Pedidos.FilterAppend | page.tsx:26 | filtering a concatenation is the concatenation of the filtered parts |
| Pedidos.FilterAllKept | page.tsx:26 | a filter that every element passes returns its input |
| Pedidos.FilterWeakerThenStronger | page.tsx:26 | filtering by a weaker test and then a stronger one equals filtering by the stronger one |
| Pedidos.FilterCommute | page.tsx:26 | two filters give the same result in either order |
| Pedidos.Sweep | page.tsx:24-27 | the sweep at time `now` keeps exactly the orders with `now - timestamp < 120000` |
| Pedidos.SweepKeepsOrder | page.tsx:26 | the surviving orders keep their order and multiplicity; an expired order keeps no copy, and the sweep adds no order |
| Pedidos.SweepIdempotent | page.tsx:26 | a second sweep at the same instant changes nothing |
| Pedidos.SweepLater | page.tsx:24-26 | a sweep at an earlier time followed by one at a later time equals the later one alone |
| Pedidos.SweepAllLive | page.tsx:26 | when every order is younger than two minutes, the sweep returns the board unchanged |
| Pedidos.SweepAppend | page.tsx:26 | sweeping the board with one more order at the end sweeps the old board and keeps the new order exactly when it is young |
| Pedidos.SweepDropsOldest | page.tsx:26 | on a board whose timestamps do not decrease, the sweep removes a prefix: the oldest orders only |
| Pedidos.FilterKeepsChronological | page.tsx:26 | the sweep and deletion keep a board with non-decreasing timestamps so |
| Pedidos.AppendKeepsChronological | page.tsx:50-53 | appending the new order stamped no earlier than every order on the board keeps the timestamps non-decreasing |
| Pedidos.Remove | page.tsx:58-60 | deleting `id` keeps exactly the orders whose id differs from `id` |
| Pedidos.RemoveKeepsOrder | page.tsx:59 | the other orders keep their order and multiplicity; no order with that id remains |
| Pedidos.RemoveAbsent | page.tsx:59 | deleting an id no order has leaves the board unchanged |
| Pedidos.RemoveAppend | page.tsx:59 | deleting from a concatenation deletes from each part |
| Pedidos.RemoveIdempotent | page.tsx:59 | deleting the same id twice equals deleting it once |
| Pedidos.RemoveSweepCommute | page.tsx:59 | a deletion and a sweep give the same board in either order |
| Pedidos.RemoveDistinct | page.tsx:59 | when ids are distinct, deleting the id of the order at position `k` removes exactly that order |
| Pedidos.FilterKeepsDistinctIds | page.tsx:59 | the sweep and deletion keep distinct ids distinct |
| Pedidos.AppendKeepsDistinctIds | page.tsx:48-53 | appending an order whose id is newer than all ids on the board keeps the ids distinct |
| Pedidos.NewPedido | page.tsx:47-51 | the new order has the first clock reading as id and the second as timestamp; its name is empty exactly when the typed name is blank, is always trimmed and no longer than the typed name, and is non-empty, trimmed and free of lower-case ASCII letters exactly when the typed name is not blank |
| Pedidos.AppendKeepsWellFormed | page.tsx:53 | appending an order whose name is non-empty, trimmed and upper-case keeps every name on the board so |
| Pedidos.WellFormedPreserved | page.tsx:45-59 | appending the order made from a non-blank name, sweeping and deleting all keep every name on the board non-empty, trimmed and upper-case |
| Pedidos.NewPedidoSurvivesSweep | page.tsx:50-53 | an order just added is still on the board, at the end, after a sweep at its creation time |
| Pedidos.CeilSeconds | page.tsx:65 | `Math.ceil(m / 1000)`: the least whole number of seconds covering `m` milliseconds |
| Pedidos.GetTimeRemaining | page.tsx:62-67 | the countdown is the number of seconds, rounded up, left before two minutes of age |
| Pedidos.TimeRemainingBounds | page.tsx:62-66 | from creation on, the countdown is between 0 and 120, and it is 120 at creation |
| Pedidos.TimeRemainingZeroIff | page.tsx:64-65 | the countdown is 0 exactly when the order is two minutes old or older |
| Pedidos.TimeRemainingMonotone | page.tsx:62-66 | the countdown never increases as the clock advances |
| Pedidos.SweepSurvivorsHaveTimeLeft | page.tsx:62-66 | every order left after the sweep at line 26 shows a countdown of at least 1 second |
| Board.PedidosListos.constructor | page.tsx:18-20 | the component starts with no orders, an empty name field and sound on |
| Board.PedidosListos.SetNombre | page.tsx:134 | typing sets the name field and changes nothing else |
| Board.PedidosListos.Tick | page.tsx:23-27 | one interval tick replaces the orders by their sweep at `now`, and every order left shows at least one second; field and switch unchanged |
| Board.PedidosListos.AgregarPedido | page.tsx:43-56 | with a blank field nothing changes and no sound is requested. Otherwise exactly one order, `toUpperCase(trim(name))` stamped `now`, is appended after the unchanged earlier orders; the field is cleared; the sound is requested exactly when sound is on |
| Board.PedidosListos.EliminarPedido | page.tsx:58-60 | deletion removes every order with the id and keeps the rest in order; an absent id changes nothing |
| Board.PedidosListos.ToggleSound | page.tsx:91 | the sound switch flips; orders and field unchanged |
| Board.ToggleSoundTwice | page.tsx:91 | pressing the sound button twice restores the switch and changes nothing else |

## Left out

- Rendering: the JSX, CSS classes, background image and empty-board message (page.tsx:69-146) are presentation only.
- Audio playback and its `console.log` fallback (page.tsx:35-39): browser I/O. The model returns only the boolean `cue`, the request to play.
- The `typeof window !== "undefined"` test (page.tsx:34): it always holds in the browser, where the handler runs, so the cue depends only on the sound switch.
- `setInterval`/`clearInterval` and React's hook and render mechanics (page.tsx:23-30): the model exposes one sweep as `Tick(now)`. React's queued state updates are modelled as applied at once, in the order the handlers run.
- `Date.now()`: clock readings are explicit integer parameters. JavaScript numbers represent these millisecond counts exactly, and `Math.ceil(remaining / 1000)` on them equals the integer ceiling used here.
- Text.ToUpper: upper-cases ASCII letters only. JavaScript's full Unicode case mapping, which may change the length of a string, is library behaviour outside the model.
- The component library (`Button`, `Input`, `Card`) and the icons: foreign UI wrappers.
