# Turing machine engine, modelled in Dafny

This project models the `TuringMachine` class of a small browser page that
simulates a deterministic single-tape Turing machine. It also models the
transition table, start state and accepting-state set that the page ships.

- `tape.dfy` (module `Tape`): the tape, which is a JavaScript array. It is
  modelled as `cells: map<int, char>` plus `len`, the array's `length`.
  - `cells` holds every integer key ever assigned.
  - A read at an unassigned key gives the blank `' '` (`tape[i] || ' '`).
  - A write at a negative key is an ordinary property. It reads back later
    but never appears in `join('')`.
  - A write at an index at or past `length` sets `length` to `i + 1`.
  - `Visible` is `getTape()`. Holes would join as nothing, as in JavaScript.
- `machine.dfy` (module `Machine`):
  - A configuration is `Config(tape, head, state)`. The state is
    `Active(name)` or `Halted`, which stands for the source's `null`.
  - The fields `head` and `state` are what `getHeadPosition()` and
    `getCurrentState()` return.
  - `Init` is the constructor and `Step` is `step()`.
  - `Steps` iterates `step()`. `Run` is `run()` bounded by fuel, and
    `RunLoop` is the same loop written as a method.
  - `Accepted` is the verdict the page computes after the run.
- `shipped.dfy` (module `Shipped`): the shipped table, `q0`, and `{q0, q1, q2}`.
  It also holds what the engine does with them.

The transition table and accepting states never change during a run, so
they are parameters of `Step` and `Run` rather than fields of the
configuration. All operations are pure functions. Determinism of a run and
idempotence of the accessors therefore hold by construction.

The model follows the code wherever the code and a reading of it could differ:

- A direction other than `"L"` or `"R"` leaves the head where it is.
- `run()` stops as soon as the state is accepting, even if that state has
  transitions. The shipped start state `q0` is accepting, so `run()` on the
  shipped machine never takes a step, and every input is reported accepted
  with the tape unchanged.
- Stepping `"01"` by hand ends halted after four steps, not in `q0`. The
  table has no entry for `q0` reading `Y`.
- The loop condition `this.state && ...` also stops on the empty state
  label, because the empty string is falsy. `Running` models this.
  `StepsKeepLabels` shows it cannot arise when every label is non-empty.

## Model

| member | source | states |
|---|---|---|
| Tape.Read | script.js:13 | An assigned key reads back its symbol. Any unassigned key reads as the blank, whether it lies left of the tape or at or past its length, and a read never fails. |
| Tape.Write | script.js:20 | After the write, the written key reads the new symbol and every other key reads as before. A negative key or an index inside the array leaves the length unchanged. An index at or past the length sets it to that index plus one. |
| Tape.FromString | script.js:4 | The split input is a hole-free array whose joined string is the input. Position i reads the i-th character inside the input and the blank everywhere else. |
| Tape.JoinDense | script.js:46 | Joining a hole-free prefix of n indices gives a string of length n that lists the cells in index order. |
| Tape.VisibleDense | script.js:45-47 | `getTape()` of a hole-free array has exactly `length` characters, and character k is the symbol read at k. |
| Tape.WriteVisible | script.js:20 | On a hole-free tape, a write at a negative key leaves `getTape()` unchanged. A write inside the tape replaces exactly that character. A write at index `length` appends exactly that symbol. The tape stays hole-free. |
| Machine.Init | script.js:3-9 | The constructed machine's visible tape equals the input, position by position. The head is 0, the state is the start state, and the tape has no holes. |
| Machine.Step | script.js:12-35 | If the current state and symbol have an entry, the step writes its symbol under the head, leaves every other position's read unchanged, enters its state, and moves the head -1 for `L`, +1 for `R`, and 0 otherwise. If there is no entry, or the machine is halted, the state becomes halted and the tape and head are untouched. The head moves by at most one. |
| Machine.StepInv | script.js:19-27 | A step from a hole-free tape with the head at most one cell past the end keeps both properties. The write lands at most at index `length`, and the head then moves by at most one. |
| Machine.StepVisible | script.js:19-27 | One step never shrinks `getTape()`. It grows it by one exactly when a transition fires with the head at index `length`, and the new last character is the written symbol. A write at a negative head never shows. A write inside the tape replaces that one character. |
| Machine.StepsInv | script.js:12-35 | Any number of steps from a constructed machine keep the tape hole-free and the head at most one cell past the end. |
| Machine.StepsGrowth | script.js:12-35 | Between step m and step n, `getTape()` never shrinks and gains at most n - m characters. |
| Machine.Run | script.js:38-42 | When the bounded run returns a configuration, the state is halted, accepting or the empty label. A machine that is already stopped is returned unchanged. |
| Machine.FirstStopSteps | script.js:38-42 | The loop exits after exactly k steps if and only if the loop condition holds at each of the first k configurations and fails at configuration k. |
| Machine.RunSound | script.js:38-42 | A run that returns a configuration is the configuration after k steps, for some k within the fuel at which the loop first exits. |
| Machine.RunComplete | script.js:38-42 | If the loop first exits after k steps and the fuel covers k, the run returns exactly the configuration after k steps. |
| Machine.RunOutOfFuel | script.js:38-42 | The fuel runs out if and only if the loop condition holds at each of the first fuel + 1 configurations. |
| Machine.RunFuelMonotone | script.js:38-42 | Once a run returns, more fuel returns the same configuration. The fuel only stands in for the unbounded loop. |
| Machine.RunLoop | script.js:38-42 | The `while`/`step()` loop agrees with `Run`. If it exits by itself, its configuration is the one `Run` returns and the loop condition fails there. If it is cut off, `Run` runs out of fuel too. |
| Machine.StepsKeepLabels | script.js:39 | When the table and start state use only non-empty labels, no step produces the falsy empty label. |
| Machine.AcceptedIffNotHalted | script.js:113 | With non-empty labels, a run that returns ends halted or in an accepting state. It is accepted exactly when it did not halt. |
| Shipped.ShippedHaltsOnBlank | script.js:61-74 | The shipped table has no entry for the blank, so a step that reads a blank halts without touching the tape or the head. |
| Shipped.ShippedLabels | script.js:61-76 | Every label in the shipped table, and the start state, is non-empty. |
| Shipped.StepShown | script.js:13-30 | With the shipped table, a tape shown as a string and the head inside it, the entry for the state and the shown symbol changes exactly that character of `getTape()`, moves the head by the entry's direction and enters the entry's state. |
| Shipped.ShippedRunDoesNothing | script.js:76-77 | Since `q0` is accepting, `run()` on any input and with any fuel returns the constructed machine unchanged: tape equal to the input, head 0, state `q0`, accepted. |
| Shipped.TraceZero | script.js:61-73 | Stepping "0" gives `q1` after one step. After two steps the machine is halted with tape "X" and head 1. |
| Shipped.TraceZeroOne | script.js:61-73 | Stepping "01" gives `q0` with head 1 after three steps. After four steps the machine is halted with tape "XY" and head 1, because `q0` has no entry for `Y`. |

## Left out

- The page code in `runTuringMachine` is not modelled: element lookups, `innerHTML`/`textContent` rendering and the debug text. Only its verdict `finalStates.has(...)` is modelled, as `Accepted`.
- The `/^[01]+$/` input check is not modelled. The engine does not depend on it, and `Init` accepts any string.
- The `"state,symbol"` string keys are not modelled. The table is a map keyed by (label, symbol) pairs, so collisions between labels or symbols that contain commas are not represented.
- A halted machine's lookup of the key `"null,<symbol>"` is modelled as "no entry". It would only find an entry if a state were literally named `null`.
- Symbols are single characters. The source lets a table write an arbitrary string, including the empty string that would later read as blank. Input is split into `char`s with no UTF-16 detail.
- JavaScript's largest array index (2^32 - 2) is not modelled. Lengths and head positions are unbounded integers.
- Run: the unbounded `while` loop is modelled with a fuel argument, and `None` means the fuel ran out. `RunFuelMonotone` shows more fuel never changes a result, but termination of `run()` in general is not claimed, since it can loop forever.
