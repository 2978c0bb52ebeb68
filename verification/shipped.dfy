/** The machine the page ships: its transition table, start state and
    accepting states, and what the engine does with them. */
module Shipped {
  import opened Tape
  import opened Machine

  /** The shipped transition function, (state, symbol) to
      [new state, new symbol, direction]. */
  const ShippedTable: Table := map[
    ("q0", '0') := Transition("q1", 'X', "R"),
    ("q0", '1') := Transition("q2", 'Y', "R"),
    ("q1", '0') := Transition("q1", '0', "R"),
    ("q1", '1') := Transition("q3", 'Y', "L"),
    ("q1", 'Y') := Transition("q1", 'Y', "R"),
    ("q2", '1') := Transition("q2", '1', "R"),
    ("q2", '0') := Transition("q3", 'X', "L"),
    ("q2", 'Y') := Transition("q2", 'Y', "R"),
    ("q3", '0') := Transition("q3", '0', "L"),
    ("q3", '1') := Transition("q3", '1', "L"),
    ("q3", 'X') := Transition("q0", 'X', "R"),
    ("q3", 'Y') := Transition("q0", 'Y', "R")
  ]

  const StartState: string := "q0"

  const FinalStates: set<string> := {"q0", "q1", "q2"}

  /** No entry reads the blank, so a shipped machine halts whenever its head
      stands on a blank: off either end of the tape, in particular. */
  lemma ShippedHaltsOnBlank(c: Config)
    requires Read(c.tape, c.head) == Blank
    ensures Step(ShippedTable, c) == c.(state := Halted)
  {
    assert forall key :: key in ShippedTable ==> key.1 != Blank;
  }

  /** Every state the shipped table names is a non-empty label. The case
      split on the key's state keeps the proof well inside the verifier's
      resource budget; without it the proof is close to the limit. */
  lemma ShippedLabels()
    ensures LabelsNonEmpty(ShippedTable) && StartState != ""
  {
    forall key | key in ShippedTable
      ensures key.0 != "" && ShippedTable[key].next != ""
    {
      if key.0 == "q0" {
        assert key == ("q0", '0') || key == ("q0", '1');
      } else if key.0 == "q1" {
        assert key == ("q1", '0') || key == ("q1", '1') || key == ("q1", 'Y');
      } else if key.0 == "q2" {
        assert key == ("q2", '0') || key == ("q2", '1') || key == ("q2", 'Y');
      } else {
        assert key.0 == "q3";
      }
    }
  }

  /** The start state is itself accepting, so `run()` on the shipped machine
      never steps: for every input the tape stays the input, the head stays
      at 0, the state stays `q0`, and the input is accepted. */
  lemma ShippedRunDoesNothing(input: string, fuel: nat)
    ensures Run(ShippedTable, FinalStates, Init(input, StartState), fuel) == Some(Init(input, StartState))
    ensures var d := Run(ShippedTable, FinalStates, Init(input, StartState), fuel).value;
            && Visible(d.tape) == input && d.head == 0 && d.state == Active("q0")
            && Accepted(FinalStates, d)
  {
  }

  /** The machine shows `tape`, keeps the invariant, has its head at `head`
      and is in state `q`. */
  predicate At(c: Config, tape: string, head: int, q: string) {
    Inv(c) && Visible(c.tape) == tape && c.head == head && c.state == Active(q)
  }

  /** On a hole-free tape the symbol under an index inside the tape is the
      shown character there. */
  lemma ReadShown(c: Config, tape: string, k: int)
    requires Inv(c) && Visible(c.tape) == tape && 0 <= k < |tape|
    ensures Read(c.tape, k) == tape[k]
  {
    VisibleDense(c.tape);
  }

  /** One shipped step from a shown tape whose head is inside it: the entry
      `t` for the state and the shown symbol rewrites that one character,
      moves the head and enters its state. */
  lemma StepShown(c: Config, tape: string, q: string, t: Transition)
    requires Inv(c) && Visible(c.tape) == tape && c.state == Active(q) && 0 <= c.head < |tape|
    requires (q, tape[c.head]) in ShippedTable && ShippedTable[(q, tape[c.head])] == t
    ensures At(Step(ShippedTable, c), tape[c.head := t.write], c.head + Shift(t.move), t.next)
  {
    ReadShown(c, tape, c.head);
    StepVisible(ShippedTable, c);
  }

  /** The single steps of the two traces below, one lemma per step. Each is
      `StepShown` at fixed literals; they stay separate lemmas because
      proving two or more steps of a trace inside one lemma body exceeds
      the verifier's resource budget, while chaining these stays cheap. */
  lemma ZeroStep1(c: Config)
    requires At(c, "0", 0, "q0")
    ensures At(Step(ShippedTable, c), "X", 1, "q1")
  {
    StepShown(c, "0", "q0", Transition("q1", 'X', "R"));
    assert "0"[0 := 'X'] == "X";
  }

  lemma ZeroOneStep1(c: Config)
    requires At(c, "01", 0, "q0")
    ensures At(Step(ShippedTable, c), "X1", 1, "q1")
  {
    StepShown(c, "01", "q0", Transition("q1", 'X', "R"));
    assert "01"[0 := 'X'] == "X1";
  }

  lemma ZeroOneStep2(c: Config)
    requires At(c, "X1", 1, "q1")
    ensures At(Step(ShippedTable, c), "XY", 0, "q3")
  {
    StepShown(c, "X1", "q1", Transition("q3", 'Y', "L"));
    assert "X1"[1 := 'Y'] == "XY";
  }

  lemma ZeroOneStep3(c: Config)
    requires At(c, "XY", 0, "q3")
    ensures At(Step(ShippedTable, c), "XY", 1, "q0")
  {
    StepShown(c, "XY", "q3", Transition("q0", 'X', "R"));
    assert "XY"[0 := 'X'] == "XY";
  }

  lemma ZeroOneStep4(c: Config)
    requires At(c, "XY", 1, "q0")
    ensures Step(ShippedTable, c) == c.(state := Halted)
  {
    ReadShown(c, "XY", 1);
    assert ("q0", 'Y') !in ShippedTable;
  }

  /** Stepping (not running) the input "0": the first step marks the `0` as
      `X` and enters `q1`; the second reads the blank past the end and halts,
      leaving tape "X" and head 1. */
  lemma TraceZero()
    ensures Steps(ShippedTable, Init("0", StartState), 1).state == Active("q1")
    ensures var d := Steps(ShippedTable, Init("0", StartState), 2);
            && d.state == Halted && Visible(d.tape) == "X" && d.head == 1
  {
    var c0 := Init("0", StartState);
    ZeroStep1(c0);
    var c1 := Step(ShippedTable, c0);
    assert Read(c1.tape, 1) == Blank;
    ShippedHaltsOnBlank(c1);
    assert Steps(ShippedTable, c0, 1) == c1;
    assert Steps(ShippedTable, c0, 2) == Step(ShippedTable, c1);
  }

  /** Stepping the input "01": `0` becomes `X` (q1), `1` becomes `Y` moving
      left (q3), `X` is passed moving right (q0), and `q0` has no entry for
      `Y`, so the fourth step halts with tape "XY" and head 1 rather than
      stopping in `q0`. */
  lemma TraceZeroOne()
    ensures var d := Steps(ShippedTable, Init("01", StartState), 3);
            && d.state == Active("q0") && d.head == 1
    ensures var d := Steps(ShippedTable, Init("01", StartState), 4);
            && d.state == Halted && Visible(d.tape) == "XY" && d.head == 1
  {
    var c0 := Init("01", StartState);
    ZeroOneStep1(c0);
    var c1 := Step(ShippedTable, c0);
    ZeroOneStep2(c1);
    var c2 := Step(ShippedTable, c1);
    ZeroOneStep3(c2);
    var c3 := Step(ShippedTable, c2);
    ZeroOneStep4(c3);
    assert Steps(ShippedTable, c0, 1) == c1;
    assert Steps(ShippedTable, c0, 2) == c2;
    assert Steps(ShippedTable, c0, 3) == c3;
    assert Steps(ShippedTable, c0, 4) == Step(ShippedTable, c3);
  }
}
