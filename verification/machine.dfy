/** The `TuringMachine` engine: a configuration (tape, head, state), the
    single step, and the run loop that steps until the machine is halted or
    sits in an accepting state.

    The transition table and the accepting-state set never change during a
    run, so they are parameters of the operations rather than parts of the
    configuration.
 */
module Machine {
  import opened Tape

  datatype Option<T> = None | Some(value: T)

  /** `this.state`: a state label, or `null` once no transition applied. */
  datatype State = Halted | Active(name: string)

  /** One table entry's value `[newState, newSymbol, moveDirection]`. */
  datatype Transition = Transition(next: string, write: char, move: string)

  /** The transition function, keyed by (state label, symbol read). */
  type Table = map<(string, char), Transition>

  /** What `getTape()` (through `Visible`), `getHeadPosition()` and
      `getCurrentState()` report. */
  datatype Config = Config(tape: JsArray, head: int, state: State)

  /** The invariant every configuration reached from a constructed machine
      keeps: a JavaScript array without holes, and a head that never stands
      right of the first cell past the end. */
  predicate Inv(c: Config) {
    Wf(c.tape) && Dense(c.tape) && c.head <= c.tape.len
  }

  /** The constructor: the input's characters as the tape, the head on the
      first character, the machine in the start state. */
  function Init(input: string, start: string): (c: Config)
    ensures Visible(c.tape) == input
    ensures forall i :: Read(c.tape, i) == if 0 <= i < |input| then input[i] else Blank
    ensures c.head == 0 && c.state == Active(start)
    ensures Inv(c)
  {
    Config(FromString(input), 0, Active(start))
  }

  /** Head displacement for a direction string: only `'L'` and `'R'` move. */
  function Shift(move: string): int
  {
    if move == "L" then -1 else if move == "R" then 1 else 0
  }

  /** The entry for the current state and the symbol under the head, if the
      table has one. A halted machine has no entry. */
  function Lookup(tbl: Table, c: Config): Option<Transition>
  {
    var sym := Read(c.tape, c.head);
    if c.state.Active? && (c.state.name, sym) in tbl then Some(tbl[(c.state.name, sym)]) else None
  }

  /** `step()`: with an entry, write its symbol under the head, move the head
      and enter its state; without one, halt and touch nothing else. */
  function Step(tbl: Table, c: Config): (r: Config)
    ensures var sym := Read(c.tape, c.head);
            if c.state.Active? && (c.state.name, sym) in tbl then
              var t := tbl[(c.state.name, sym)];
              && r.state == Active(t.next)
              && Read(r.tape, c.head) == t.write
              && (forall i :: i != c.head ==> Read(r.tape, i) == Read(c.tape, i))
              && (t.move == "L" ==> r.head == c.head - 1)
              && (t.move == "R" ==> r.head == c.head + 1)
              && (t.move != "L" && t.move != "R" ==> r.head == c.head)
            else
              r == c.(state := Halted)
    ensures -1 <= r.head - c.head <= 1
  {
    match Lookup(tbl, c)
    case None => c.(state := Halted)
    case Some(t) => Config(Write(c.tape, c.head, t.write), c.head + Shift(t.move), Active(t.next))
  }

  /** A step keeps the tape hole-free and the head at most one cell past its
      end: a write lands at most at index `length` and the head then moves by
      at most one. */
  lemma StepInv(tbl: Table, c: Config)
    requires Inv(c)
    ensures Inv(Step(tbl, c))
  {
    if Lookup(tbl, c).Some? {
      WriteVisible(c.tape, c.head, Lookup(tbl, c).value.write);
    }
  }

  /** What one step does to the string `getTape()` returns: it never shrinks,
      it grows by exactly one symbol when and only when a transition writes
      at the index equal to the tape's length, a write left of the tape never
      shows, and a write inside the tape replaces that one symbol. */
  lemma StepVisible(tbl: Table, c: Config)
    requires Inv(c)
    ensures |Visible(c.tape)| == c.tape.len
    ensures |Visible(Step(tbl, c).tape)| == Step(tbl, c).tape.len
    ensures c.tape.len <= Step(tbl, c).tape.len <= c.tape.len + 1
    ensures Step(tbl, c).tape.len == c.tape.len + 1 <==> Lookup(tbl, c).Some? && c.head == c.tape.len
    ensures c.head < 0 ==> Visible(Step(tbl, c).tape) == Visible(c.tape)
    ensures Lookup(tbl, c).Some? && 0 <= c.head < c.tape.len ==>
              Visible(Step(tbl, c).tape) == Visible(c.tape)[c.head := Lookup(tbl, c).value.write]
    ensures Lookup(tbl, c).Some? && c.head == c.tape.len ==>
              Visible(Step(tbl, c).tape) == Visible(c.tape) + [Lookup(tbl, c).value.write]
  {
    StepInv(tbl, c);
    VisibleDense(c.tape);
    VisibleDense(Step(tbl, c).tape);
    if Lookup(tbl, c).Some? {
      WriteVisible(c.tape, c.head, Lookup(tbl, c).value.write);
    }
  }

  /** The configuration after `n` calls of `step()`. */
  function Steps(tbl: Table, c: Config, n: nat): Config
  {
    if n == 0 then c else Step(tbl, Steps(tbl, c, n - 1))
  }

  /** `n + 1` steps are one step followed by `n` more. */
  lemma {:induction false} StepsFront(tbl: Table, c: Config, n: nat)
    ensures Steps(tbl, c, n + 1) == Steps(tbl, Step(tbl, c), n)
  {
    if n > 0 {
      StepsFront(tbl, c, n - 1);
    }
  }

  /** Every configuration reached from one that keeps the invariant keeps it. */
  lemma {:induction false} StepsInv(tbl: Table, c: Config, n: nat)
    requires Inv(c)
    ensures Inv(Steps(tbl, c, n))
  {
    if n > 0 {
      StepsInv(tbl, c, n - 1);
      StepInv(tbl, Steps(tbl, c, n - 1));
    }
  }

  /** Over any stretch of steps the visible tape never shrinks and gains at
      most one symbol per step. */
  lemma {:induction false} StepsGrowth(tbl: Table, c: Config, m: nat, n: nat)
    requires Inv(c) && m <= n
    ensures |Visible(Steps(tbl, c, m).tape)| <= |Visible(Steps(tbl, c, n).tape)|
              <= |Visible(Steps(tbl, c, m).tape)| + (n - m)
  {
    if m < n {
      StepsGrowth(tbl, c, m, n - 1);
      StepsInv(tbl, c, n - 1);
      StepVisible(tbl, Steps(tbl, c, n - 1));
    }
  }

  /** The loop condition of `run()`, `this.state && !finalStates.has(this.state)`:
      the state is neither `null` nor the falsy empty label, and not accepting. */
  predicate Running(finals: set<string>, c: Config) {
    c.state.Active? && c.state.name != "" && c.state.name !in finals
  }

  /** `run()`, bounded by `fuel` steps: `Some` of the configuration at which the
      loop exits, or `None` when the fuel ran out while the loop would go on. */
  function Run(tbl: Table, finals: set<string>, c: Config, fuel: nat): (r: Option<Config>)
    decreases fuel
    ensures r.Some? ==> !Running(finals, r.value)
    ensures !Running(finals, c) ==> r == Some(c)
  {
    if !Running(finals, c) then Some(c)
    else if fuel == 0 then None
    else Run(tbl, finals, Step(tbl, c), fuel - 1)
  }

  /** The loop condition holds at each of the first `n` configurations. */
  predicate RunningBefore(tbl: Table, finals: set<string>, c: Config, n: nat) {
    forall j :: 0 <= j < n ==> Running(finals, Steps(tbl, c, j))
  }

  /** From a running configuration, running before step `n + 1` is running
      before step `n` counted after the first step. */
  lemma RunningBeforeFront(tbl: Table, finals: set<string>, c: Config, n: nat)
    requires Running(finals, c)
    ensures RunningBefore(tbl, finals, c, n + 1) <==> RunningBefore(tbl, finals, Step(tbl, c), n)
  {
    var c1 := Step(tbl, c);
    forall j | 0 <= j < n
      ensures Steps(tbl, c, j + 1) == Steps(tbl, c1, j)
    {
      StepsFront(tbl, c, j);
    }
    if RunningBefore(tbl, finals, c1, n) {
      forall j | 0 <= j < n + 1
        ensures Running(finals, Steps(tbl, c, j))
      {
        if j > 0 {
          assert Steps(tbl, c, j) == Steps(tbl, c1, j - 1);
        }
      }
    }
    if RunningBefore(tbl, finals, c, n + 1) {
      forall j | 0 <= j < n
        ensures Running(finals, Steps(tbl, c1, j))
      {
        assert Running(finals, Steps(tbl, c, j + 1));
      }
    }
  }

  /** The loop exits after exactly `k` steps: its condition holds at each of
      the first `k` configurations and fails at the next. */
  predicate FirstStop(tbl: Table, finals: set<string>, c: Config, k: nat)
    decreases k
  {
    if k == 0 then !Running(finals, c)
    else Running(finals, c) && FirstStop(tbl, finals, Step(tbl, c), k - 1)
  }

  /** `FirstStop` read directly over the sequence of configurations: step `k`
      is the first index at which the loop condition fails. */
  lemma {:induction false} FirstStopSteps(tbl: Table, finals: set<string>, c: Config, k: nat)
    decreases k
    ensures FirstStop(tbl, finals, c, k) <==>
              !Running(finals, Steps(tbl, c, k)) && RunningBefore(tbl, finals, c, k)
  {
    if k > 0 {
      StepsFront(tbl, c, k - 1);
      FirstStopSteps(tbl, finals, Step(tbl, c), k - 1);
      if Running(finals, c) {
        RunningBeforeFront(tbl, finals, c, k - 1);
      } else {
        assert !Running(finals, Steps(tbl, c, 0));
      }
    }
  }

  /** A run that exits ends at the step where the loop first exits. */
  lemma {:induction false} RunSound(tbl: Table, finals: set<string>, c: Config, fuel: nat)
    requires Run(tbl, finals, c, fuel).Some?
    decreases fuel
    ensures exists k: nat :: k <= fuel && FirstStop(tbl, finals, c, k)
                        && Steps(tbl, c, k) == Run(tbl, finals, c, fuel).value
  {
    if Running(finals, c) {
      var c1 := Step(tbl, c);
      RunSound(tbl, finals, c1, fuel - 1);
      var k1: nat :| k1 <= fuel - 1 && FirstStop(tbl, finals, c1, k1)
                && Steps(tbl, c1, k1) == Run(tbl, finals, c1, fuel - 1).value;
      StepsFront(tbl, c, k1);
      assert FirstStop(tbl, finals, c, k1 + 1);
    } else {
      assert FirstStop(tbl, finals, c, 0) && Steps(tbl, c, 0) == c;
    }
  }

  /** Conversely, when the loop first exits after `k` steps and the fuel
      covers them, the run returns exactly that configuration. */
  lemma {:induction false} RunComplete(tbl: Table, finals: set<string>, c: Config, k: nat, fuel: nat)
    requires FirstStop(tbl, finals, c, k) && k <= fuel
    decreases k
    ensures Run(tbl, finals, c, fuel) == Some(Steps(tbl, c, k))
  {
    if k == 0 {
      assert Steps(tbl, c, k) == c;
    } else {
      StepsFront(tbl, c, k - 1);
      RunComplete(tbl, finals, Step(tbl, c), k - 1, fuel - 1);
    }
  }

  /** The fuel runs out exactly when the loop condition holds at every one of
      the first `fuel + 1` configurations. */
  lemma {:induction false} RunOutOfFuel(tbl: Table, finals: set<string>, c: Config, fuel: nat)
    decreases fuel
    ensures Run(tbl, finals, c, fuel).None? <==> RunningBefore(tbl, finals, c, fuel + 1)
  {
    assert Steps(tbl, c, 0) == c;
    if Running(finals, c) && fuel > 0 {
      RunOutOfFuel(tbl, finals, Step(tbl, c), fuel - 1);
      RunningBeforeFront(tbl, finals, c, fuel);
    }
  }

  /** Giving a run that exits more fuel changes nothing: the fuel only stands
      in for the unbounded loop and never shapes the result. */
  lemma RunFuelMonotone(tbl: Table, finals: set<string>, c: Config, fuel: nat, more: nat)
    requires Run(tbl, finals, c, fuel).Some? && fuel <= more
    ensures Run(tbl, finals, c, more) == Run(tbl, finals, c, fuel)
  {
    RunSound(tbl, finals, c, fuel);
    var k: nat :| k <= fuel && FirstStop(tbl, finals, c, k)
             && Steps(tbl, c, k) == Run(tbl, finals, c, fuel).value;
    RunComplete(tbl, finals, c, k, more);
  }

  /** `run()` as the source writes it, a loop of `step()` calls, cut off after
      `fuel` iterations; `stopped` tells whether the loop exited by itself. */
  method RunLoop(tbl: Table, finals: set<string>, c: Config, fuel: nat) returns (d: Config, stopped: bool)
    ensures stopped ==> !Running(finals, d) && Run(tbl, finals, c, fuel) == Some(d)
    ensures !stopped ==> Run(tbl, finals, c, fuel) == None && d == Steps(tbl, c, fuel)
  {
    d := c;
    var n := 0;
    while n < fuel && Running(finals, d)
      invariant n <= fuel
      invariant d == Steps(tbl, c, n)
      invariant RunningBefore(tbl, finals, c, n)
    {
      d := Step(tbl, d);
      n := n + 1;
    }
    stopped := !Running(finals, d);
    if stopped {
      FirstStopSteps(tbl, finals, c, n);
      RunComplete(tbl, finals, c, n, fuel);
    } else {
      assert RunningBefore(tbl, finals, c, fuel + 1);
      RunOutOfFuel(tbl, finals, c, fuel);
    }
  }

  /** The page's verdict after the run, `finalStates.has(getCurrentState())`:
      a halted machine is never accepted. */
  predicate Accepted(finals: set<string>, c: Config) {
    c.state.Active? && c.state.name in finals
  }

  /** Every state named in the table is a non-empty label. */
  predicate LabelsNonEmpty(tbl: Table) {
    forall key :: key in tbl ==> key.0 != "" && tbl[key].next != ""
  }

  /** With non-empty labels throughout, no step produces the falsy empty label. */
  lemma StepsKeepLabels(tbl: Table, c: Config, n: nat)
    requires LabelsNonEmpty(tbl)
    requires c.state.Active? ==> c.state.name != ""
    ensures Steps(tbl, c, n).state.Active? ==> Steps(tbl, c, n).state.name != ""
  {
  }

  /** With non-empty labels, a run that exits ends either halted and rejected
      or in an accepting state and accepted; never in any other state. */
  lemma AcceptedIffNotHalted(tbl: Table, finals: set<string>, input: string, start: string, fuel: nat)
    requires LabelsNonEmpty(tbl) && start != ""
    requires Run(tbl, finals, Init(input, start), fuel).Some?
    ensures var d := Run(tbl, finals, Init(input, start), fuel).value;
            && (d.state == Halted || d.state.name in finals)
            && (Accepted(finals, d) <==> d.state != Halted)
  {
    var c := Init(input, start);
    RunSound(tbl, finals, c, fuel);
    var k: nat :| k <= fuel && FirstStop(tbl, finals, c, k)
             && Steps(tbl, c, k) == Run(tbl, finals, c, fuel).value;
    StepsKeepLabels(tbl, c, k);
  }
}
