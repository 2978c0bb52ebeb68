/** The tape of the machine: a JavaScript array used as a two-way tape.

    Reads go through `tape[i] || ' '`, writes through `tape[i] = ch`, and the
    user sees `tape.join('')`. A JavaScript array is a bag of properties plus a
    `length`: a non-negative key is an array index and moves `length` past it,
    a negative key is an ordinary property that reads back but is never joined.
 */
module Tape {

  /** The symbol read wherever nothing has been written. */
  const Blank: char := ' '

  /** `cells` maps every integer key ever assigned (array indices and negative
      keys alike) to its symbol; `len` is the array's `length`. */
  datatype JsArray = JsArray(cells: map<int, char>, len: nat)

  /** Every assigned key lies below `length`, as for any JavaScript array. */
  predicate Wf(t: JsArray) {
    forall k :: k in t.cells ==> k < t.len
  }

  /** No holes: every index below `length` has been assigned. */
  predicate Dense(t: JsArray) {
    forall k :: 0 <= k < t.len ==> k in t.cells
  }

  /** The symbol under position `i`: the assigned symbol, or the blank for an
      unassigned key, whether it lies left of the tape or past its end. */
  function Read(t: JsArray, i: int): (ch: char)
    ensures Wf(t) && t.len <= i ==> ch == Blank
    ensures i < 0 && i !in t.cells ==> ch == Blank
    ensures i in t.cells ==> ch == t.cells[i]
  {
    if i in t.cells then t.cells[i] else Blank
  }

  /** Assigns `ch` at key `i`. Only a non-negative key is an array index, and
      an index at or past `length` moves `length` to `i + 1`. */
  function Write(t: JsArray, i: int, ch: char): (r: JsArray)
    ensures Read(r, i) == ch
    ensures forall j :: j != i ==> Read(r, j) == Read(t, j)
    ensures Wf(t) ==> Wf(r)
    ensures t.len <= r.len
    ensures i < 0 ==> r.len == t.len
    ensures 0 <= i < t.len ==> r.len == t.len
    ensures 0 <= i && t.len <= i ==> r.len == i + 1
  {
    JsArray(t.cells[i := ch], if 0 <= i && t.len <= i then i + 1 else t.len)
  }

  /** `join('')` over the indices below `n`: a hole contributes nothing. */
  function Join(cells: map<int, char>, n: nat): string
  {
    if n == 0 then [] else Join(cells, n - 1) + (if n - 1 in cells then [cells[n - 1]] else [])
  }

  /** The string the user sees, `tape.join('')`. */
  function Visible(t: JsArray): string
  {
    Join(t.cells, t.len)
  }

  /** Over a hole-free prefix, the joined string lists the cells in order. */
  lemma {:induction false} JoinDense(cells: map<int, char>, n: nat)
    requires forall k :: 0 <= k < n ==> k in cells
    ensures |Join(cells, n)| == n
    ensures forall k :: 0 <= k < n ==> Join(cells, n)[k] == cells[k]
  {
    if n > 0 {
      JoinDense(cells, n - 1);
    }
  }

  /** The joined string only depends on the indices below `n`. */
  lemma {:induction false} JoinFrame(a: map<int, char>, b: map<int, char>, n: nat)
    requires forall k :: 0 <= k < n ==> (k in a <==> k in b)
    requires forall k :: 0 <= k < n && k in a ==> a[k] == b[k]
    ensures Join(a, n) == Join(b, n)
  {
    if n > 0 {
      JoinFrame(a, b, n - 1);
    }
  }

  /** A hole-free tape shows exactly `length` symbols, cell by cell. */
  lemma VisibleDense(t: JsArray)
    requires Dense(t)
    ensures |Visible(t)| == t.len
    ensures forall k :: 0 <= k < t.len ==> Visible(t)[k] == Read(t, k)
  {
    JoinDense(t.cells, t.len);
  }

  /** `input.split("")`: the characters of the input at indices 0.. in order. */
  function FromString(s: string): (t: JsArray)
    ensures Wf(t) && Dense(t)
    ensures Visible(t) == s
    ensures forall i :: Read(t, i) == if 0 <= i < |s| then s[i] else Blank
  {
    var t := JsArray(map i | 0 <= i < |s| :: s[i], |s|);
    VisibleDense(t);
    t
  }

  /** What a write does to the joined string of a well-formed, hole-free tape
      when it lands left of the tape, inside it, or just past its end: a
      negative key never shows, an inner index is overwritten in place, and
      the index equal to `length` appends one symbol. */
  lemma WriteVisible(t: JsArray, i: int, ch: char)
    requires Wf(t) && Dense(t) && i <= t.len
    ensures Dense(Write(t, i, ch))
    ensures |Visible(t)| == t.len
    ensures i < 0 ==> Visible(Write(t, i, ch)) == Visible(t)
    ensures 0 <= i < t.len ==> Visible(Write(t, i, ch)) == Visible(t)[i := ch]
    ensures i == t.len ==> Visible(Write(t, i, ch)) == Visible(t) + [ch]
  {
    var r := Write(t, i, ch);
    VisibleDense(t);
    VisibleDense(r);
    if i < 0 {
      JoinFrame(t.cells, r.cells, t.len);
    } else if i < t.len {
      assert forall k :: 0 <= k < t.len ==> Visible(r)[k] == Visible(t)[i := ch][k];
    } else {
      assert forall k :: 0 <= k < r.len ==> Visible(r)[k] == (Visible(t) + [ch])[k];
    }
  }
}
