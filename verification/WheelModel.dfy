/**
  The hierarchical timing wheel as values: entries, rows of buckets, one tick and one
  insertion (xiaoNet/utils/TimingWheel.cpp), and the proof that together they behave like
  one flat table from entry to deadline.
 */
module WheelModel {
  import opened Arithmetic

  /** What a bucket holds: a user's entry, or a CallbackEntry. The lambda of a CallbackEntry
      captures a row, a bucket index in that row, and the pointer it inserts there when the
      CallbackEntry dies. `handle` is the identity of the heap object. */
  datatype Entry =
    | User(id: nat)
    | Callback(handle: nat, level: nat, slot: nat, inner: Entry)

  type Bucket = set<Entry>
  type Rows = seq<seq<Bucket>>

  /** `n` buckets per row, the rows, the tick counter, and the next unused handle. */
  datatype Wheel = Wheel(n: nat, rows: Rows, ticks: nat, handles: nat)

  function Owner(x: Entry): nat {
    match x
    case User(id) => id
    case Callback(_, _, _, inner) => Owner(inner)
  }

  function Pow(n: nat, k: nat): (r: nat)
    ensures n > 0 ==> r > 0
  {
    if k == 0 then 1 else n * Pow(n, k - 1)
  }

  /** `x` is a user entry under exactly `j` callbacks, aimed at rows `j - 1` down to 0. */
  predicate Chain(x: Entry, j: nat, n: nat) {
    if j == 0 then
      x.User?
    else
      x.Callback? && x.level == j - 1 && x.slot < n && Chain(x.inner, j - 1, n)
  }

  ghost predicate WellFormed(n: nat, rows: Rows) {
    forall j :: 0 <= j < |rows| ==> |rows[j]| == n && RowChains(rows[j], j, n)
  }

  ghost predicate RowChains(row: seq<Bucket>, j: nat, n: nat) {
    forall b, x :: 0 <= b < |row| && x in row[b] ==> Chain(x, j, n)
  }

  ghost predicate Valid(w: Wheel) {
    w.n > 1 && |w.rows| >= 1 && WellFormed(w.n, w.rows)
  }

  // ---------------------------------------------------------------- operations

  /** The pointers that the callbacks in `bucket` insert at `rows[level][slot]` when they die. */
  function Inners(bucket: Bucket, level: nat, slot: nat): Bucket {
    set x | x in bucket && x.Callback? && x.level == level && x.slot == slot :: x.inner
  }

  /** Destroying `bucket`: every callback in it runs once. The order does not matter. */
  function RunCallbacks(rows: Rows, bucket: Bucket): (r: Rows)
    ensures |r| == |rows|
    ensures forall l :: 0 <= l < |rows| ==> |r[l]| == |rows[l]|
    ensures forall l, s :: 0 <= l < |rows| && 0 <= s < |rows[l]| ==> r[l][s] == rows[l][s] + Inners(bucket, l, s)
  {
    seq(|rows|, l requires 0 <= l < |rows| =>
      seq(|rows[l]|, s requires 0 <= s < |rows[l]| => rows[l][s] + Inners(bucket, l, s)))
  }

  /** Row `i` drops its front bucket and takes an empty one at the back. */
  function Rotate(rows: Rows, i: nat): (r: Rows)
    requires i < |rows| && |rows[i]| > 0
    ensures |r| == |rows|
    ensures forall l :: 0 <= l < |rows| ==> |r[l]| == |rows[l]|
  {
    RunCallbacks(rows[i := rows[i][1..] + [{}]], rows[i][0])
  }

  /** The rest of a tick, from row `i` up, once the counter shows `t`. */
  function TickFrom(n: nat, rows: Rows, t: nat, i: nat): (r: Rows)
    requires n > 0 && i <= |rows| && forall l :: 0 <= l < |rows| ==> |rows[l]| == n
    ensures |r| == |rows| && forall l :: 0 <= l < |rows| ==> |r[l]| == n
    decreases |rows| - i
  {
    if i == |rows| then
      rows
    else
      TickFrom(n, if t % Pow(n, i) == 0 then Rotate(rows, i) else rows, t, i + 1)
  }

  function Tick(w: Wheel): Wheel
    requires w.n > 0 && forall l :: 0 <= l < |w.rows| ==> |w.rows[l]| == w.n
  {
    w.(rows := TickFrom(w.n, w.rows, w.ticks + 1, 0), ticks := w.ticks + 1)
  }

  function PutAt(rows: Rows, i: nat, s: nat, x: Entry): Rows
    requires i < |rows| && s < |rows[i]|
  {
    rows[i := rows[i][s := rows[i][s] + {x}]]
  }

  /** The insertion loop from row `i`: `x` is the pointer wrapped so far, `d` and `t` are the
      delay and the counter in units of row `i`. The last row clamps what does not fit. */
  function InsertFrom(n: nat, rows: Rows, handles: nat, i: nat, d: nat, t: nat, x: Entry): (Rows, nat)
    requires n > 0 && i < |rows| && d >= 1
    requires forall l :: 0 <= l < |rows| ==> |rows[l]| == n
    decreases |rows| - i
  {
    if d <= n then
      (PutAt(rows, i, d - 1, x), handles)
    else if i < |rows| - 1 then
      NextDelayPositive(n, d, t);
      InsertFrom(n, rows, handles + 1, i + 1, NextDelay(n, d, t), t / n,
                 Callback(handles, i, NextSlot(n, d, t), x))
    else
      (PutAt(rows, i, n - 1, x), handles)
  }

  function NextDelay(n: nat, d: nat, t: nat): nat
    requires n > 0 && d >= 1
  {
    (d + t % n - 1) / n
  }

  function NextSlot(n: nat, d: nat, t: nat): (s: nat)
    requires n > 0 && d >= 1
    ensures s < n
  {
    (d + t % n - 1) % n
  }

  lemma NextDelayPositive(n: nat, d: nat, t: nat)
    requires n > 0 && d > n
    ensures NextDelay(n, d, t) >= 1
  {
  }

  /** `insertEntryInloop` with the delay already counted in ticks, plus one. */
  function Insert(w: Wheel, id: nat, d: nat): Wheel
    requires w.n > 0 && |w.rows| > 0 && d >= 1
    requires forall l :: 0 <= l < |w.rows| ==> |w.rows[l]| == w.n
  {
    var (rows, handles) := InsertFrom(w.n, w.rows, w.handles, 0, d, w.ticks, User(id));
    w.(rows := rows, handles := handles)
  }

  function Empty(n: nat, wheels: nat): Wheel {
    Wheel(n, seq(wheels, _ => seq(n, _ => {})), 0, 0)
  }

  // ---------------------------------------------------------------- arithmetic

  /** One tick moves the quotient of a row exactly when the row rotates. */
  lemma QuotientStep(t: nat, p: nat)
    requires p > 0
    ensures (t + 1) % p == 0 ==> t / p + 1 == (t + 1) / p && (t / p + 1) * p == t + 1
    ensures (t + 1) % p != 0 ==> t / p == (t + 1) / p
  {
    var q, r := t / p, t % p;
    assert t == q * p + r;
    if r + 1 < p {
      DivUnique(t + 1, p, q, r + 1);
    } else {
      assert (q + 1) * p == q * p + p;
      DivUnique(t + 1, p, q + 1, 0);
    }
  }

  /** Counting in row `k + 1` is counting in row `k`, divided once more. */
  lemma DivPow(t: nat, n: nat, k: nat)
    requires n > 0
    ensures t / Pow(n, k + 1) == t / Pow(n, k) / n
  {
    DivDiv(t, Pow(n, k), n);
  }

  /** If the counter is a multiple of one row's period, it is one of the row's below. */
  lemma PowDivides(t: nat, n: nat, k: nat)
    requires n > 0 && t % Pow(n, k + 1) == 0
    ensures t % Pow(n, k) == 0
  {
    var p := Pow(n, k);
    var q := t / (n * p);
    assert t == q * (n * p);
    assert q * (n * p) == q * n * p;
    DivUnique(t, p, q * n, 0);
  }

  /** The key step of the insertion: the position one row up, plus the slot written into the
      callback, is the position asked for. */
  lemma LevelStep(n: nat, d: nat, t: nat)
    requires n > 0 && d >= 1
    ensures (t / n + NextDelay(n, d, t)) * n + NextSlot(n, d, t) + 1 == t + d
  {
  }

  // ---------------------------------------------------------------- what is pending

  /** The tick at which bucket `b` of row `j` is dropped, seen when the counter shows `t`. */
  function DropAt(n: nat, t: nat, j: nat, b: nat): nat
    requires n > 0
  {
    (t / Pow(n, j) + b + 1) * Pow(n, j)
  }

  /** How many ticks after its bucket is dropped an entry leaves the wheel for good. */
  function Offset(x: Entry, n: nat): nat {
    match x
    case User(_) => 0
    case Callback(_, level, slot, inner) => (slot + 1) * Pow(n, level) + Offset(inner, n)
  }

  lemma OffsetPositive(x: Entry, n: nat)
    requires n > 0 && x.Callback?
    ensures Offset(x, n) > 0
  {
  }

  ghost predicate Holds(rows: Rows, j: int, b: int, x: Entry) {
    0 <= j < |rows| && 0 <= b < |rows[j]| && x in rows[j][b]
  }

  /** During a tick from `t` to `t + 1`, rows below `i` already count `t + 1`. */
  function Clock(t: nat, i: nat, j: nat): nat {
    if j < i then t + 1 else t
  }

  ghost predicate DueAt(n: nat, rows: Rows, t: nat, i: nat, j: int, b: int, x: Entry, id: nat, due: nat)
    requires n > 0
  {
    Holds(rows, j, b, x) && Owner(x) == id && due == DropAt(n, Clock(t, i, j), j, b) + Offset(x, n)
  }

  ghost predicate PendingMid(n: nat, rows: Rows, t: nat, i: nat, id: nat, due: nat)
    requires n > 0
  {
    exists j, b, x :: DueAt(n, rows, t, i, j, b, x, id, due)
  }

  /** Between ticks: some pointer in the wheel keeps entry `id` alive until tick `due`. */
  ghost predicate Pending(w: Wheel, id: nat, due: nat)
    requires w.n > 0
  {
    PendingMid(w.n, w.rows, w.ticks, 0, id, due)
  }

  /** The entry has a reference left, so it has not been destroyed. */
  ghost predicate Held(w: Wheel, id: nat) {
    exists j, b, x :: Holds(w.rows, j, b, x) && Owner(x) == id
  }
}
