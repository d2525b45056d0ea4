/** The power button (backend/app/hardware/power_button.py). */
module PowerGestures {
  import opened Prelude
  import opened Debounce

  /** Seconds in microseconds. */
  const TWO: int := 2_000_000
  const FIVE: int := 5_000_000

  datatype Action = Reboot | Poweroff

  function ActionFor(duration: int): Option<Action> {
    if duration >= FIVE then Some(Poweroff) else if duration >= TWO then Some(Reboot) else None
  }

  datatype Button = Button(candidate: Option<bool>, changedAt: int, stable: Option<bool>, armed: bool, started: Option<int>)

  const START := Button(None, 0, None, false, None)

  function Observe(delay: int, b: Button, pressed: bool, now: int): (Button, Option<Action>) {
    var c := if b.candidate == Some(pressed) then b else b.(candidate := Some(pressed), changedAt := now);
    if now - c.changedAt < delay || c.stable == Some(pressed) then (c, None)
    else if pressed then
      (c.(stable := Some(true), started := if c.armed then Some(c.changedAt) else c.started), None)
    else
      (c.(stable := Some(false), started := None, armed := true),
       if c.started.Some? then ActionFor(c.changedAt - c.started.value) else None)
  }

  type History = seq<Sample<bool>>

  function After(delay: int, h: History): Button {
    if h == [] then START else Observe(delay, After(delay, h[..|h| - 1]), h[|h| - 1].value, h[|h| - 1].now).0
  }

  /** What the update with the last sample triggers. */
  function Triggered(delay: int, h: History): Option<Action>
    requires h != []
  {
    Observe(delay, After(delay, h[..|h| - 1]), h[|h| - 1].value, h[|h| - 1].now).1
  }

  // ---------------------------------------------------------------- what the history says

  /** The debounced value: that of the last steady sample. */
  function Level(delay: int, h: History): Option<bool> {
    if h == [] then None
    else if Steady(h, delay) then Some(h[|h| - 1].value)
    else Level(delay, h[..|h| - 1])
  }

  /** Sample `i` changes the debounced value. */
  predicate Edge(delay: int, h: History, i: nat)
    requires i < |h|
  {
    SteadyAt(h, i, delay) && Level(delay, h[..i]) != Some(h[i].value)
  }

  /** When the raw signal changed for the edge at `i`. */
  function RawEdge(h: History, i: nat): int
    requires i < |h|
  {
    ChangedAt(h[..i + 1])
  }

  predicate Pressing(delay: int, h: History, i: nat)
    requires i < |h|
  {
    Edge(delay, h, i) && h[i].value
  }

  predicate Releasing(delay: int, h: History, i: nat)
    requires i < |h|
  {
    Edge(delay, h, i) && !h[i].value
  }

  ghost predicate ReleasedBefore(delay: int, h: History, p: nat) {
    exists q :: 0 <= q < p && q < |h| && Releasing(delay, h, q)
  }

  /** The last edge is a press at `p`, and the button had been seen released before. */
  ghost predicate Armed(delay: int, h: History, p: nat)
    requires p < |h|
  {
    Pressing(delay, h, p) && ReleasedBefore(delay, h, p) && forall i | p < i < |h| :: !Edge(delay, h, i)
  }

  // ---------------------------------------------------------------- the button remembers it

  lemma {:induction false} Remembers(delay: int, h: History)
    requires h != []
    ensures After(delay, h).candidate == Some(h[|h| - 1].value) && After(delay, h).changedAt == ChangedAt(h)
  {
    var n := |h| - 1;
    if n > 0 {
      Remembers(delay, h[..n]);
    }
  }

  lemma EdgeBefore(delay: int, h: History, i: nat)
    requires i < |h| - 1
    ensures Edge(delay, h[..|h| - 1], i) == Edge(delay, h, i)
    ensures RawEdge(h[..|h| - 1], i) == RawEdge(h, i)
  {
    assert h[..|h| - 1][..i + 1] == h[..i + 1];
    assert h[..|h| - 1][..i] == h[..i];
  }

  /** The state in terms of the history. */
  ghost predicate Means(delay: int, h: History, b: Button) {
    && b.stable == Level(delay, h)
    && (b.armed <==> ReleasedBefore(delay, h, |h|))
    && (forall t :: b.started == Some(t) <==> StartedAt(delay, h, t))
  }

  ghost predicate StartedAt(delay: int, h: History, t: int) {
    exists p :: 0 <= p < |h| && Armed(delay, h, p) && RawEdge(h, p) == t
  }

  /** The step with the last sample, in the words of the history. */
  lemma StepIs(delay: int, h: History)
    requires h != [] && After(delay, h[..|h| - 1]).stable == Level(delay, h[..|h| - 1])
    ensures var n := |h| - 1;
            var b, c := After(delay, h[..n]), After(delay, h);
            && c.stable == Level(delay, h)
            && c.armed == (b.armed || Releasing(delay, h, n))
            && c.started == (if !Edge(delay, h, n) then b.started
                             else if !h[n].value then None
                             else if b.armed then Some(RawEdge(h, n)) else b.started)
            && Triggered(delay, h) == (if Releasing(delay, h, n) && b.started.Some?
                                       then ActionFor(RawEdge(h, n) - b.started.value) else None)
  {
    var n := |h| - 1;
    Remembers(delay, h);
    assert h[..n + 1] == h;
    hide ChangedAt, ActionFor;
  }

  lemma ReleasedStep(delay: int, h: History, p: nat)
    requires h != []
    ensures p < |h| ==> (ReleasedBefore(delay, h, p) <==> ReleasedBefore(delay, h[..|h| - 1], p))
    ensures ReleasedBefore(delay, h, |h|)
       <==> ReleasedBefore(delay, h[..|h| - 1], |h| - 1) || Releasing(delay, h, |h| - 1)
  {
    hide Edge;
    var n := |h| - 1;
    forall i | 0 <= i < n
      ensures Edge(delay, h[..n], i) == Edge(delay, h, i)
    {
      EdgeBefore(delay, h, i);
    }
    if p <= n {
      if q :| 0 <= q < p && q < |h| && Releasing(delay, h, q) {
        assert Releasing(delay, h[..n], q);
      }
      if q :| 0 <= q < p && q < n && Releasing(delay, h[..n], q) {
        assert Releasing(delay, h, q);
      }
    }
    if q :| 0 <= q < n && Releasing(delay, h, q) {
      assert Releasing(delay, h[..n], q);
    }
    if q :| 0 <= q < n && Releasing(delay, h[..n], q) {
      assert Releasing(delay, h, q);
    }
  }

  lemma ArmedStep(delay: int, h: History, p: nat)
    requires h != [] && p < |h| - 1
    ensures Armed(delay, h, p) <==> Armed(delay, h[..|h| - 1], p) && !Edge(delay, h, |h| - 1)
    ensures RawEdge(h[..|h| - 1], p) == RawEdge(h, p)
  {
    hide Edge, RawEdge, ReleasedBefore;
    var n := |h| - 1;
    EdgeBefore(delay, h, p);
    forall i | 0 <= i < n
      ensures Edge(delay, h[..n], i) == Edge(delay, h, i)
    {
      EdgeBefore(delay, h, i);
    }
    ReleasedStep(delay, h, p);
  }

  lemma StartedStep(delay: int, h: History, t: int)
    requires h != []
    ensures StartedAt(delay, h, t)
       <==> || (!Edge(delay, h, |h| - 1) && StartedAt(delay, h[..|h| - 1], t))
            || (Pressing(delay, h, |h| - 1) && ReleasedBefore(delay, h, |h| - 1) && RawEdge(h, |h| - 1) == t)
  {
    var n := |h| - 1;
    forall p | 0 <= p < n
      ensures Armed(delay, h, p) <==> Armed(delay, h[..n], p) && !Edge(delay, h, n)
      ensures RawEdge(h[..n], p) == RawEdge(h, p)
    {
      ArmedStep(delay, h, p);
    }
    assert Armed(delay, h, n) <==> Pressing(delay, h, n) && ReleasedBefore(delay, h, n);
    hide Armed, Edge, RawEdge, ReleasedBefore;
    if p :| 0 <= p < n && Armed(delay, h[..n], p) && RawEdge(h[..n], p) == t {
      assert !Edge(delay, h, n) ==> Armed(delay, h, p) && RawEdge(h, p) == t;
    }
  }

  /** After every history the button's state means what it should. */
  lemma {:induction false} StateMeans(delay: int, h: History)
    ensures Means(delay, h, After(delay, h))
  {
    if h != [] {
      var n := |h| - 1;
      var h', b := h[..n], After(delay, h[..n]);
      StateMeans(delay, h');
      StepIs(delay, h);
      ReleasedStep(delay, h, n);
      assert b.started.Some? ==> b.armed by {
        if b.started.Some? {
          StartedNeedsRelease(delay, h', b.started.value);
        }
      }
      forall t
        ensures After(delay, h).started == Some(t) <==> StartedAt(delay, h, t)
      {
        StartedStep(delay, h, t);
        assert b.started == Some(t) <==> StartedAt(delay, h', t);
        hide After, Edge, RawEdge, ReleasedBefore, StartedAt, Level;
      }
      hide After, Edge, RawEdge, ReleasedBefore, StartedAt, Level;
    }
  }

  lemma StartedNeedsRelease(delay: int, h: History, t: int)
    requires StartedAt(delay, h, t)
    ensures ReleasedBefore(delay, h, |h|)
  {
    var p :| 0 <= p < |h| && Armed(delay, h, p) && RawEdge(h, p) == t;
    var q :| 0 <= q < p && q < |h| && Releasing(delay, h, q);
    assert Releasing(delay, h, q);
  }

  /** Five seconds switch the power off, two but less than five restart. */
  predicate Demands(a: Action, duration: int) {
    if a == Poweroff then duration >= 5_000_000 else 2_000_000 <= duration < 5_000_000
  }

  lemma ActionExactly(duration: int, a: Action)
    ensures ActionFor(duration) == Some(a) <==> Demands(a, duration)
  {
  }

  /** The last edge before was an armed press, held for as long as `a` demands, measured between the raw edges. */
  ghost predicate Held(delay: int, h: History, release: int, a: Action) {
    exists p :: 0 <= p < |h| && Armed(delay, h, p) && Demands(a, release - RawEdge(h, p))
  }

  /** An action is triggered exactly by the debounced release that follows an armed press held long enough. */
  lemma TriggersExactly(delay: int, h: History, a: Action)
    requires h != []
    ensures Triggered(delay, h) == Some(a)
       <==> Releasing(delay, h, |h| - 1) && Held(delay, h[..|h| - 1], RawEdge(h, |h| - 1), a)
  {
    hide After, Armed, Edge, RawEdge, ActionFor, ReleasedBefore, Triggered, Demands;
    var n := |h| - 1;
    var h', b := h[..n], After(delay, h[..n]);
    StateMeans(delay, h');
    StepIs(delay, h);
    if b.started.Some? {
      ActionExactly(RawEdge(h, n) - b.started.value, a);
      assert StartedAt(delay, h', b.started.value);
    }
    forall p | 0 <= p < n && Armed(delay, h', p)
      ensures b.started == Some(RawEdge(h', p))
    {
      assert StartedAt(delay, h', RawEdge(h', p));
    }
  }

  lemma TriggerNeedsPress(delay: int, h: History) returns (p: nat)
    requires h != [] && Triggered(delay, h).Some?
    ensures p < |h| - 1 && Pressing(delay, h, p) && Releasing(delay, h, |h| - 1)
    ensures forall i | p < i < |h| - 1 :: !Edge(delay, h, i)
  {
    var n := |h| - 1;
    TriggersExactly(delay, h, Triggered(delay, h).value);
    p :| 0 <= p < n && Armed(delay, h[..n], p) && Demands(Triggered(delay, h).value, RawEdge(h, n) - RawEdge(h[..n], p));
    forall i | 0 <= i < n
      ensures Edge(delay, h[..n], i) == Edge(delay, h, i)
    {
      EdgeBefore(delay, h, i);
    }
  }

  lemma {:induction false} EdgeAnywhere(delay: int, h: History, n: nat, i: nat)
    requires i < n <= |h|
    ensures Edge(delay, h[..n], i) == Edge(delay, h, i)
  {
    assert h[..n][..i + 1] == h[..i + 1] && h[..n][..i] == h[..i];
  }

  /** Between two triggered actions the button was pressed anew. */
  lemma OncePerPress(delay: int, h: History, m: nat, n: nat) returns (p: nat)
    requires m < n < |h| && Triggered(delay, h[..m + 1]).Some? && Triggered(delay, h[..n + 1]).Some?
    ensures m < p < n && Pressing(delay, h, p)
  {
    var q := TriggerNeedsPress(delay, h[..m + 1]);
    p := TriggerNeedsPress(delay, h[..n + 1]);
    EdgeAnywhere(delay, h, n + 1, p);
    EdgeAnywhere(delay, h, m + 1, m);
    EdgeAnywhere(delay, h, n + 1, m);
    hide Edge, Triggered;
    assert h[..n + 1][m] == h[m] == h[..m + 1][m];
  }

  class PowerButton {
    const debounce: int
    var candidate: Option<bool>
    var changedAt: int
    var stable: Option<bool>
    var armed: bool
    var started: Option<int>

    constructor (debounce: int)
      ensures this.debounce == debounce && State() == START
    {
      this.debounce := debounce;
      candidate, changedAt, stable, armed, started := None, 0, None, false, None;
    }

    function State(): Button
      reads this
    {
      Button(candidate, changedAt, stable, armed, started)
    }

    method Update(pressed: bool, now: int) returns (result: Option<Action>)
      modifies this
      ensures (State(), result) == Observe(debounce, old(State()), pressed, now)
    {
      if candidate != Some(pressed) {
        candidate, changedAt := Some(pressed), now;
      }
      if now - changedAt < debounce || stable == Some(pressed) {
        return None;
      }
      stable := Some(pressed);
      if pressed {
        if armed {
          started := Some(changedAt);
        }
        return None;
      }
      result := None;
      if started.Some? {
        result := ActionFor(changedAt - started.value);
      }
      started := None;
      armed := true;
    }
  }
}
