/** The scanner of the four-button keypad (backend/app/hardware/keypad.py). */
module Keypad {
  import opened Prelude
  import opened Debounce

  type Key = string

  /** 0.08 seconds in microseconds. */
  const DELAY: int := 80_000

  datatype Scanner = Scanner(armed: bool, candidate: Option<Key>, chord: bool, lastActive: Option<set<Key>>, changedAt: int)

  const START := Scanner(false, None, false, None, 0)

  /** A key is reported when it is released. */
  function Observe(s: Scanner, active: set<Key>, now: int): (Scanner, Option<Key>) {
    var t := if s.lastActive == Some(active) then s else s.(lastActive := Some(active), changedAt := now);
    if now - t.changedAt < DELAY then (t, None)
    else if active == {} then
      (t.(armed := true, candidate := None, chord := false), if t.armed && !t.chord then t.candidate else None)
    else if !t.armed then (t, None)
    else if |active| > 1 || (t.candidate.Some? && t.candidate.value !in active) then (t.(chord := true), None)
    else if t.chord then (t, None)
    else (t.(candidate := Some(Only(active))), None)
  }

  /** The element of a set of one. */
  function Only(active: set<Key>): (k: Key)
    requires |active| == 1
    ensures active == {k}
  {
    OneElement(active);
    var k :| active == {k};
    k
  }

  lemma OneElement(active: set<Key>)
    requires |active| == 1
    ensures exists k :: active == {k}
  {
    var k :| k in active;
    assert |active - {k}| == 0;
    assert active == {k};
  }

  type History = seq<Sample<set<Key>>>

  function After(h: History): Scanner {
    if h == [] then START else Observe(After(h[..|h| - 1]), h[|h| - 1].value, h[|h| - 1].now).0
  }

  /** What the update with the last sample reports. */
  function Reported(h: History): Option<Key>
    requires h != []
  {
    Observe(After(h[..|h| - 1]), h[|h| - 1].value, h[|h| - 1].now).1
  }

  // ---------------------------------------------------------------- what the history says

  predicate Released(h: History, i: nat)
    requires i < |h|
  {
    SteadyAt(h, i, DELAY) && h[i].value == {}
  }

  /** Since the steady release at `m` every steady sample was exactly the key `k`. */
  predicate OnlyKey(h: History, m: nat, k: Key)
    requires m < |h|
  {
    forall i | m < i < |h| && SteadyAt(h, i, DELAY) :: h[i].value == {k}
  }

  predicate SomeSteady(h: History, m: nat)
    requires m < |h|
  {
    exists i :: m < i < |h| && SteadyAt(h, i, DELAY)
  }

  /** `m` is the last steady release. */
  predicate LastRelease(h: History, m: nat)
    requires m < |h|
  {
    Released(h, m) && forall i | m < i < |h| :: !Released(h, i)
  }

  ghost predicate EverReleased(h: History) {
    exists m :: 0 <= m < |h| && Released(h, m)
  }

  // ---------------------------------------------------------------- the scanner remembers it

  lemma {:induction false} Remembers(h: History)
    requires h != []
    ensures After(h).lastActive == Some(h[|h| - 1].value) && After(h).changedAt == ChangedAt(h)
  {
    var n := |h| - 1;
    if n > 0 {
      Remembers(h[..n]);
    }
  }

  /** The state in terms of the history: armed since a steady release; then the candidate is `k` without a chord
      exactly when there were steady samples since the last release and all of them were `k` alone. */
  ghost predicate Means(h: History, s: Scanner) {
    && (s.armed <==> EverReleased(h))
    && (!s.armed ==> s.candidate == None && !s.chord)
    && (forall m | 0 <= m < |h| && LastRelease(h, m) :: Pressed(h, s, m))
  }

  ghost predicate Pressed(h: History, s: Scanner, m: nat)
    requires m < |h|
  {
    && (s.candidate == None && !s.chord <==> !SomeSteady(h, m))
    && (forall k :: !s.chord && s.candidate == Some(k) <==> SomeSteady(h, m) && OnlyKey(h, m, k))
  }

  lemma StepReleased(h: History, i: nat)
    requires h != [] && i < |h| - 1
    ensures Released(h[..|h| - 1], i) == Released(h, i)
  {
    SteadyBefore(h, i, DELAY);
  }

  lemma EarlierRelease(h: History)
    requires h != []
    ensures EverReleased(h) <==> EverReleased(h[..|h| - 1]) || Released(h, |h| - 1)
  {
    var n := |h| - 1;
    forall m | 0 <= m < n
      ensures Released(h[..n], m) == Released(h, m)
    {
      StepReleased(h, m);
    }
    if m :| 0 <= m < n && Released(h[..n], m) {
      assert Released(h, m);
    }
  }

  lemma SameLastRelease(h: History, m: nat)
    requires h != [] && m < |h| - 1 && LastRelease(h, m)
    ensures LastRelease(h[..|h| - 1], m)
  {
    var n := |h| - 1;
    forall i | m <= i < n
      ensures Released(h[..n], i) == Released(h, i)
    {
      StepReleased(h, i);
    }
  }

  lemma NextSteady(h: History, m: nat)
    requires h != [] && m < |h| - 1
    ensures SomeSteady(h, m) <==> SomeSteady(h[..|h| - 1], m) || SteadyAt(h, |h| - 1, DELAY)
    ensures forall k ::
        OnlyKey(h, m, k) <==> OnlyKey(h[..|h| - 1], m, k) && (SteadyAt(h, |h| - 1, DELAY) ==> h[|h| - 1].value == {k})
  {
    var n := |h| - 1;
    forall i | 0 <= i < n
      ensures SteadyAt(h[..n], i, DELAY) == SteadyAt(h, i, DELAY)
    {
      SteadyBefore(h, i, DELAY);
    }
    hide SteadyAt;
    if i :| m < i < n && SteadyAt(h[..n], i, DELAY) {
      assert SteadyAt(h, i, DELAY);
    }
    forall k
      ensures OnlyKey(h, m, k)
          <==> OnlyKey(h[..n], m, k) && (SteadyAt(h, n, DELAY) ==> h[n].value == {k})
    {
      if OnlyKey(h, m, k) {
        forall i | m < i < n && SteadyAt(h[..n], i, DELAY)
          ensures h[..n][i].value == {k}
        {
          assert SteadyAt(h, i, DELAY);
        }
      }
    }
  }

  lemma NoTwoKeys(h: History, m: nat)
    requires m < |h| && SomeSteady(h, m)
    ensures forall k, l | OnlyKey(h, m, k) && OnlyKey(h, m, l) :: k == l
  {
    var i :| m < i < |h| && SteadyAt(h, i, DELAY);
    forall k, l | OnlyKey(h, m, k) && OnlyKey(h, m, l)
      ensures k == l
    {
      assert k in h[i].value && l in h[i].value;
    }
  }

  /** The step with the last sample, in the words of the history. */
  lemma StepIs(h: History)
    requires h != []
    ensures var n := |h| - 1;
            var s, t := After(h[..n]), After(h);
            var active := h[n].value;
            if !SteadyAt(h, n, DELAY) then t.armed == s.armed && t.candidate == s.candidate && t.chord == s.chord
            else if active == {} then t.armed && t.candidate == None && !t.chord
            else if !s.armed then t.armed == s.armed && t.candidate == s.candidate && t.chord == s.chord
            else if |active| > 1 || (s.candidate.Some? && s.candidate.value !in active)
            then t.armed && t.candidate == s.candidate && t.chord
            else if s.chord then t.armed && t.candidate == s.candidate && t.chord
            else t.armed && t.candidate == Some(Only(active)) && !t.chord
  {
    var n := |h| - 1;
    Remembers(h);
    assert h[..n + 1] == h;
    hide Only, ChangedAt;
  }

  lemma QuietStep(h': History, h: History, s: Scanner, t: Scanner, m: nat)
    requires m < |h'| && m < |h| && Pressed(h', s, m) && t.candidate == s.candidate && t.chord == s.chord
    requires SomeSteady(h, m) == SomeSteady(h', m) && forall k :: OnlyKey(h, m, k) <==> OnlyKey(h', m, k)
    ensures Pressed(h, t, m)
  {
    hide SomeSteady, OnlyKey;
  }

  lemma ChordStep(h': History, h: History, active: set<Key>, s: Scanner, t: Scanner, m: nat)
    requires m < |h'| && m < |h| && Pressed(h', s, m) && t.candidate == s.candidate && t.chord
    requires SomeSteady(h, m) && forall k :: OnlyKey(h, m, k) <==> OnlyKey(h', m, k) && active == {k}
    requires SomeSteady(h', m) ==> forall k, l | OnlyKey(h', m, k) && OnlyKey(h', m, l) :: k == l
    requires |active| > 1 || (s.candidate.Some? && s.candidate.value !in active) || s.chord
    ensures Pressed(h, t, m)
  {
    hide SomeSteady, OnlyKey;
    assert s.candidate.Some? && !s.chord ==> SomeSteady(h', m) && OnlyKey(h', m, s.candidate.value);
    assert forall k :: !OnlyKey(h, m, k);
  }

  lemma SingleStep(h': History, h: History, active: set<Key>, s: Scanner, t: Scanner, m: nat)
    requires m < |h'| && m < |h| && Pressed(h', s, m) && !s.chord && !t.chord
    requires SomeSteady(h, m) && forall k :: OnlyKey(h, m, k) <==> OnlyKey(h', m, k) && active == {k}
    requires |active| == 1 && t.candidate == Some(Only(active)) && (s.candidate.Some? ==> s.candidate.value in active)
    ensures Pressed(h, t, m)
  {
    var a := Only(active);
    assert OnlyKey(h', m, a) by {
      if s.candidate.None? {
        assert !SomeSteady(h', m);
        NothingSteady(h', m, a);
      }
    }
    hide SomeSteady, OnlyKey, Only;
  }

  lemma NothingSteady(h: History, m: nat, k: Key)
    requires m < |h| && !SomeSteady(h, m)
    ensures OnlyKey(h, m, k)
  {
  }

  /** One sample more, seen from a fixed last release `m`. */
  lemma PressedStep(h: History, m: nat)
    requires h != [] && m < |h| - 1 && LastRelease(h, m)
    requires Means(h[..|h| - 1], After(h[..|h| - 1]))
    ensures Pressed(h, After(h), m)
  {
    var n := |h| - 1;
    var h', s, t, active := h[..n], After(h[..n]), After(h), h[n].value;
    SameLastRelease(h, m);
    NextSteady(h, m);
    StepIs(h);
    assert Pressed(h', s, m) && s.armed by {
      assert Released(h', m);
    }
    assert SteadyAt(h, n, DELAY) ==> active != {} by {
      assert !Released(h, n);
    }
    if SomeSteady(h', m) {
      NoTwoKeys(h', m);
    }
    hide *;
    if !SteadyAt(h, n, DELAY) {
      QuietStep(h', h, s, t, m);
    } else if |active| > 1 || (s.candidate.Some? && s.candidate.value !in active) || s.chord {
      ChordStep(h', h, active, s, t, m);
    } else {
      SingleStep(h', h, active, s, t, m);
    }
  }

  /** After every history the scanner's state means what it should. */
  lemma {:induction false} StateMeans(h: History)
    ensures Means(h, After(h))
  {
    if h != [] {
      var n := |h| - 1;
      StateMeans(h[..n]);
      StepIs(h);
      EarlierRelease(h);
      forall m | 0 <= m < |h| && LastRelease(h, m)
        ensures Pressed(h, After(h), m)
      {
        if m < n {
          PressedStep(h, m);
        } else {
          assert Released(h, n);
        }
      }
      if SteadyAt(h, n, DELAY) && h[n].value == {} {
        assert Released(h, n);
      }
      hide After, SteadyAt, Pressed, LastRelease, EverReleased;
    }
  }

  /** A key is reported exactly at a steady release that was preceded by another one, when there were steady samples
      between the two and every one of them was that key alone. */
  lemma ReportsExactly(h: History, k: Key)
    requires h != []
    ensures Reported(h) == Some(k)
       <==> Released(h, |h| - 1) && CleanPress(h[..|h| - 1], k)
  {
    var n := |h| - 1;
    var h', s := h[..n], After(h[..n]);
    StateMeans(h');
    Remembers(h);
    assert h[..n + 1] == h;
    assert Reported(h) == Some(k) <==> Released(h, n) && s.armed && !s.chord && s.candidate == Some(k) by {
      hide ChangedAt, Only;
    }
    if s.armed {
      var m := LatestRelease(h');
      assert Pressed(h', s, m);
      forall l | 0 <= l < n && Clean(h', l, k)
        ensures l == m
      {
        CleanIsLast(h', l, k);
      }
      hide After, SomeSteady, OnlyKey, LastRelease;
      assert Clean(h', m, k) <==> SomeSteady(h', m) && OnlyKey(h', m, k);
    } else {
      assert forall m | 0 <= m < n :: !Released(h', m);
    }
  }

  /** After the steady release at `m` the key `k` was pressed alone, and nothing else. */
  predicate Clean(h: History, m: nat, k: Key)
    requires m < |h|
  {
    Released(h, m) && SomeSteady(h, m) && OnlyKey(h, m, k)
  }

  predicate CleanPress(h: History, k: Key) {
    exists m :: 0 <= m < |h| && Clean(h, m, k)
  }

  lemma CleanIsLast(h: History, m: nat, k: Key)
    requires m < |h| && Clean(h, m, k)
    ensures LastRelease(h, m) && forall l | 0 <= l < |h| && LastRelease(h, l) :: l == m
  {
    forall i | m < i < |h|
      ensures !Released(h, i)
    {
      assert SteadyAt(h, i, DELAY) ==> k in h[i].value;
    }
  }

  lemma {:induction false} LatestRelease(h: History) returns (m: nat)
    requires EverReleased(h)
    ensures m < |h| && LastRelease(h, m)
  {
    var r :| 0 <= r < |h| && Released(h, r);
    m := r;
    for i := r + 1 to |h|
      invariant r <= m < i && Released(h, m) && forall j | m < j < i :: !Released(h, j)
    {
      if Released(h, i) {
        m := i;
      }
    }
  }

  class KeyScanner {
    var armed: bool
    var candidate: Option<Key>
    var chord: bool
    var lastActive: Option<set<Key>>
    var changedAt: int

    constructor ()
      ensures State() == START
    {
      armed, candidate, chord, lastActive, changedAt := false, None, false, None, 0;
    }

    function State(): Scanner
      reads this
    {
      Scanner(armed, candidate, chord, lastActive, changedAt)
    }

    method Update(active: set<Key>, now: int) returns (key: Option<Key>)
      modifies this
      ensures (State(), key) == Observe(old(State()), active, now)
    {
      if lastActive != Some(active) {
        lastActive, changedAt := Some(active), now;
      }
      if now - changedAt < DELAY {
        return None;
      }
      if active == {} {
        key := if armed && !chord then candidate else None;
        armed, candidate, chord := true, None, false;
        return;
      }
      if armed {
        if |active| > 1 || (candidate.Some? && candidate.value !in active) {
          chord := true;
        } else if !chord {
          candidate := Some(Only(active));
        }
      }
      key := None;
    }
  }
}
