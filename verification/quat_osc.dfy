/**
 * QuatOSC: the parts of the quaternion oscillator that are bookkeeping rather than numerics.
 * The display keeps, per axis, a ring of the last `MAX_HISTORY` sampled points, fed from a queue
 * the audio side fills and drawn oldest first; the module guards the measured clock frequency
 * and resets its LFO phases and its rotation when an input is plugged or unplugged.
 */
module QuatOsc {
  /** The number of ring slots in use; the ring array has one spare slot more. */
  const MAX_HISTORY: nat := 400

  /** A point in space, as `gmtl::Vec3f` holds it. */
  datatype Vec3 = Vec3(x: real, y: real, z: real)

  /** A quaternion with vector part (x, y, z) and scalar part w, as `gmtl::Quatf` holds it. */
  datatype Quat = Quat(x: real, y: real, z: real, w: real)

  const ORIGIN: Vec3 := Vec3(0.0, 0.0, 0.0)

  /** The rotation that leaves every point where it is. */
  const IDENTITY: Quat := Quat(0.0, 0.0, 0.0, 1.0)

  /** The starting phases of the three LFOs, chosen slightly apart. */
  const LFO1_START: real := 0.8364
  const LFO2_START: real := 0.435
  const LFO3_START: real := 0.3234

  /** The clock frequency used while no clock is connected, and the bounds a measured one must meet. */
  const DEFAULT_CLOCK: real := 2.0
  const MIN_CLOCK: real := 0.001
  const MAX_CLOCK: real := 1000.0

  // ---------------------------------------------------------------------------------------------
  // Clamping
  // ---------------------------------------------------------------------------------------------

  /**
   * `value` limited to [min, max]: the lower bound is applied first, so with min > max the result
   * is max.
   */
  function FClamp(min: real, max: real, value: real): (r: real)
    ensures min <= max ==> min <= r <= max
    ensures min <= value <= max ==> r == value
    ensures max < min ==> r == max
    ensures value < min && min <= max ==> r == min
    ensures max < value ==> r == max
  {
    var lower := if min < value then value else min;
    if max < lower then max else lower
  }

  /** Clamping a clamped value again changes nothing. */
  lemma FClampIdempotent(min: real, max: real, value: real)
    ensures FClamp(min, max, FClamp(min, max, value)) == FClamp(min, max, value)
  {
  }

  // ---------------------------------------------------------------------------------------------
  // The history ring
  // ---------------------------------------------------------------------------------------------

  /** A ring array of the right size with a cursor on one of its used slots. */
  predicate IsRing(ring: seq<Vec3>, cursor: int)
  {
    |ring| == MAX_HISTORY + 1 && 0 <= cursor < MAX_HISTORY
  }

  /**
   * The ring after `items` have been written one after the other, the first at `cursor` and each
   * next one at the following slot, wrapping after `MAX_HISTORY` slots.
   */
  function Pushed(ring: seq<Vec3>, cursor: nat, items: seq<Vec3>): (r: seq<Vec3>)
    requires IsRing(ring, cursor)
    ensures |r| == |ring|
    decreases |items|
  {
    if items == [] then ring
    else Pushed(ring, cursor, items[..|items| - 1])[(cursor + |items| - 1) % MAX_HISTORY := items[|items| - 1]]
  }

  /** The spare slot at index `MAX_HISTORY` is never written. */
  lemma {:induction false} PushedKeepsSpare(ring: seq<Vec3>, cursor: nat, items: seq<Vec3>)
    requires IsRing(ring, cursor)
    ensures Pushed(ring, cursor, items)[MAX_HISTORY] == ring[MAX_HISTORY]
    decreases |items|
  {
    if items != [] {
      PushedKeepsSpare(ring, cursor, items[..|items| - 1]);
    }
  }

  /** Two slot numbers less than a ring's length apart fall on different slots. */
  lemma SlotsApart(a: nat, b: nat)
    requires a < b < a + MAX_HISTORY
    ensures a % MAX_HISTORY != b % MAX_HISTORY
  {
    assert a == (a / MAX_HISTORY) * MAX_HISTORY + a % MAX_HISTORY;
    assert b == (b / MAX_HISTORY) * MAX_HISTORY + b % MAX_HISTORY;
  }

  /** Reducing a slot number before adding to it does not change the slot reached. */
  lemma ReduceFirst(c: nat, d: nat)
    ensures (c % MAX_HISTORY + d) % MAX_HISTORY == (c + d) % MAX_HISTORY
  {
    assert c == (c / MAX_HISTORY) * MAX_HISTORY + c % MAX_HISTORY;
    assert c + d == (c / MAX_HISTORY) * MAX_HISTORY + (c % MAX_HISTORY + d);
  }

  /** A whole turn of the ring comes back to the same slot. */
  lemma AddPeriod(x: nat)
    ensures (x + MAX_HISTORY) % MAX_HISTORY == x % MAX_HISTORY
  {
  }

  /**
   * The ring keeps the newest `MAX_HISTORY` items written: item `j` sits in the slot it was
   * written to unless at least `MAX_HISTORY` newer items followed it.
   */
  lemma {:induction false} PushedHolds(ring: seq<Vec3>, cursor: nat, items: seq<Vec3>, j: nat)
    requires IsRing(ring, cursor)
    requires j < |items| && |items| - j <= MAX_HISTORY
    ensures Pushed(ring, cursor, items)[(cursor + j) % MAX_HISTORY] == items[j]
    decreases |items|
  {
    var n := |items| - 1;
    if j < n {
      PushedHolds(ring, cursor, items[..n], j);
      SlotsApart(cursor + j, cursor + n);
    }
  }

  /** Writing one more item extends the ring by one write at the next slot. */
  lemma PushedStep(ring: seq<Vec3>, cursor: nat, items: seq<Vec3>, k: nat)
    requires IsRing(ring, cursor) && k < |items|
    ensures Pushed(ring, cursor, items[..k + 1]) ==
      Pushed(ring, cursor, items[..k])[(cursor + k) % MAX_HISTORY := items[k]]
  {
    assert items[..k + 1][..k] == items[..k];
  }

  /** The slots the drawing loop visits, starting after the cursor and stopping before it. */
  function DrawSlots(cursor: nat): (slots: seq<nat>)
    ensures |slots| == MAX_HISTORY - 1
  {
    seq(MAX_HISTORY - 1, j requires 0 <= j < MAX_HISTORY - 1 => (cursor + 1 + j) % MAX_HISTORY)
  }

  /**
   * The drawing loop visits every used slot except the one at the cursor, each exactly once,
   * and never the spare slot.
   */
  lemma DrawSlotsCover(cursor: nat)
    requires cursor < MAX_HISTORY
    ensures var slots := DrawSlots(cursor);
      (forall j :: 0 <= j < |slots| ==> slots[j] < MAX_HISTORY && slots[j] != cursor) &&
      (forall j, k :: 0 <= j < k < |slots| ==> slots[j] != slots[k]) &&
      (forall s :: 0 <= s < MAX_HISTORY && s != cursor ==> s in slots)
  {
    var slots := DrawSlots(cursor);
    forall j | 0 <= j < |slots|
      ensures slots[j] != cursor
    {
      SlotsApart(cursor, cursor + 1 + j);
      assert cursor % MAX_HISTORY == cursor;
    }
    forall j, k | 0 <= j < k < |slots|
      ensures slots[j] != slots[k]
    {
      SlotsApart(cursor + 1 + j, cursor + 1 + k);
    }
    forall s | 0 <= s < MAX_HISTORY && s != cursor
      ensures s in slots
    {
      var j := if s > cursor then s - cursor - 1 else s + MAX_HISTORY - cursor - 1;
      assert slots[j] == s;
    }
  }

  /**
   * After at least `MAX_HISTORY - 1` items have been written, the drawing loop, started at the
   * new cursor, shows the newest `MAX_HISTORY - 1` of them, oldest first.
   */
  lemma DrawShowsNewest(ring: seq<Vec3>, cursor: nat, items: seq<Vec3>)
    requires IsRing(ring, cursor) && |items| >= MAX_HISTORY - 1
    ensures var r := Pushed(ring, cursor, items);
      var slots := DrawSlots((cursor + |items|) % MAX_HISTORY);
      forall j :: 0 <= j < |slots| ==> r[slots[j]] == items[|items| - (MAX_HISTORY - 1) + j]
  {
    var r := Pushed(ring, cursor, items);
    var slots := DrawSlots((cursor + |items|) % MAX_HISTORY);
    forall j | 0 <= j < |slots|
      ensures r[slots[j]] == items[|items| - (MAX_HISTORY - 1) + j]
    {
      var m := |items| - (MAX_HISTORY - 1) + j;
      PushedHolds(ring, cursor, items, m);
      ReduceFirst(cursor + |items|, 1 + j);
      AddPeriod(cursor + m);
      assert cursor + |items| + 1 + j == cursor + m + MAX_HISTORY;
    }
  }

  /** One axis's ring of drawn points. */
  class VecHistory {
    var history: array<Vec3>
    var cursor: int

    ghost predicate Valid()
      reads this`history, this`cursor
    {
      history.Length == MAX_HISTORY + 1 && 0 <= cursor < MAX_HISTORY
    }

    /** An empty ring: every slot at the origin, the cursor on slot 0. */
    constructor ()
      ensures Valid() && fresh(history) && cursor == 0
      ensures forall i :: 0 <= i < history.Length ==> history[i] == ORIGIN
    {
      history := new Vec3[MAX_HISTORY + 1](_ => ORIGIN);
      cursor := 0;
    }

    /** Writes `vec` at the cursor and moves the cursor on, wrapping after `MAX_HISTORY` slots. */
    method AddToHistory(vec: Vec3)
      requires Valid()
      modifies this`cursor, history
      ensures Valid()
      ensures history[..] == old(history[..])[old(cursor) := vec]
      ensures cursor == (old(cursor) + 1) % MAX_HISTORY
    {
      history[cursor] := vec;
      cursor := (cursor + 1) % MAX_HISTORY;
    }

    /**
     * Moves the queued points into the ring, oldest first, until at most one is left; the newest
     * point stays queued. The queue is passed in and its remainder returned.
     */
    method Drain(queue: seq<Vec3>) returns (rest: seq<Vec3>)
      requires Valid()
      modifies this`cursor, history
      ensures Valid()
      ensures rest == if |queue| > 1 then [queue[|queue| - 1]] else queue
      ensures history[..] == Pushed(old(history[..]), old(cursor), queue[..|queue| - |rest|])
      ensures cursor == (old(cursor) + |queue| - |rest|) % MAX_HISTORY
    {
      ghost var ring0, cursor0 := history[..], cursor;
      ghost var k := 0;
      rest := queue;
      while |rest| > 1
        invariant Valid() && 0 <= k <= |queue| && rest == queue[k..]
        invariant if |queue| > 1 then k < |queue| else k == 0
        invariant history[..] == Pushed(ring0, cursor0, queue[..k])
        invariant cursor == (cursor0 + k) % MAX_HISTORY
        decreases |rest|
      {
        PushedStep(ring0, cursor0, queue, k);
        ReduceFirst(cursor0 + k, 1);
        AddToHistory(rest[0]);
        rest := rest[1..];
        k := k + 1;
      }
      if |queue| > 1 {
        assert rest == [queue[|queue| - 1]];
      }
      assert |queue| - |rest| == k;
    }

    /** The points the drawing loop strokes, in the order it visits the slots. */
    method DrawPath() returns (path: seq<Vec3>)
      requires Valid()
      ensures |path| == MAX_HISTORY - 1
      ensures forall j :: 0 <= j < |path| ==> path[j] == history[DrawSlots(cursor)[j]]
    {
      path := [];
      var i := (cursor + 1) % MAX_HISTORY;
      while i != cursor
        invariant |path| < MAX_HISTORY && i == (cursor + 1 + |path|) % MAX_HISTORY
        invariant forall j :: 0 <= j < |path| ==> path[j] == history[DrawSlots(cursor)[j]]
        decreases MAX_HISTORY - 1 - |path|
      {
        path := path + [history[i]];
        i := (i + 1) % MAX_HISTORY;
      }
    }
  }

  // ---------------------------------------------------------------------------------------------
  // The module: clock guard and phase reset
  // ---------------------------------------------------------------------------------------------

  /**
   * The clock frequency after one sample. With the clock connected and a clock edge seen,
   * `period` (the time since the previous edge) gives the measured frequency, which is taken
   * only when it lies in [MIN_CLOCK, MAX_CLOCK]; a zero period, an infinite frequency, is refused.
   * Without a connected clock the frequency is the default.
   */
  function NextClockFreq(clockFreq: real, connected: bool, edge: bool, period: real): real
  {
    if !connected then DEFAULT_CLOCK
    else if edge && period > 0.0 && MIN_CLOCK <= 1.0 / period <= MAX_CLOCK then 1.0 / period
    else clockFreq
  }

  /** A frequency in the accepted range stays in it, whatever the clock does. */
  lemma ClockStaysInRange(clockFreq: real, connected: bool, edge: bool, period: real)
    requires MIN_CLOCK <= clockFreq <= MAX_CLOCK
    ensures MIN_CLOCK <= NextClockFreq(clockFreq, connected, edge, period) <= MAX_CLOCK
  {
  }

  /**
   * The frequency changes only to the default on a missing clock or to an accepted measurement:
   * a measurement out of range is ignored.
   */
  lemma ClockGuard(clockFreq: real, connected: bool, edge: bool, period: real)
    ensures var f := NextClockFreq(clockFreq, connected, edge, period);
      (!connected ==> f == DEFAULT_CLOCK) &&
      (connected && !edge ==> f == clockFreq) &&
      (connected && edge && period > 0.0 && (1.0 / period < MIN_CLOCK || 1.0 / period > MAX_CLOCK) ==> f == clockFreq) &&
      (connected && f != clockFreq ==> edge && period > 0.0 && f * period == 1.0 && MIN_CLOCK <= f <= MAX_CLOCK)
  {
  }

  class QuatOsc {
    var clockFreq: real
    var lfo1Phase: real
    var lfo2Phase: real
    var lfo3Phase: real
    var sphereQuat: Quat
    var oct1Connected: bool
    var oct2Connected: bool
    var oct3Connected: bool

    /** The default clock, the starting LFO phases, no rotation and no V/Oct input seen. */
    constructor ()
      ensures clockFreq == DEFAULT_CLOCK && sphereQuat == IDENTITY
      ensures lfo1Phase == LFO1_START && lfo2Phase == LFO2_START && lfo3Phase == LFO3_START
      ensures !oct1Connected && !oct2Connected && !oct3Connected
    {
      clockFreq := DEFAULT_CLOCK;
      lfo1Phase, lfo2Phase, lfo3Phase := LFO1_START, LFO2_START, LFO3_START;
      sphereQuat := IDENTITY;
      oct1Connected, oct2Connected, oct3Connected := false, false, false;
    }

    /** Drops the rotation and, when `resetLfo` holds, puts the LFOs back at their starting phases. */
    method ResetPhase(resetLfo: bool)
      modifies this`sphereQuat, this`lfo1Phase, this`lfo2Phase, this`lfo3Phase
      ensures sphereQuat == IDENTITY
      ensures resetLfo ==> lfo1Phase == LFO1_START && lfo2Phase == LFO2_START && lfo3Phase == LFO3_START
      ensures !resetLfo ==> lfo1Phase == old(lfo1Phase) && lfo2Phase == old(lfo2Phase) && lfo3Phase == old(lfo3Phase)
    {
      sphereQuat := IDENTITY;
      if resetLfo {
        lfo1Phase := LFO1_START;
        lfo2Phase := LFO2_START;
        lfo3Phase := LFO3_START;
      }
    }

    /**
     * Follows the connection state of the three V/Oct inputs; plugging or unplugging any of them
     * resets the rotation and the LFO phases, and otherwise nothing changes.
     */
    method TrackConnections(c1: bool, c2: bool, c3: bool)
      modifies this`oct1Connected, this`oct2Connected, this`oct3Connected
      modifies this`sphereQuat, this`lfo1Phase, this`lfo2Phase, this`lfo3Phase
      ensures oct1Connected == c1 && oct2Connected == c2 && oct3Connected == c3
      ensures old(oct1Connected) != c1 || old(oct2Connected) != c2 || old(oct3Connected) != c3 ==>
        sphereQuat == IDENTITY && lfo1Phase == LFO1_START && lfo2Phase == LFO2_START && lfo3Phase == LFO3_START
      ensures old(oct1Connected) == c1 && old(oct2Connected) == c2 && old(oct3Connected) == c3 ==>
        sphereQuat == old(sphereQuat) && lfo1Phase == old(lfo1Phase) && lfo2Phase == old(lfo2Phase) &&
        lfo3Phase == old(lfo3Phase)
    {
      if oct1Connected != c1 {
        oct1Connected := c1;
        ResetPhase(true);
      }
      if oct2Connected != c2 {
        oct2Connected := c2;
        ResetPhase(true);
      }
      if oct3Connected != c3 {
        oct3Connected := c3;
        ResetPhase(true);
      }
    }

    /**
     * The clock part of one sample: `connected` says whether the clock input is plugged, `edge`
     * whether its trigger fired this sample, and `period` the time the clock timer measured.
     */
    method ClockStep(connected: bool, edge: bool, period: real)
      modifies this`clockFreq
      ensures clockFreq == NextClockFreq(old(clockFreq), connected, edge, period)
    {
      if connected {
        if edge && period > 0.0 {
          var measured := 1.0 / period;
          if MIN_CLOCK <= measured && measured <= MAX_CLOCK {
            clockFreq := measured;
          }
        }
      } else {
        clockFreq := DEFAULT_CLOCK;
      }
    }
  }
}
