/**
 * Nandomizer: of the connected inputs one is active and sounds on the single output; a gate
 * picks a new active input at random, and the inputs that were active before fade out.
 */
module Nandomizer {
  import opened Wrappers
  import opened Discombobulator

  /** The light index of the blink light, after the eight input lights. */
  const BLINK_LIGHT: nat := 8

  /** The fades after one sample: the active input is at full level, every other one decays. */
  function NextFades(fades: seq<real>, active: nat, dt: real): (r: seq<real>)
    requires |fades| == MAX_INPUTS
    ensures |r| == MAX_INPUTS
  {
    seq(MAX_INPUTS, i requires 0 <= i < MAX_INPUTS => if i == active then 1.0 else Decay(fades[i], dt))
  }

  /** The active input after a sample: a gate picks one of the usable inputs, else it is kept. */
  function NextActive(usable: seq<InputId>, active: int, fired: bool, draw: nat): int
    requires usable != []
  {
    if fired then usable[draw % |usable|] else active
  }

  /** The output: the active input plus the other inputs weighted by their fades, scaled by `fadeAmnt`. */
  function Output(voltages: seq<real>, active: nat, fades: seq<real>, fadeAmnt: real): real
    requires active < |voltages| == |fades| == MAX_INPUTS
  {
    voltages[active] + OthersSum(active, voltages, fades, MAX_INPUTS) * fadeAmnt
  }

  /** After a gate the active input is a connected one. */
  lemma PickIsConnected(connected: seq<bool>, active: int, draw: nat)
    requires |connected| == MAX_INPUTS && Usable(connected) != []
    ensures var a := NextActive(Usable(connected), active, true, draw); 0 <= a < MAX_INPUTS && connected[a]
  {
    var u := Usable(connected);
    assert 0 <= draw % |u| < |u|;
  }

  /**
   * The fades stay in [0, 1] when they start there and the sample time is in [0, 1]; the
   * active input is at 1 and every other fade only goes down.
   */
  lemma NextFadesInUnit(fades: seq<real>, active: nat, dt: real)
    requires |fades| == MAX_INPUTS && 0.0 <= dt <= 1.0
    requires forall i :: 0 <= i < MAX_INPUTS ==> 0.0 <= fades[i] <= 1.0
    ensures forall i :: 0 <= i < MAX_INPUTS ==> 0.0 <= NextFades(fades, active, dt)[i] <= 1.0
    ensures forall i :: 0 <= i < MAX_INPUTS && i != active ==> NextFades(fades, active, dt)[i] <= fades[i]
    ensures active < MAX_INPUTS ==> NextFades(fades, active, dt)[active] == 1.0
  {
    var r := NextFades(fades, active, dt);
    forall i | 0 <= i < MAX_INPUTS
      ensures 0.0 <= r[i] <= 1.0 && (i != active ==> r[i] <= fades[i])
    {
      if i != active {
        assert r[i] == Decay(fades[i], dt);
      }
    }
  }

  /** With the active input unchanged, a fade that reached 0 stays at 0. */
  lemma SilentStaysSilent(fades: seq<real>, active: nat, dt: real, i: nat)
    requires |fades| == MAX_INPUTS && i < MAX_INPUTS && i != active && fades[i] == 0.0
    ensures NextFades(fades, active, dt)[i] == 0.0
  {
  }

  class Nandomizer {
    /** `inputFades[i]`: how much of input `i` still sounds on the output. */
    var inputFades: array<real>
    /** The eight input lights, then the blink light. */
    var lights: array<real>
    var activeOutput: int

    ghost predicate Valid()
      reads this`inputFades, this`lights, this`activeOutput, inputFades
    {
      inputFades.Length == MAX_INPUTS && lights.Length == MAX_INPUTS + 1 && inputFades != lights &&
      0 <= activeOutput < MAX_INPUTS &&
      forall i :: 0 <= i < MAX_INPUTS ==> inputFades[i] >= 0.0
    }

    /** Input 1 is active, nothing fades and every light is off. */
    constructor ()
      ensures Valid() && fresh(inputFades) && fresh(lights)
      ensures activeOutput == 0
      ensures forall i :: 0 <= i < MAX_INPUTS ==> inputFades[i] == 0.0
      ensures forall i :: 0 <= i < MAX_INPUTS + 1 ==> lights[i] == 0.0
    {
      inputFades := new real[MAX_INPUTS](_ => 0.0);
      lights := new real[MAX_INPUTS + 1](_ => 0.0);
      activeOutput := 0;
    }

    /**
     * The scan for connected inputs, which also lights the light of every connected input and
     * darkens the others.
     */
    method ScanAndLight(connected: seq<bool>) returns (usable: seq<InputId>)
      requires Valid() && |connected| == MAX_INPUTS
      modifies lights
      ensures Valid() && usable == Usable(connected)
      ensures forall i :: 0 <= i < MAX_INPUTS ==> lights[i] == if connected[i] then 1.0 else 0.0
      ensures lights[BLINK_LIGHT] == old(lights[BLINK_LIGHT])
    {
      usable := [];
      var i := 0;
      while i < MAX_INPUTS
        invariant 0 <= i <= MAX_INPUTS && Valid()
        invariant usable == Usable(connected[..i])
        invariant forall k :: 0 <= k < i ==> lights[k] == if connected[k] then 1.0 else 0.0
        invariant lights[BLINK_LIGHT] == old(lights[BLINK_LIGHT])
      {
        UsableStep(connected, i);
        if connected[i] {
          usable := usable + [i];
          lights[i] := 1.0;
        } else {
          lights[i] := 0.0;
        }
        i := i + 1;
      }
      assert connected[..i] == connected;
    }

    /**
     * The fade bookkeeping: the active input is set to full level, every other one decays by
     * `dt`, and the result is the other inputs weighted by their new fades.
     */
    method FadeOthers(voltages: seq<real>, dt: real) returns (fading: real)
      requires Valid() && |voltages| == MAX_INPUTS
      modifies inputFades
      ensures Valid()
      ensures inputFades[..] == NextFades(old(inputFades[..]), activeOutput, dt)
      ensures fading == OthersSum(activeOutput, voltages, inputFades[..], MAX_INPUTS)
    {
      ghost var f0 := inputFades[..];
      fading := 0.0;
      var i := 0;
      while i < MAX_INPUTS
        invariant 0 <= i <= MAX_INPUTS && Valid()
        invariant forall k :: 0 <= k < MAX_INPUTS ==>
          inputFades[k] == if k < i then NextFades(f0, activeOutput, dt)[k] else f0[k]
        invariant fading == OthersSum(activeOutput, voltages, inputFades[..], i)
      {
        ghost var before := inputFades[..];
        if i != activeOutput {
          inputFades[i] := Decay(inputFades[i], dt);
          fading := fading + voltages[i] * inputFades[i];
        } else {
          inputFades[i] := 1.0;
        }
        OthersSumPrefix(activeOutput, voltages, before, inputFades[..], i);
        i := i + 1;
      }
      assert inputFades[..] == NextFades(f0, activeOutput, dt);
    }

    /**
     * One sample: the input lights follow the connections; without a connected input nothing
     * else happens; otherwise a fired gate picks the active input from the connected ones
     * (`draw` standing for the random pick), the fades are updated, the output is the active
     * input plus the fading ones scaled by `fadeAmnt`, and the blink light follows the gate.
     */
    method Process(connected: seq<bool>, voltages: seq<real>, fadeAmnt: real, fired: bool, draw: nat,
                   sampleTime: real) returns (out: Option<real>)
      requires Valid() && |connected| == MAX_INPUTS && |voltages| == MAX_INPUTS
      modifies this`activeOutput, inputFades, lights
      ensures Valid()
      ensures forall i :: 0 <= i < MAX_INPUTS ==> lights[i] == if connected[i] then 1.0 else 0.0
      ensures Usable(connected) == [] ==>
        out == None && activeOutput == old(activeOutput) && inputFades[..] == old(inputFades[..]) &&
        lights[BLINK_LIGHT] == old(lights[BLINK_LIGHT])
      ensures Usable(connected) != [] ==>
        activeOutput == NextActive(Usable(connected), old(activeOutput), fired, draw)
      ensures Usable(connected) != [] ==>
        inputFades[..] == NextFades(old(inputFades[..]), activeOutput, sampleTime)
      ensures Usable(connected) != [] ==>
        out == Some(Output(voltages, activeOutput, inputFades[..], fadeAmnt))
      ensures Usable(connected) != [] ==>
        lights[BLINK_LIGHT] == Blinked(old(lights[BLINK_LIGHT]), fired)
    {
      ghost var f0 := inputFades[..];
      var usable := ScanAndLight(connected);
      assert inputFades[..] == f0;
      if usable == [] {
        return None;
      }
      if fired {
        activeOutput := usable[draw % |usable|];
      }
      // The blink light depends on nothing else, so it is updated before the fades here.
      Blink(fired);
      assert inputFades[..] == f0;
      ghost var b := lights[BLINK_LIGHT];
      var fading := FadeOthers(voltages, sampleTime);
      assert lights[BLINK_LIGHT] == b;
      out := Some(voltages[activeOutput] + fading * fadeAmnt);
      ghost var fs := inputFades[..];
      assert fading == OthersSum(activeOutput, voltages, fs, MAX_INPUTS);
      assert out.value == Output(voltages, activeOutput, fs, fadeAmnt);
    }

    /** The blink light: full on a gate, otherwise dimming by a small step until it is out. */
    method Blink(fired: bool)
      requires Valid()
      modifies lights
      ensures Valid()
      ensures lights[BLINK_LIGHT] == Blinked(old(lights[BLINK_LIGHT]), fired)
      ensures forall i :: 0 <= i < MAX_INPUTS ==> lights[i] == old(lights[i])
    {
      if fired {
        lights[BLINK_LIGHT] := 1.0;
      } else if lights[BLINK_LIGHT] > 0.0 {
        lights[BLINK_LIGHT] := lights[BLINK_LIGHT] - 0.0001;
      }
    }
  }
}
