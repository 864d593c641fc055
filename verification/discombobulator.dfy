/**
 * Discombobulator: eight inputs routed to eight outputs; a gate shuffles which connected
 * input feeds which output, and the inputs that were just moved away fade out of their old
 * outputs.
 */
module Discombobulator {
  import opened Wrappers

  const MAX_INPUTS: nat := 8

  /** An input (or output) number. */
  type InputId = k: nat | k < MAX_INPUTS

  /** The connected inputs, in ascending order. */
  function Usable(connected: seq<bool>): (u: seq<InputId>)
    requires |connected| <= MAX_INPUTS
    ensures forall k :: 0 <= k < |u| ==> u[k] < |connected| && connected[u[k]]
    ensures forall k :: 0 <= k < |connected| && connected[k] ==> k in u
    ensures Ascending(u)
  {
    if connected == [] then []
    else
      var n := |connected| - 1;
      var init := Usable(connected[..n]);
      assert forall k :: 0 <= k < n ==> connected[..n][k] == connected[k];
      init + (if connected[n] then [n] else [])
  }

  /** Scanning one more input appends it when it is connected. */
  lemma UsableStep(connected: seq<bool>, i: nat)
    requires i < |connected| <= MAX_INPUTS
    ensures Usable(connected[..i + 1]) == Usable(connected[..i]) + if connected[i] then [i] else []
  {
    assert connected[..i + 1][..i] == connected[..i];
  }

  /** Strictly ascending input numbers, as `Usable` yields them. */
  predicate Ascending(u: seq<InputId>)
  {
    forall j, k :: 0 <= j < k < |u| ==> u[j] < u[k]
  }

  /**
   * The pick `randomInt(0, n - 1)` from a pool of `n` entries: the draw `draws[n - 1]`, an
   * arbitrary natural number, reduced modulo `n`, so that every entry can be picked.
   */
  function Pick(draws: seq<nat>, n: nat): (d: nat)
    requires 0 < n <= |draws|
    ensures d < n
  {
    draws[n - 1] % n
  }

  /** The pool without its entry `d`, as `erase` leaves it. */
  function Without(pool: seq<InputId>, d: nat): (r: seq<InputId>)
    requires d < |pool|
    ensures |r| == |pool| - 1
  {
    pool[..d] + pool[d + 1..]
  }

  /**
   * Dealing without replacement: the last position takes the picked entry of the pool, which
   * is removed; the positions before it are dealt from what is left.
   */
  function Deal(pool: seq<InputId>, draws: seq<nat>): (r: seq<InputId>)
    requires |pool| <= |draws|
    ensures |r| == |pool|
    decreases |pool|
  {
    if pool == [] then []
    else
      var d := Pick(draws, |pool|);
      Deal(Without(pool, d), draws) + [pool[d]]
  }

  /** The deal is a permutation of the pool. */
  lemma {:induction false} DealPermutes(pool: seq<InputId>, draws: seq<nat>)
    requires |pool| <= |draws|
    ensures multiset(Deal(pool, draws)) == multiset(pool)
    decreases |pool|
  {
    if pool != [] {
      var d := Pick(draws, |pool|);
      DealPermutes(Without(pool, d), draws);
      RemovePermutes(pool, d);
    }
  }

  /** Taking entry `d` out and putting it back gives the same multiset. */
  lemma RemovePermutes(pool: seq<InputId>, d: nat)
    requires d < |pool|
    ensures multiset(Without(pool, d)) + multiset{pool[d]} == multiset(pool)
  {
    assert pool == pool[..d] + [pool[d]] + pool[d + 1..];
  }

  /** The sources `swaps` assigns to the outputs `idx`, in order. */
  function Sources(swaps: seq<InputId>, idx: seq<InputId>): (r: seq<InputId>)
    requires |swaps| == MAX_INPUTS
    ensures |r| == |idx| && forall k :: 0 <= k < |idx| ==> r[k] == swaps[idx[k]]
  {
    seq(|idx|, k requires 0 <= k < |idx| => swaps[idx[k]])
  }

  /** Changing the source of an output outside `idx` leaves the sources of `idx` alone. */
  lemma SourcesElsewhere(swaps: seq<InputId>, idx: seq<InputId>, x: InputId, v: InputId)
    requires |swaps| == MAX_INPUTS && x !in idx
    ensures Sources(swaps[x := v], idx) == Sources(swaps, idx)
  {
  }

  /**
   * One turn of the shuffle keeps the dealing invariant: what is still to be dealt from the
   * pool, followed by the sources already given, is the whole deal `whole`.
   */
  lemma DealTurn(whole: seq<InputId>, usable: seq<InputId>, draws: seq<nat>, pool: seq<InputId>, i: nat,
                 before: seq<InputId>)
    requires i < |usable| && |pool| == i + 1 <= |draws| && |before| == MAX_INPUTS
    requires usable[i] !in usable[i + 1..]
    requires whole == Deal(pool, draws) + Sources(before, usable[i + 1..])
    ensures var d := Pick(draws, i + 1);
      whole == Deal(Without(pool, d), draws) + Sources(before[usable[i] := pool[d]], usable[i..])
  {
    var d := Pick(draws, i + 1);
    var p := pool[d];
    DealUnfold(pool, draws);
    SourcesTurn(usable, i, before, p);
    Regroup(Deal(Without(pool, d), draws), p, Sources(before, usable[i + 1..]));
  }

  lemma Regroup(dealt: seq<InputId>, p: InputId, given: seq<InputId>)
    ensures (dealt + [p]) + given == dealt + ([p] + given)
  {
  }

  lemma DealUnfold(pool: seq<InputId>, draws: seq<nat>)
    requires 0 < |pool| <= |draws|
    ensures var d := Pick(draws, |pool|); Deal(pool, draws) == Deal(Without(pool, d), draws) + [pool[d]]
  {
  }

  lemma SourcesTurn(usable: seq<InputId>, i: nat, before: seq<InputId>, v: InputId)
    requires i < |usable| && usable[i] !in usable[i + 1..] && |before| == MAX_INPUTS
    ensures Sources(before[usable[i] := v], usable[i..]) == [v] + Sources(before, usable[i + 1..])
  {
    SourcesElsewhere(before, usable[i + 1..], usable[i], v);
  }

  /** The inputs from `i` on are input `u[i]` followed by those after it, which do not repeat it. */
  lemma Unslice(u: seq<InputId>, i: nat)
    requires Ascending(u) && i < |u|
    ensures u[i..] == [u[i]] + u[i + 1..] && u[i] !in u[i + 1..]
    ensures forall a :: a in u[i..] <==> a == u[i] || a in u[i + 1..]
  {
    assert u[i..] == [u[i]] + u[i + 1..];
  }

  /** No entry of `s` occurs twice. */
  predicate Distinct(s: seq<InputId>)
  {
    forall j, k :: 0 <= j < k < |s| ==> s[j] != s[k]
  }

  /**
   * Dealt from distinct inputs, no two positions get the same input: with `DealPermutes`, the
   * usable outputs after a shuffle read the usable inputs, each exactly once.
   */
  lemma {:induction false} DealDistinct(pool: seq<InputId>, draws: seq<nat>)
    requires |pool| <= |draws| && Distinct(pool)
    ensures Distinct(Deal(pool, draws))
    decreases |pool|
  {
    if pool != [] {
      var d := Pick(draws, |pool|);
      var rest := Without(pool, d);
      RemoveDistinct(pool, d);
      DealDistinct(rest, draws);
      DealPermutes(rest, draws);
      var r := Deal(rest, draws);
      assert pool[d] !in multiset(r);
      DistinctAppend(r, pool[d]);
    }
  }

  lemma DistinctAppend(r: seq<InputId>, p: InputId)
    requires Distinct(r) && p !in multiset(r)
    ensures Distinct(r + [p])
  {
    assert forall j :: 0 <= j < |r| ==> r[j] in multiset(r);
  }

  /** Taking entry `d` out of distinct entries leaves distinct entries, none of them the one taken. */
  lemma RemoveDistinct(pool: seq<InputId>, d: nat)
    requires d < |pool| && Distinct(pool)
    ensures Distinct(Without(pool, d))
    ensures pool[d] !in multiset(Without(pool, d))
  {
    var rest := Without(pool, d);
    assert forall k :: 0 <= k < |rest| ==> rest[k] == if k < d then pool[k] else pool[k + 1];
    assert pool[d] !in rest;
  }

  /** With every fade at 0, no other input bleeds into an output. */
  lemma {:induction false} NoFadeNoBleed(i: nat, voltages: seq<real>, row: seq<real>, n: nat)
    requires n <= |voltages| && n <= |row|
    requires forall k :: 0 <= k < n ==> row[k] == 0.0
    ensures OthersSum(i, voltages, row, n) == 0.0
  {
    if n > 0 {
      NoFadeNoBleed(i, voltages, row, n - 1);
    }
  }

  /** One step of a fade: a fraction `dt` of the level is lost, and the level never goes below 0. */
  function Decay(f: real, dt: real): (r: real)
    ensures r >= 0.0
    ensures f >= 0.0 && 0.0 <= dt <= 1.0 ==> r <= f
    ensures f >= 0.0 && dt <= 1.0 ==> r == f - f * dt
  {
    var v := f - f * dt;
    assert f >= 0.0 && dt >= 0.0 ==> f * dt >= 0.0;
    if v < 0.0 then 0.0 else v
  }

  /** The inputs other than `i` among the first `n`, weighted by `row` (row `i` of the fades). */
  function OthersSum(i: nat, voltages: seq<real>, row: seq<real>, n: nat): real
    requires n <= |voltages| && n <= |row|
  {
    if n == 0 then 0.0
    else OthersSum(i, voltages, row, n - 1) + (if n - 1 != i then voltages[n - 1] * row[n - 1] else 0.0)
  }

  /** `OthersSum` over the first `n` entries reads nothing beyond them. */
  lemma {:induction false} OthersSumPrefix(i: nat, voltages: seq<real>, r1: seq<real>, r2: seq<real>, n: nat)
    requires n <= |voltages| && n <= |r1| && n <= |r2|
    requires forall k :: 0 <= k < n ==> r1[k] == r2[k]
    ensures OthersSum(i, voltages, r1, n) == OthersSum(i, voltages, r2, n)
  {
    if n > 0 {
      OthersSumPrefix(i, voltages, r1, r2, n - 1);
    }
  }

  /** Row `i` of the fades. */
  function Row(f: array2<real>, i: nat): (r: seq<real>)
    requires f.Length0 == MAX_INPUTS && f.Length1 == MAX_INPUTS && i < MAX_INPUTS
    reads f
    ensures |r| == MAX_INPUTS && forall b :: 0 <= b < MAX_INPUTS ==> r[b] == f[i, b]
  {
    seq(MAX_INPUTS, b requires 0 <= b < MAX_INPUTS reads f => f[i, b])
  }

  /**
   * The routing `s1` after the routing `s0` on a sample: when the gate fired, the usable outputs
   * read the deal of the usable inputs, in order; every other output keeps its source.
   */
  predicate Reshuffled(s0: seq<InputId>, s1: seq<InputId>, usable: seq<InputId>, draws: seq<nat>, fired: bool)
    requires |usable| <= |draws|
  {
    |s0| == MAX_INPUTS && |s1| == MAX_INPUTS &&
    (fired ==> Sources(s1, usable) == Deal(usable, draws)) &&
    forall k :: 0 <= k < MAX_INPUTS && (!fired || k !in usable) ==> s1[k] == s0[k]
  }

  /** An 8-by-8 grid of fades, output by input. */
  predicate IsGrid(g: seq<seq<real>>)
  {
    |g| == MAX_INPUTS && forall a :: 0 <= a < MAX_INPUTS ==> |g[a]| == MAX_INPUTS
  }

  /** The fades after a shuffle on the usable inputs: each is fully fading on its old source. */
  function Marked(g: seq<seq<real>>, swaps: seq<InputId>, usable: seq<InputId>, fired: bool): (r: seq<seq<real>>)
    requires IsGrid(g) && |swaps| == MAX_INPUTS
    ensures IsGrid(r)
    ensures forall a, b :: 0 <= a < MAX_INPUTS && 0 <= b < MAX_INPUTS ==>
      r[a][b] == if fired && a in usable && b == swaps[a] then 1.0 else g[a][b]
  {
    seq(MAX_INPUTS, a requires 0 <= a < MAX_INPUTS =>
      seq(MAX_INPUTS, b requires 0 <= b < MAX_INPUTS => if fired && a in usable && b == swaps[a] then 1.0 else g[a][b]))
  }

  /** The fades after one sample: every fade of another input decays by `dt`. */
  function Decayed(g: seq<seq<real>>, dt: real): (r: seq<seq<real>>)
    requires IsGrid(g)
    ensures IsGrid(r)
    ensures forall a, b :: 0 <= a < MAX_INPUTS && 0 <= b < MAX_INPUTS ==>
      r[a][b] == if b != a then Decay(g[a][b], dt) else g[a][b]
  {
    seq(MAX_INPUTS, a requires 0 <= a < MAX_INPUTS =>
      seq(MAX_INPUTS, b requires 0 <= b < MAX_INPUTS => if b != a then Decay(g[a][b], dt) else g[a][b]))
  }

  /** The output voltages: each output's source plus the other inputs weighted by their fades. */
  function Outputs(voltages: seq<real>, swaps: seq<InputId>, g: seq<seq<real>>, fadeAmnt: real): (o: seq<real>)
    requires |voltages| == MAX_INPUTS && |swaps| == MAX_INPUTS && IsGrid(g)
    ensures |o| == MAX_INPUTS
  {
    seq(MAX_INPUTS, i requires 0 <= i < MAX_INPUTS => voltages[swaps[i]] + OthersSum(i, voltages, g[i], MAX_INPUTS) * fadeAmnt)
  }

  /** The blink light after one sample: lit by the gate, otherwise dimming by 0.0001 while above 0. */
  function Blinked(blink: real, fired: bool): real
  {
    if fired then 1.0 else if blink > 0.0 then blink - 0.0001 else blink
  }

  /**
   * After a fired shuffle the usable outputs read the usable inputs, each exactly once: the
   * sources of the usable outputs are a permutation of the usable inputs, with no repeats.
   */
  lemma ShuffleIsPermutation(s0: seq<InputId>, s1: seq<InputId>, usable: seq<InputId>, draws: seq<nat>)
    requires Ascending(usable) && |usable| <= |draws| && Reshuffled(s0, s1, usable, draws, true)
    ensures multiset(Sources(s1, usable)) == multiset(usable)
    ensures Distinct(Sources(s1, usable))
  {
    DealPermutes(usable, draws);
    DealDistinct(usable, draws);
  }

  /** With no fade left anywhere, every output carries exactly the input routed to it. */
  lemma SettledOutputs(voltages: seq<real>, swaps: seq<InputId>, g: seq<seq<real>>, fadeAmnt: real)
    requires |voltages| == MAX_INPUTS && |swaps| == MAX_INPUTS && IsGrid(g)
    requires forall a, b :: 0 <= a < MAX_INPUTS && 0 <= b < MAX_INPUTS ==> g[a][b] == 0.0
    ensures forall i :: 0 <= i < MAX_INPUTS ==> Outputs(voltages, swaps, g, fadeAmnt)[i] == voltages[swaps[i]]
  {
    forall i | 0 <= i < MAX_INPUTS
      ensures Outputs(voltages, swaps, g, fadeAmnt)[i] == voltages[swaps[i]]
    {
      NoFadeNoBleed(i, voltages, g[i], MAX_INPUTS);
    }
  }

  /** Every cell of the grid lies in [0, 1]. */
  predicate InUnit(g: seq<seq<real>>)
    requires IsGrid(g)
  {
    forall a, b :: 0 <= a < MAX_INPUTS && 0 <= b < MAX_INPUTS ==> 0.0 <= g[a][b] <= 1.0
  }

  /** A sample with a sample time in [0, 1] keeps every fade in [0, 1]. */
  lemma FadesStayInUnit(g: seq<seq<real>>, swaps: seq<InputId>, usable: seq<InputId>, fired: bool, dt: real)
    requires IsGrid(g) && |swaps| == MAX_INPUTS && InUnit(g) && 0.0 <= dt <= 1.0
    ensures InUnit(Decayed(Marked(g, swaps, usable, fired), dt))
  {
    var m := Marked(g, swaps, usable, fired);
    assert InUnit(m);
    var r := Decayed(m, dt);
    forall a, b | 0 <= a < MAX_INPUTS && 0 <= b < MAX_INPUTS
      ensures 0.0 <= r[a][b] <= 1.0
    {
      assert 0.0 <= m[a][b] <= 1.0;
    }
  }

  class Discombobulator {
    /** The input each output reads. */
    var outputSwaps: array<InputId>
    /** `fadingInputs[i, x]`: how much of input `x` still sounds on output `i`. */
    var fadingInputs: array2<real>
    var blink: real

    ghost predicate Valid()
      reads this`outputSwaps, this`fadingInputs, outputSwaps, fadingInputs
    {
      outputSwaps.Length == MAX_INPUTS &&
      fadingInputs.Length0 == MAX_INPUTS && fadingInputs.Length1 == MAX_INPUTS &&
      (forall a, b :: 0 <= a < MAX_INPUTS && 0 <= b < MAX_INPUTS ==> fadingInputs[a, b] >= 0.0)
    }

    /** Every output starts on its own input, with nothing fading. */
    constructor ()
      ensures Valid() && fresh(outputSwaps) && fresh(fadingInputs)
      ensures forall k :: 0 <= k < MAX_INPUTS ==> outputSwaps[k] == k
      ensures forall a, b :: 0 <= a < MAX_INPUTS && 0 <= b < MAX_INPUTS ==> fadingInputs[a, b] == 0.0
      ensures blink == 0.0
    {
      var swaps := new InputId[MAX_INPUTS];
      var i := 0;
      while i < MAX_INPUTS
        invariant 0 <= i <= MAX_INPUTS
        invariant forall k :: 0 <= k < i ==> swaps[k] == k
      {
        swaps[i] := i;
        i := i + 1;
      }
      outputSwaps := swaps;
      fadingInputs := new real[MAX_INPUTS, MAX_INPUTS]((a, b) => 0.0);
      blink := 0.0;
    }

    /** The scan for connected inputs. */
    static method ScanUsable(connected: seq<bool>) returns (usable: seq<InputId>)
      requires |connected| <= MAX_INPUTS
      ensures usable == Usable(connected)
    {
      usable := [];
      var i := 0;
      while i < |connected|
        invariant 0 <= i <= |connected|
        invariant usable == Usable(connected[..i])
      {
        UsableStep(connected, i);
        if connected[i] {
          usable := usable + [i];
        }
        i := i + 1;
      }
      assert connected[..i] == connected;
    }

    /** The fades as a grid of values. */
    ghost function Fades(): (g: seq<seq<real>>)
      requires Valid()
      reads this`outputSwaps, this`fadingInputs, outputSwaps, fadingInputs
      ensures IsGrid(g) && forall a :: 0 <= a < MAX_INPUTS ==> g[a] == Row(fadingInputs, a)
      ensures forall a, b :: 0 <= a < MAX_INPUTS && 0 <= b < MAX_INPUTS ==> g[a][b] == fadingInputs[a, b]
    {
      var f := fadingInputs;
      seq(MAX_INPUTS, a requires 0 <= a < MAX_INPUTS reads f => Row(f, a))
    }

    /** The fades are the grid `g` when they agree with it cell by cell. */
    lemma FadesAre(g: seq<seq<real>>)
      requires Valid() && IsGrid(g)
      requires forall a, b :: 0 <= a < MAX_INPUTS && 0 <= b < MAX_INPUTS ==> g[a][b] == fadingInputs[a, b]
      ensures Fades() == g
    {
      var f := Fades();
      forall a | 0 <= a < MAX_INPUTS
        ensures f[a] == g[a]
      {
        assert forall b :: 0 <= b < MAX_INPUTS ==> f[a][b] == g[a][b];
      }
    }

    /**
     * The shuffle has given the usable inputs from `i` on their sources, starting from sources
     * `swaps0` and fades `fades0`, and `pool` is what is left to deal from.
     */
    ghost predicate DealtFrom(i: nat, usable: seq<InputId>, draws: seq<nat>, pool: seq<InputId>,
                              swaps0: seq<InputId>, fades0: seq<seq<real>>)
      reads this`outputSwaps, this`fadingInputs, outputSwaps, fadingInputs
    {
      Valid() && Ascending(usable) && |usable| <= |draws| && i <= |usable| && |pool| == i &&
      |swaps0| == MAX_INPUTS && |fades0| == MAX_INPUTS &&
      (forall a :: 0 <= a < MAX_INPUTS ==> |fades0[a]| == MAX_INPUTS) &&
      Deal(usable, draws) == Deal(pool, draws) + Sources(outputSwaps[..], usable[i..]) &&
      (forall k :: 0 <= k < MAX_INPUTS && k !in usable[i..] ==> outputSwaps[k] == swaps0[k]) &&
      (forall a, b :: 0 <= a < MAX_INPUTS && 0 <= b < MAX_INPUTS ==>
        fadingInputs[a, b] == if a in usable[i..] && b == swaps0[a] then 1.0 else fades0[a][b])
    }

    /**
     * The shuffle: walking the usable inputs from the last to the first, each is marked as
     * fully fading on its old source and then given a source dealt from the pool of usable
     * inputs without replacement.
     */
    method Shuffle(usable: seq<InputId>, draws: seq<nat>)
      requires Valid() && Ascending(usable) && |usable| <= |draws|
      modifies outputSwaps, fadingInputs
      ensures Valid()
      ensures Sources(outputSwaps[..], usable) == Deal(usable, draws)
      ensures forall k :: 0 <= k < MAX_INPUTS && k !in usable ==> outputSwaps[k] == old(outputSwaps[k])
      ensures forall a, b :: 0 <= a < MAX_INPUTS && 0 <= b < MAX_INPUTS ==>
        fadingInputs[a, b] == if a in usable && b == old(outputSwaps[a]) then 1.0 else old(fadingInputs[a, b])
    {
      ghost var swaps0 := outputSwaps[..];
      ghost var fades0 := Fades();
      var pool := usable;
      var i: nat := |usable|;
      DealtNone(usable, draws);
      while i > 0
        invariant DealtFrom(i, usable, draws, pool, swaps0, fades0)
      {
        pool := DealOne(i - 1, usable, draws, pool, swaps0, fades0);
        i := i - 1;
      }
      DealtAll(usable, draws, pool, swaps0, fades0);
    }

    /** Before the first turn nothing has been dealt and the pool holds every usable input. */
    lemma DealtNone(usable: seq<InputId>, draws: seq<nat>)
      requires Valid() && Ascending(usable) && |usable| <= |draws|
      ensures DealtFrom(|usable|, usable, draws, usable, outputSwaps[..], Fades())
    {
      assert Sources(outputSwaps[..], usable[|usable|..]) == [];
    }

    /** Once every usable input has been dealt a source, the whole deal is in place. */
    lemma DealtAll(usable: seq<InputId>, draws: seq<nat>, pool: seq<InputId>, swaps0: seq<InputId>,
                   fades0: seq<seq<real>>)
      requires DealtFrom(0, usable, draws, pool, swaps0, fades0)
      ensures Valid()
      ensures Sources(outputSwaps[..], usable) == Deal(usable, draws)
      ensures forall k :: 0 <= k < MAX_INPUTS && k !in usable ==> outputSwaps[k] == swaps0[k]
      ensures forall a, b :: 0 <= a < MAX_INPUTS && 0 <= b < MAX_INPUTS ==>
        fadingInputs[a, b] == if a in usable && b == swaps0[a] then 1.0 else fades0[a][b]
    {
      assert usable[0..] == usable;
    }

    /** One turn of the shuffle, for the usable input `usable[i]`. */
    method DealOne(i: nat, usable: seq<InputId>, draws: seq<nat>, pool: seq<InputId>,
                   ghost swaps0: seq<InputId>, ghost fades0: seq<seq<real>>) returns (rest: seq<InputId>)
      requires DealtFrom(i + 1, usable, draws, pool, swaps0, fades0)
      modifies outputSwaps, fadingInputs
      ensures DealtFrom(i, usable, draws, rest, swaps0, fades0)
    {
      var d := Pick(draws, i + 1);
      Unslice(usable, i);
      ghost var before := outputSwaps[..];
      Reassign(usable[i], pool[d]);
      rest := Without(pool, d);
      DealTurn(Deal(usable, draws), usable, draws, pool, i, before);
    }

    /** Input `x` is marked as fading on its old source and takes `source`. */
    method Reassign(x: InputId, source: InputId)
      requires Valid()
      modifies outputSwaps, fadingInputs
      ensures Valid()
      ensures outputSwaps[..] == old(outputSwaps[..])[x := source]
      ensures forall a, b :: 0 <= a < MAX_INPUTS && 0 <= b < MAX_INPUTS ==>
        fadingInputs[a, b] == if a == x && b == old(outputSwaps[x]) then 1.0 else old(fadingInputs[a, b])
    {
      fadingInputs[x, outputSwaps[x]] := 1.0;
      outputSwaps[x] := source;
    }

    /**
     * Output `i`'s fades of inputs below `x` have decayed by `dt` from `fades0`, nothing else
     * has changed, and `cumulated` holds those inputs weighted by their fades.
     */
    ghost predicate DecayedTo(i: nat, x: nat, voltages: seq<real>, dt: real, cumulated: real, fades0: seq<seq<real>>)
      reads this`outputSwaps, this`fadingInputs, outputSwaps, fadingInputs
    {
      Valid() && i < MAX_INPUTS && x <= MAX_INPUTS && |voltages| == MAX_INPUTS &&
      |fades0| == MAX_INPUTS && (forall a :: 0 <= a < MAX_INPUTS ==> |fades0[a]| == MAX_INPUTS) &&
      (forall a, b :: 0 <= a < MAX_INPUTS && 0 <= b < MAX_INPUTS ==>
        fadingInputs[a, b] == if a == i && b != i && b < x then Decay(fades0[a][b], dt) else fades0[a][b]) &&
      cumulated == OthersSum(i, voltages, Row(fadingInputs, i), x)
    }

    /**
     * The fade bookkeeping for output `i`: every other input's fade loses a fraction
     * `dt`, and the result is the other inputs weighted by their fades.
     */
    method DecayRow(i: nat, voltages: seq<real>, dt: real) returns (cumulated: real)
      requires Valid() && i < MAX_INPUTS && |voltages| == MAX_INPUTS
      modifies fadingInputs
      ensures Valid()
      ensures forall a, b :: 0 <= a < MAX_INPUTS && 0 <= b < MAX_INPUTS ==>
        fadingInputs[a, b] == if a == i && b != i then Decay(old(fadingInputs[a, b]), dt) else old(fadingInputs[a, b])
      ensures cumulated == OthersSum(i, voltages, Row(fadingInputs, i), MAX_INPUTS)
    {
      ghost var fades0 := Fades();
      cumulated := 0.0;
      var x: nat := 0;
      while x < MAX_INPUTS
        invariant DecayedTo(i, x, voltages, dt, cumulated, fades0)
      {
        cumulated := DecayCell(i, x, voltages, dt, cumulated, fades0);
        x := x + 1;
      }
    }

    /** The fade of input `x` on output `i` decays, and what is left of it is added to `cumulated`. */
    method DecayCell(i: nat, x: nat, voltages: seq<real>, dt: real, cumulated: real, ghost fades0: seq<seq<real>>)
      returns (c: real)
      requires x < MAX_INPUTS && DecayedTo(i, x, voltages, dt, cumulated, fades0)
      modifies fadingInputs
      ensures DecayedTo(i, x + 1, voltages, dt, c, fades0)
    {
      ghost var before := Row(fadingInputs, i);
      c := cumulated;
      if x != i {
        fadingInputs[i, x] := Decay(fadingInputs[i, x], dt);
        c := c + voltages[x] * fadingInputs[i, x];
      }
      OthersSumPrefix(i, voltages, before, Row(fadingInputs, i), x);
    }

    /** The fade bookkeeping for all outputs, output by output. */
    method DecayAll(voltages: seq<real>, dt: real) returns (cumulated: seq<real>)
      requires Valid() && |voltages| == MAX_INPUTS
      modifies fadingInputs
      ensures Valid() && |cumulated| == MAX_INPUTS
      ensures forall a, b :: 0 <= a < MAX_INPUTS && 0 <= b < MAX_INPUTS ==>
        fadingInputs[a, b] == if b != a then Decay(old(fadingInputs[a, b]), dt) else old(fadingInputs[a, b])
      ensures forall i :: 0 <= i < MAX_INPUTS ==> cumulated[i] == OthersSum(i, voltages, Fades()[i], MAX_INPUTS)
      ensures Fades() == Decayed(old(Fades()), dt)
    {
      ghost var g0 := Fades();
      cumulated := [];
      var i := 0;
      while i < MAX_INPUTS
        invariant 0 <= i <= MAX_INPUTS && |cumulated| == i && Valid()
        invariant forall a, b :: 0 <= a < MAX_INPUTS && 0 <= b < MAX_INPUTS ==>
          fadingInputs[a, b] == if b != a && a < i then Decay(old(fadingInputs[a, b]), dt) else old(fadingInputs[a, b])
        invariant forall k :: 0 <= k < i ==> cumulated[k] == OthersSum(k, voltages, Row(fadingInputs, k), MAX_INPUTS)
      {
        ghost var f := fadingInputs;
        ghost var rows := seq(i, k requires 0 <= k < i reads f => Row(f, k));
        var c := DecayRow(i, voltages, dt);
        assert forall k :: 0 <= k < i ==> Row(fadingInputs, k) == rows[k];
        cumulated := cumulated + [c];
        i := i + 1;
      }
      FadesAre(Decayed(g0, dt));
    }

    /** One sample with the connected inputs `usable`, at least one of them. */
    method Sample(usable: seq<InputId>, voltages: seq<real>, fadeAmnt: real, fired: bool,
                  draws: seq<nat>, sampleTime: real) returns (o: seq<real>)
      requires Valid() && Ascending(usable) && |voltages| == MAX_INPUTS && |usable| <= |draws|
      modifies this`blink, outputSwaps, fadingInputs
      ensures Valid()
      ensures Reshuffled(old(outputSwaps[..]), outputSwaps[..], usable, draws, fired)
      ensures Fades() == Decayed(Marked(old(Fades()), old(outputSwaps[..]), usable, fired), sampleTime)
      ensures o == Outputs(voltages, outputSwaps[..], Fades(), fadeAmnt)
      ensures blink == Blinked(old(blink), fired)
    {
      // The blink light depends on nothing else, so it is updated first here.
      Blink(fired);
      ShuffleOnGate(usable, draws, fired);
      var cumulated := DecayAll(voltages, sampleTime);
      o := Mix(voltages, cumulated, fadeAmnt);
    }

    /** The shuffle, when the gate fired. */
    method ShuffleOnGate(usable: seq<InputId>, draws: seq<nat>, fired: bool)
      requires Valid() && Ascending(usable) && |usable| <= |draws|
      modifies outputSwaps, fadingInputs
      ensures Valid()
      ensures Reshuffled(old(outputSwaps[..]), outputSwaps[..], usable, draws, fired)
      ensures Fades() == Marked(old(Fades()), old(outputSwaps[..]), usable, fired)
    {
      ghost var g0 := Fades();
      ghost var s0 := outputSwaps[..];
      if fired {
        Shuffle(usable, draws);
      }
      FadesAre(Marked(g0, s0, usable, fired));
    }

    /** The blink light: lit by the gate, otherwise dimming by 0.0001 per sample while above 0. */
    method Blink(fired: bool)
      modifies this`blink
      ensures blink == Blinked(old(blink), fired)
    {
      if fired {
        blink := 1.0;
      } else if blink > 0.0 {
        blink := blink - 0.0001;
      }
    }

    /** The outputs: each output's source plus what still fades on it, scaled by `fadeAmnt`. */
    method Mix(voltages: seq<real>, cumulated: seq<real>, fadeAmnt: real) returns (o: seq<real>)
      requires Valid() && |voltages| == MAX_INPUTS && |cumulated| == MAX_INPUTS
      requires forall i :: 0 <= i < MAX_INPUTS ==> cumulated[i] == OthersSum(i, voltages, Fades()[i], MAX_INPUTS)
      ensures o == Outputs(voltages, outputSwaps[..], Fades(), fadeAmnt)
    {
      o := [];
      var i := 0;
      while i < MAX_INPUTS
        invariant 0 <= i <= MAX_INPUTS && |o| == i
        invariant forall k :: 0 <= k < i ==> o[k] == voltages[outputSwaps[k]] + cumulated[k] * fadeAmnt
      {
        o := o + [voltages[outputSwaps[i]] + cumulated[i] * fadeAmnt];
        i := i + 1;
      }
      assert forall k :: 0 <= k < MAX_INPUTS ==> o[k] == Outputs(voltages, outputSwaps[..], Fades(), fadeAmnt)[k];
    }

    /**
     * One sample: nothing happens without a connected input; otherwise a fired gate shuffles
     * the sources of the connected outputs (with `draws` standing for the random picks), every
     * fade decays by the sample time, each output carries its source plus the fading inputs
     * scaled by `fadeAmnt`, and the blink light is lit by the gate and dims slowly otherwise.
     */
    method Process(connected: seq<bool>, voltages: seq<real>, fadeAmnt: real, fired: bool,
                   draws: seq<nat>, sampleTime: real) returns (outs: Option<seq<real>>)
      requires Valid() && |connected| == MAX_INPUTS && |voltages| == MAX_INPUTS
      requires |Usable(connected)| <= |draws|
      modifies this`blink, outputSwaps, fadingInputs
      ensures Valid()
      ensures Usable(connected) == [] ==>
        outs == None && blink == old(blink) && outputSwaps[..] == old(outputSwaps[..]) && Fades() == old(Fades())
      ensures Usable(connected) != [] ==> Reshuffled(old(outputSwaps[..]), outputSwaps[..], Usable(connected), draws, fired)
      ensures Usable(connected) != [] ==>
        Fades() == Decayed(Marked(old(Fades()), old(outputSwaps[..]), Usable(connected), fired), sampleTime)
      ensures Usable(connected) != [] ==> outs == Some(Outputs(voltages, outputSwaps[..], Fades(), fadeAmnt))
      ensures Usable(connected) != [] ==> blink == Blinked(old(blink), fired)
    {
      var usable := ScanUsable(connected);
      if usable == [] {
        return None;
      }
      var o := Sample(usable, voltages, fadeAmnt, fired, draws, sampleTime);
      outs := Some(o);
    }
  }
}
