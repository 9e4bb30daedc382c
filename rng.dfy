/**
 * RandomGen: one lazily created generator per thread, seeded from a shared
 * global generator. One thread is modelled. System.Random's algorithm is not
 * modelled. A generator is a seed and the number of values it has given,
 * and its raw stream is a given function of the two.
 */
module Rng {
  import opened Wrappers

  /** Int32.MaxValue: Random.Next() returns a value below it. */
  const IntMax: int := 0x7FFF_FFFF

  /** A System.Random instance: its seed and how many values it has produced. */
  datatype RandomState = RandomState(seed: int, drawn: nat)

  class RandomGen {
    /** raw(seed, k): the k-th raw value of a generator created with seed. */
    const raw: (int, nat) -> nat
    /** _global, the generator that seeds each thread's own. */
    var global: RandomState
    /** _local, this thread's generator; None until first used. */
    var local: Option<RandomState>

    constructor (raw: (int, nat) -> nat, clockSeed: int)
      ensures this.raw == raw && global == RandomState(clockSeed, 0) && local.None?
    {
      this.raw, global, local := raw, RandomState(clockSeed, 0), None;
    }

    /** How many values this thread's generator has given; none before it is created. */
    function LocalDrawn(): nat
      reads this
    {
      if local.Some? then local.value.drawn else 0
    }

    /** The global generator after one more draw that may create this thread's generator. */
    function GlobalAfterDraw(): RandomState
      reads this
    {
      if local.None? then global.(drawn := global.drawn + 1) else global
    }

    /** The value Random.Next(minValue, maxValue) gives from state g. */
    function Sample(g: RandomState, minValue: int, maxValue: int): (v: int)
      requires minValue <= maxValue
      ensures minValue == maxValue ==> v == minValue
      ensures minValue < maxValue ==> minValue <= v < maxValue
    {
      if minValue == maxValue then minValue
      else minValue + raw(g.seed, g.drawn) % (maxValue - minValue)
    }

    /** RandomGen.Next(minValue, maxValue). Random.Next throws when minValue > maxValue. */
    method Next(minValue: int, maxValue: int) returns (v: int)
      requires minValue <= maxValue
      modifies this
      ensures minValue == maxValue ==> v == minValue
      ensures minValue < maxValue ==> minValue <= v < maxValue
      ensures old(local).None? ==>
        global == old(global).(drawn := old(global).drawn + 1) &&
        local == Some(RandomState(Sample(old(global), minValue, maxValue), 1)) &&
        v == Sample(RandomState(Sample(old(global), minValue, maxValue), 0), minValue, maxValue)
      ensures old(local).Some? ==>
        global == old(global) &&
        local == Some(old(local).value.(drawn := old(local).value.drawn + 1)) &&
        v == Sample(old(local).value, minValue, maxValue)
    {
      var inst: RandomState;
      if local.None? {
        var seed := Sample(global, minValue, maxValue);
        global := global.(drawn := global.drawn + 1);
        inst := RandomState(seed, 0);
      } else {
        inst := local.value;
      }
      v := Sample(inst, minValue, maxValue);
      local := Some(inst.(drawn := inst.drawn + 1));
    }

    /** RandomGen.Next(): a value in [0, Int32.MaxValue), with the same lazy creation. */
    method NextAny() returns (v: int)
      modifies this
      ensures 0 <= v < IntMax
      ensures old(local).None? ==>
        global == old(global).(drawn := old(global).drawn + 1) &&
        local == Some(RandomState(raw(old(global).seed, old(global).drawn) % IntMax, 1))
      ensures old(local).Some? ==>
        global == old(global) && local == Some(old(local).value.(drawn := old(local).value.drawn + 1))
    {
      var inst: RandomState;
      if local.None? {
        var seed := raw(global.seed, global.drawn) % IntMax;
        global := global.(drawn := global.drawn + 1);
        inst := RandomState(seed, 0);
      } else {
        inst := local.value;
      }
      v := raw(inst.seed, inst.drawn) % IntMax;
      local := Some(inst.(drawn := inst.drawn + 1));
    }
  }
}
