/** The latency sampler as the mutable object it is: a configuration and one 64-bit counter. */
module LatencyOracles {
  import opened Bits
  import opened Latency

  class ScenarioLatencyOracle {
    const config: Config
    var state: nat

    ghost predicate Valid()
      reads this
    {
      Validate(config).Valid? && IsWord(state)
    }

    constructor (config: Config, seed: int)
      requires Validate(config).Valid?
      ensures Valid() && this.config == config && state == seed % WORD
    {
      this.config, this.state := config, seed % WORD;
    }

    /** Construction with the original's checks: null where it raises. */
    static method Create(config: Config, seed: int) returns (sampler: ScenarioLatencyOracle?, verdict: Validation)
      ensures verdict == Validate(config) && (sampler != null <==> verdict.Valid?)
      ensures sampler != null ==> fresh(sampler) && sampler.Valid()
      ensures sampler != null ==> sampler.config == config && sampler.state == seed % WORD
    {
      verdict := Validate(config);
      if verdict.Invalid? { return null, verdict; }
      sampler := new ScenarioLatencyOracle(config, seed);
    }

    /** Restores a saved counter; anything but a 64-bit word is refused. */
    method SetState(saved: int) returns (ok: bool)
      requires Valid()
      modifies this
      ensures Valid() && (ok <==> IsWord(saved)) && state == if ok then saved else old(state)
    {
      if !(0 <= saved < WORD) { return false; }
      state := saved;
      return true;
    }

    method NextU64() returns (value: nat)
      requires Valid()
      modifies this
      ensures Valid() && state == NextState(old(state)) && value == Mix(state)
    {
      hide Xor, Shr;
      state := (state + 0x9E3779B97F4A7C15) % 0x1_0000_0000_0000_0000;
      value := state;
      value := Xor(value, Shr(value, 30)) * 0xBF58476D1CE4E5B9 % 0x1_0000_0000_0000_0000;
      value := Xor(value, Shr(value, 27)) * 0x94D049BB133111EB % 0x1_0000_0000_0000_0000;
      value := Xor(value, Shr(value, 31)) % 0x1_0000_0000_0000_0000;
    }

    method Draw(component: Component) returns (s: Sample)
      requires Valid()
      modifies this
      ensures Valid() && s == Latency.Draw(config, old(state), component)
      ensures state == match s case Sampled(_, next) => next case UnknownComponent => old(state)
    {
      hide Mix;
      if component.OtherComponent? { return UnknownComponent; }
      if config.mode.Fixed? {
        return Sampled(if component.NewOrder? then config.fixedNew else config.fixedCancel, state);
      }
      if config.mode.StressTail? {
        return Sampled(MaxSample(config.samples) * config.stressPpm / STRESS_SCALE, state);
      }
      var raw := NextU64();
      return Sampled(config.samples[raw % |config.samples|], state);
    }

    /** The latency trace: each draw with the counter it leaves. */
    method DrawAll(components: seq<Component>) returns (stream: Stream)
      requires Valid()
      modifies this
      ensures Valid() && stream == Draws(config, old(state), components)
      ensures stream.Stream? ==> state == stream.state
    {
      hide Mix, Latency.Draw;
      var rows := [];
      for i := 0 to |components|
        invariant Valid() && |rows| == i
        invariant Draws(config, old(state), components) == Prefixed(rows, Draws(config, state, components[i..]))
      {
        var s := Draw(components[i]);
        assert components[i..][0] == components[i] && components[i..][1..] == components[i + 1..];
        if s.UnknownComponent? { return BadComponent; }
        PrefixedOnce(rows, (s.value, state), Draws(config, state, components[i + 1..]));
        rows := rows + [(s.value, state)];
      }
      stream := Stream(rows, state);
    }
  }

  function Prefixed(rows: seq<(int, nat)>, rest: Stream): Stream {
    match rest
    case BadComponent => BadComponent
    case Stream(more, end) => Stream(rows + more, end)
  }

  lemma PrefixedOnce(rows: seq<(int, nat)>, row: (int, nat), rest: Stream)
    ensures Prefixed(rows, Prefixed([row], rest)) == Prefixed(rows + [row], rest)
  {
    if rest.Stream? { assert rows + ([row] + rest.rows) == (rows + [row]) + rest.rows; }
  }
}
