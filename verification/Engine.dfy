/**
 The engine surface of bench/kv_scaling/measure.py.

 An engine is any state type together with any functions for its calls, each of
 which may answer anything or raise.  Nothing is promised about them: a statement
 proved for every `Behaviour` is proved against an engine that may lie.
 */
module Engine {

  datatype Reply<+T> = Answer(value: T) | Raised

  /** What one engine step produced for one request. */
  datatype StepOutput = StepOutput(requestId: string, newTokens: int, finished: bool)

  /** The arguments of `add_request`; the prompt text is opaque to everything modelled here. */
  datatype Request = Request(id: string, promptLen: int, maxTokens: int, ignoreEos: bool)

  datatype Behaviour<!S> = Behaviour(
    totalBlocks: int,
    addRequest: (S, Request) -> (S, Reply<()>),
    numFreeBlocks: S -> (S, Reply<int>),
    step: S -> (S, Reply<seq<StepOutput>>),
    numUnfinished: S -> (S, Reply<int>),
    endSample: S -> (S, Reply<()>))

  /** A live engine: its state changes with every call. */
  class Driver<S> {
    const engine: Behaviour<S>
    var state: S
    ghost var stepCalls: nat
    ghost var endCalls: nat

    constructor (engine: Behaviour<S>, state: S)
      ensures this.engine == engine && this.state == state && stepCalls == 0 && endCalls == 0
    {
      this.engine, this.state := engine, state;
      stepCalls, endCalls := 0, 0;
    }

    method AddRequest(q: Request) returns (r: Reply<()>)
      modifies this`state
      ensures (state, r) == engine.addRequest(old(state), q)
    {
      var p := engine.addRequest(state, q);
      state, r := p.0, p.1;
    }

    method NumFreeBlocks() returns (r: Reply<int>)
      modifies this`state
      ensures (state, r) == engine.numFreeBlocks(old(state))
    {
      var p := engine.numFreeBlocks(state);
      state, r := p.0, p.1;
    }

    method Step() returns (r: Reply<seq<StepOutput>>)
      modifies this`state, this`stepCalls
      ensures (state, r) == engine.step(old(state))
      ensures stepCalls == old(stepCalls) + 1
    {
      var p := engine.step(state);
      state, r := p.0, p.1;
      stepCalls := stepCalls + 1;
    }

    method NumUnfinished() returns (r: Reply<int>)
      modifies this`state
      ensures (state, r) == engine.numUnfinished(old(state))
    {
      var p := engine.numUnfinished(state);
      state, r := p.0, p.1;
    }

    method EndSample() returns (r: Reply<()>)
      modifies this`state, this`endCalls
      ensures (state, r) == engine.endSample(old(state))
      ensures endCalls == old(endCalls) + 1
    {
      var p := engine.endSample(state);
      state, r := p.0, p.1;
      endCalls := endCalls + 1;
    }
  }
}
