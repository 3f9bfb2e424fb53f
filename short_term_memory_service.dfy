/**
 * ShortTermMemoryService: edits the `memories` of the agent's MemoryState
 * slice and emits them as context entries placed after the prior messages.
 * The agent's state accessors are modelled as direct access to one slice.
 */
module ShortTermMemory {
  import opened Wrappers
  import opened Values
  import opened Arrays
  import opened MemoryStateSlice
  import ShortTermMemoryHandler

  /** The position every entry of this service carries. */
  const AfterPriorMessages: string := "afterPriorMessages"

  class ShortTermMemoryService {
    const name: string := "ShortTermMemoryService"
    const description: string := "Provides Short Term Memory functionality"

    constructor ()
    {
    }

    /** `attach`: installs a slice built from `{}`, so with no memories. */
    method Attach() returns (state: MemoryState)
      ensures fresh(state) && fresh(state.memories)
      ensures state.memories.elems == []
    {
      state := new MemoryState(Snapshot(None));
    }

    /** `state.memories.push(memory)`: in place, so holders of the array see it. */
    method AddMemory(memory: string, state: MemoryState)
      modifies state.memories
      ensures state.memories.elems == old(state.memories.elems) + [memory]
    {
      state.memories.Push(memory);
    }

    /** `state.memories = []`: a new empty array; the previous one keeps its contents. */
    method ClearMemory(state: MemoryState)
      modifies state
      ensures fresh(state.memories) && state.memories.elems == []
      ensures old(state.memories).elems == old(state.memories.elems)
    {
      state.memories := new JsArray([]);
    }

    /** `state.memories.splice(index, count, ...items)` with a numeric count. */
    method SpliceMemory(index: int, count: int, state: MemoryState, items: seq<string>)
      modifies state.memories
      ensures state.memories.elems == Spliced(old(state.memories.elems), index, Number(count), items)
    {
      var _ := state.memories.Splice(index, Number(count), items);
    }

    /** The entries getContextItems yields: one user entry per memory, in store order. */
    method GetContextItems(state: MemoryState) returns (yielded: seq<ContextItem>)
      ensures |yielded| == |state.memories.elems|
      ensures forall i :: 0 <= i < |yielded| ==> yielded[i] == ContextItem(Some(AfterPriorMessages), "user", state.memories.elems[i])
    {
      var ms := state.memories.elems;
      yielded := [];
      for i := 0 to |ms|
        invariant |yielded| == i
        invariant forall j :: 0 <= j < i ==> yielded[j] == ContextItem(Some(AfterPriorMessages), "user", ms[j])
      {
        yielded := yielded + [ContextItem(Some(AfterPriorMessages), "user", ms[i])];
      }
    }
  }

  /**
   * The service and the context handler emit the same entries apart from the
   * position, which only the service sets.
   */
  lemma ServiceAgreesWithHandler<C, P>(yielded: seq<ContextItem>, ms: seq<string>, input: string, chatConfig: C, params: P)
    requires |yielded| == |ms|
    requires forall i :: 0 <= i < |yielded| ==> yielded[i] == ContextItem(Some(AfterPriorMessages), "user", ms[i])
    ensures |ShortTermMemoryHandler.GetContextItems(input, chatConfig, params, Some(ms))| == |yielded|
    ensures forall i :: 0 <= i < |yielded| ==>
      ShortTermMemoryHandler.GetContextItems(input, chatConfig, params, Some(ms))[i] == yielded[i].(position := None)
  {
    ShortTermMemoryHandler.HandlerEntries(input, chatConfig, params, ms);
  }
}
