/**
 * The short-term memory context handler: a read-only emitter that turns each
 * stored memory, in order, into one user context entry without a position.
 */
module ShortTermMemoryHandler {
  import opened Wrappers
  import opened Values

  /** One `{role: "user", content: memory}` entry per memory, in store order. */
  function MemoryEntries(ms: seq<string>): (r: seq<ContextItem>)
    ensures |r| == |ms|
  {
    if ms == [] then [] else MemoryEntries(ms[..|ms| - 1]) + [ContextItem(None, "user", ms[|ms| - 1])]
  }

  /** Entry i carries memory i, as a user entry with no position. */
  lemma {:induction false} MemoryEntriesAt(ms: seq<string>, i: nat)
    requires i < |ms|
    ensures MemoryEntries(ms)[i] == ContextItem(None, "user", ms[i])
  {
    if i < |ms| - 1 {
      MemoryEntriesAt(ms[..|ms| - 1], i);
    }
  }

  /**
   * The handler's output, given the `memories` field of the agent's
   * MemoryState as getState returns it (`None` when the field is missing).
   * The call arguments `input`, `chatConfig` and `params` are accepted and
   * not consulted.
   */
  function GetContextItems<C, P>(input: string, chatConfig: C, params: P, memories: Option<seq<string>>): (r: seq<ContextItem>)
    ensures memories.None? ==> r == []
    ensures memories.Some? ==> |r| == |memories.value|
  {
    MemoryEntries(if memories.Some? then memories.value else [])
  }

  /** Every entry is the memory at the same position, as a user entry with no position. */
  lemma HandlerEntries<C, P>(input: string, chatConfig: C, params: P, ms: seq<string>)
    ensures |GetContextItems(input, chatConfig, params, Some(ms))| == |ms|
    ensures forall i :: 0 <= i < |ms| ==> GetContextItems(input, chatConfig, params, Some(ms))[i] == ContextItem(None, "user", ms[i])
  {
    forall i | 0 <= i < |ms|
      ensures GetContextItems(input, chatConfig, params, Some(ms))[i] == ContextItem(None, "user", ms[i])
    {
      MemoryEntriesAt(ms, i);
    }
  }

  /** The output depends on the stored memories alone. */
  lemma ArgumentsIgnored<C, P>(input1: string, chatConfig1: C, params1: P, input2: string, chatConfig2: C, params2: P, memories: Option<seq<string>>)
    ensures GetContextItems(input1, chatConfig1, params1, memories) == GetContextItems(input2, chatConfig2, params2, memories)
  {
  }

  /** Emission follows concatenation: memories added later give entries after the earlier ones. */
  lemma {:induction false} EntriesAppend(ms: seq<string>, more: seq<string>)
    ensures MemoryEntries(ms + more) == MemoryEntries(ms) + MemoryEntries(more)
  {
    if more == [] {
      assert ms + more == ms;
    } else {
      var init := more[..|more| - 1];
      EntriesAppend(ms, init);
      assert (ms + more)[..|ms + more| - 1] == ms + init;
    }
  }
}
