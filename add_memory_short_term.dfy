/**
 * The memory/add tool: checks its `memory` argument, then appends it to the
 * agent's MemoryState through ShortTermMemoryService.
 */
module AddShortTermMemoryTool {
  import opened Wrappers
  import opened MemoryStateSlice
  import opened ShortTermMemory

  const Name: string := "memory/add"
  const MissingMemory: string := "[" + Name + "] Missing parameter: memory"
  const Added: string := "Memory added"

  /** A missing or empty memory throws before the state is touched; the slice keeps its array either way. */
  method Execute(memory: Option<string>, service: ShortTermMemoryService, state: MemoryState) returns (r: Result<string, string>)
    modifies state.memories
    ensures memory.None? || memory.value == "" ==>
      r == Failure(MissingMemory) && state.memories.elems == old(state.memories.elems)
    ensures memory.Some? && memory.value != "" ==>
      r == Success(Added) && state.memories.elems == old(state.memories.elems) + [memory.value]
  {
    if memory.None? || memory.value == "" {
      return Failure(MissingMemory);
    }
    service.AddMemory(memory.value, state);
    return Success(Added);
  }
}
