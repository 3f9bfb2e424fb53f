/**
 * The memory/add-memory tool: checks its `memory` argument, then appends
 * the raw string to the ephemeral store's memories.
 */
module AddMemoryTool {
  import opened Wrappers
  import opened Values
  import opened EphemeralMemory

  const Name: string := "memory/add-memory"
  const MissingMemory: string := "[" + Name + "] Missing memory parameter for the focus"
  const Added: string := "Memory added"

  /** A missing or empty memory throws before the store is touched. */
  method Execute(memory: Option<string>, svc: EphemeralMemoryService) returns (r: Result<string, string>)
    requires svc.Valid()
    modifies svc
    ensures svc.Valid()
    ensures memory.None? || memory.value == "" ==>
      r == Failure(MissingMemory) && unchanged(svc)
    ensures memory.Some? && memory.value != "" ==>
      && r == Success(Added)
      && svc.memories == old(svc.memories) + [Str(memory.value)]
      && svc.attentionItems == old(svc.attentionItems) && svc.keyOrder == old(svc.keyOrder)
  {
    if memory.None? || memory.value == "" {
      return Failure(MissingMemory);
    }
    svc.AddMemory(Str(memory.value));
    return Success(Added);
  }
}
