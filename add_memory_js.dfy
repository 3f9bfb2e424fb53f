/**
 * The JavaScript revision of the add-memory tool: no guard; it stores a
 * `{role: "system", content}` record whose content interpolates `memory`.
 */
module AddMemoryJsTool {
  import opened Values
  import opened EphemeralMemory

  const Added: string := "Memory added"

  /** The record stored for `memory`. */
  function MemoryRecordFor(memory: Value): Value {
    MemoryRecord("system", "You have a memory:\n " + ToText(memory))
  }

  method Execute(memory: Value, svc: EphemeralMemoryService) returns (r: string)
    requires svc.Valid()
    modifies svc
    ensures svc.Valid()
    ensures r == Added
    ensures svc.memories == old(svc.memories) + [MemoryRecordFor(memory)]
    ensures svc.attentionItems == old(svc.attentionItems) && svc.keyOrder == old(svc.keyOrder)
  {
    svc.AddMemory(MemoryRecordFor(memory));
    return Added;
  }

  /** The stored record is a system record whose content is the fixed prefix and then the memory's text. */
  lemma RecordCarriesMemory(memory: Value)
    ensures MemoryRecordFor(memory).role == "system"
    ensures |MemoryRecordFor(memory).content| == 20 + |ToText(memory)|
    ensures MemoryRecordFor(memory).content[..20] == "You have a memory:\n "
    ensures MemoryRecordFor(memory).content[20..] == ToText(memory)
  {
  }

  /** Distinct string memories give distinct records. */
  lemma RecordInjective(a: string, b: string)
    requires MemoryRecordFor(Str(a)) == MemoryRecordFor(Str(b))
    ensures a == b
  {
    RecordCarriesMemory(Str(a));
    RecordCarriesMemory(Str(b));
  }
}
