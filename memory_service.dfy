/**
 * The abstract MemoryService base: it fixes the operation set of a memory
 * service, and every one of its operations throws when called on the base
 * itself. A thrown error is modelled as a `Failure` carrying its message;
 * `filename` stands for the module's own file path, known only at run time.
 */
module MemoryServiceBase {
  import opened Wrappers
  import opened Values

  const Name: string := "MemoryService"
  const Description: string := "Provides Memory functionality"

  /** The message every base operation throws with. */
  function AbstractMessage(filename: string): string {
    "The " + filename + " class is abstract and cannot be used directly. Please use a subclass instead."
  }

  /** The operations a memory service offers. */
  datatype Operation =
    | AddMemory | PushAttentionItem | UnshiftAttentionItem | ClearMemory | ClearAttentionItems
    | SpliceMemory | SpliceAttentionItems | GetMemories | GetAttentionItems

  /** Those the base declares. */
  const BaseOperations: set<Operation> :=
    {AddMemory, PushAttentionItem, ClearMemory, ClearAttentionItems, SpliceMemory, SpliceAttentionItems, GetMemories, GetAttentionItems}

  /** Those EphemeralMemoryService offers. */
  const StoreOperations: set<Operation> := BaseOperations + {UnshiftAttentionItem}

  /** The ephemeral store adds exactly `unshiftAttentionItem` to the base. */
  lemma StoreAddsOnlyUnshift()
    ensures UnshiftAttentionItem !in BaseOperations
    ensures BaseOperations < StoreOperations
    ensures StoreOperations - BaseOperations == {UnshiftAttentionItem}
  {
  }

  /** What calling `op` on the base gives, whatever its arguments: the abstract-class error. */
  function Call(op: Operation, filename: string): (r: Result<(), string>)
    requires op in BaseOperations
    ensures r.Failure? && r.error == AbstractMessage(filename)
  {
    Failure(AbstractMessage(filename))
  }

  function BaseAddMemory(filename: string, memory: Value): (r: Result<(), string>)
    ensures r == Call(AddMemory, filename)
  {
    Failure(AbstractMessage(filename))
  }

  function BasePushAttentionItem(filename: string, category: string, item: Value): (r: Result<(), string>)
    ensures r == Call(PushAttentionItem, filename)
  {
    Failure(AbstractMessage(filename))
  }

  function BaseClearMemory(filename: string): (r: Result<(), string>)
    ensures r == Call(ClearMemory, filename)
  {
    Failure(AbstractMessage(filename))
  }

  /** The category argument is optional here. */
  function BaseClearAttentionItems(filename: string, category: Option<string>): (r: Result<(), string>)
    ensures r == Call(ClearAttentionItems, filename)
  {
    Failure(AbstractMessage(filename))
  }

  function BaseSpliceMemory(filename: string, index: int, count: Option<int>, items: seq<Value>): (r: Result<(), string>)
    ensures r == Call(SpliceMemory, filename)
  {
    Failure(AbstractMessage(filename))
  }

  function BaseSpliceAttentionItems(filename: string, category: string, index: int, count: Option<int>, items: seq<Value>): (r: Result<(), string>)
    ensures r == Call(SpliceAttentionItems, filename)
  {
    Failure(AbstractMessage(filename))
  }

  /** The generator throws on its first `next()`, before yielding anything. */
  function BaseGetMemories(filename: string): (r: Result<seq<Value>, string>)
    ensures r.Failure? && r.error == AbstractMessage(filename)
  {
    Failure(AbstractMessage(filename))
  }

  /** The generator throws on its first `next()`, before yielding anything. */
  function BaseGetAttentionItems(filename: string): (r: Result<seq<ContextItem>, string>)
    ensures r.Failure? && r.error == AbstractMessage(filename)
  {
    Failure(AbstractMessage(filename))
  }

  /** The error names the file, and the rest of the message is fixed. */
  lemma AbstractMessageNamesFile(filename: string)
    ensures AbstractMessage(filename)[..4] == "The "
    ensures AbstractMessage(filename)[4..4 + |filename|] == filename
    ensures |AbstractMessage(filename)| == |filename| + 82
  {
  }
}
