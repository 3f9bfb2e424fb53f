# A Dafny model of the tokenring-ai memory package

The package gives a chat agent a short-lived working memory:

- a list of free-text **memories**;
- a dictionary of **attention items**, grouped by category name;
- the context entries that feed both back into later prompts.

The model covers the following parts:

- **EphemeralMemoryService**. An in-memory store: a `memories` array and an `attentionItems` object mapping a category to an array. Every edit is a JavaScript array operation. `getAttentionItems` renders all non-empty categories as one user entry. The TypeScript class and its JavaScript revision have the same operations and the same bodies. Both are modelled by the one class `EphemeralMemory.EphemeralMemoryService`.
- **MemoryState**. The agent state slice that holds the short-term memories. It has constructor, `reset`, `serialize`, `deserialize` and `show` hooks. A fork is modelled as `new MemoryState(parent.serialize())`.
- **ShortTermMemoryService and its context handler**. They append to, clear and splice the slice's memories. They emit one user entry per memory.
- **The abstract MemoryService base**. It fixes the operation set, and every one of its operations throws.
- **The tools** `memory/add-focus`, `memory/add-goal`, `memory/add-memory` and `memory/add`, with the JavaScript revisions of the first three. Each is an argument guard plus a fixed sequence of store calls.

The JavaScript semantics the code relies on are written out from ECMA-262:

- `Array.prototype.splice` (section 23.1.3.31): `Arrays.Spliced`, with the start clamped and the delete count either absent, `undefined` or numeric.
- The order in which `for..in` visits own properties (OrdinaryOwnPropertyKeys, section 10.1.11.1): `PropertyKeys.OwnKeys`. Array-index keys come first in ascending numeric order, then the other keys in creation order.
- Number-to-string conversion for `${n}` (section 6.1.6.1.20): `Decimal.ToDecimal`.
- The names every plain object inherits from `Object.prototype` (section 20.1.3). Reading one of them through `attentionItems[name] ??= []` gives a function or an object, so nothing is created and the array method call throws a TypeError. The model returns `Outcome.TypeError` and leaves the state unchanged.

### Attention and memory values

- `Values.Value` covers the values that reach the stores: `undefined`, a string, and the `{role, content}` record that tools/add-memory.js stores.
- `Values.ToText` is what `${v}` produces for each of them.
- ContextItem: a context entry, as `Values.ContextItem`. `position` is `None` when the emitter sets no position.

### The JavaScript twin

EphemeralMemoryService.js repeats EphemeralMemoryService.ts line for line, so each JS line range maps to the same member:

| JS lines | operations | members |
|---|---|---|
| 10-11 | the fields | the fields of `EphemeralMemory.EphemeralMemoryService` |
| 13-21 | `addMemory`, `clearMemory`, `spliceMemory` | `AddMemory`, `ClearMemory`, `SpliceMemory` |
| 24-37 | the attention operations | `PushAttentionItem`, `UnshiftAttentionItem`, `ClearAttentionItems`, `SpliceAttentionItems` |
| 46-50 | `getMemories` | `GetMemories` |
| 58-73 | `getAttentionItems` | `GetAttentionItems`, `BuildMessage` |

### Where the code's own comments and names promise more than it does

The model follows the code in each case:

- **Bounded retention.** The comments at tools/add-focus.ts:22 ("keep last 10") and tools/add-goal.ts:20 ("Keep only the last 20 items") promise a cap. The calls below them do not enforce it. Both store wrappers pass `count` on as an explicit `undefined`, which converts to a delete count of 0. So `spliceAttentionItems(type, -10)` and `spliceAttentionItems(type, -20)` delete nothing, and the focus and goal lists grow without bound (see Findings).
- **Reset.** `MemoryState.reset` (state/memoryState.ts:13-17) clears only `memories`, the one field the slice holds. EphemeralMemoryService has no reset hook, so its memories and attention items survive any reset.
- **Snapshots.** `serialize` (state/memoryState.ts:19-23) returns an object that shares the slice's own array, so a later `push` shows through it (`MemoryStateSlice.SnapshotThenPush`). Forks are still independent, because the MemoryState constructor (state/memoryState.ts:10) and `deserialize` (state/memoryState.ts:26) copy the array (`MemoryStateSlice.ForkThenDiverge`).

## Model

| member | source | states |
|---|---|---|
| Arrays.ActualStart | EphemeralMemoryService.ts:18 | splice's actual start never passes the length: a negative start counts from the end and is clamped at 0, a start past the end is clamped to the length (section 23.1.3.31 of ECMA-262) |
| Arrays.ActualDeleteCount | EphemeralMemoryService.ts:18 | the actual delete count never runs past the end: an absent count deletes to the end, an `undefined` one deletes nothing, and a numeric one is clamped to [0, len - start] |
| Arrays.Removed | EphemeralMemoryService.ts:18 | splice removes at most the elements the array had |
| Arrays.Spliced | EphemeralMemoryService.ts:18 | the array after `splice(start, count, ...items)`: the elements before the actual start, then the items, then the elements after the deleted run |
| Arrays.SpliceConservesElements | EphemeralMemoryService.ts:16-19 | the kept elements plus the removed ones are exactly the original elements plus the inserted ones, as multisets and in length |
| Arrays.SpliceUndo | EphemeralMemoryService.ts:16-19 | for a start within [0, length], splicing the removed elements back in at the same start, in place of the inserted ones, restores the original array |
| Arrays.SpliceReplacesOne | EphemeralMemoryService.ts:16-19 | `splice(i, 1, x)` at a valid i replaces position i and nothing else |
| Arrays.SpliceRemovesOne | EphemeralMemoryService.ts:16-19 | `splice(i, 1)` with a numeric count removes exactly element i, keeps the others in order, and returns `[s[i]]` |
| Arrays.SpliceInsertsBefore | EphemeralMemoryService.ts:16-19 | `splice(i, 0, x)` inserts x before position i and removes nothing |
| Arrays.NegativeStartCountsFromEnd | EphemeralMemoryService.ts:35 | a start of -k, with 0 < k <= length, acts as the start length - k |
| Arrays.StartIsClamped | EphemeralMemoryService.ts:35 | a start at or below -length acts as 0, and a start at or past the length appends the items |
| Arrays.UndefinedCountDeletesNothing | EphemeralMemoryService.ts:18 | an `undefined` delete count removes nothing, whatever the start: the call only inserts |
| Arrays.OmittedCountDropsTail | tools/add-focus.ts:23 | backs the Findings only, about a call the code never makes: had the count been left out of the splice call itself, `splice(-n)` would delete the LAST n elements, which is not "keep the last n" either |
| Arrays.KeepLast | tools/add-focus.ts:22 | the last min(length, n) elements, as a suffix of the input |
| Arrays.KeepLastBySplice | tools/add-focus.ts:22 | `splice(0, length - n)` keeps exactly the last n elements |
| Arrays.KeepLastKeepsNewest | tools/add-focus.ts:22 | keeping the last n > 0 after a push keeps at most n elements, with the pushed one last |
| Arrays.JsArray.constructor | state/memoryState.ts:10 | an array literal or spread copy holds the given elements in a new object |
| Arrays.JsArray.Push | ShortTermMemoryService.ts:16 | `push` appends one element in place |
| Arrays.JsArray.Splice | ShortTermMemoryService.ts:33 | `splice` edits in place as section 23.1.3.31 prescribes and returns the removed elements |
| Decimal.ToDecimal | state/memoryState.ts:31 | a number is written as a canonical digit string: non-empty, digits only, no leading zero |
| Decimal.ValueOfDecimal | state/memoryState.ts:31 | reading back the digit string written for n gives n |
| Decimal.DecimalOfValue | EphemeralMemoryService.ts:52 | writing the value of a canonical digit string gives the string back |
| PropertyKeys.IsArrayIndex | EphemeralMemoryService.ts:52 | a key is an array index when it is a canonical decimal numeral below 2^32 - 1 |
| PropertyKeys.InheritedMember | EphemeralMemoryService.ts:22 | the twelve names a plain object inherits from Object.prototype (`ObjectPrototypeNames`), for which `??=` reads a defined value |
| PropertyKeys.OwnKeys | EphemeralMemoryService.ts:52 | the for..in visiting order: the array-index keys sorted by value, then the other keys in creation order |
| PropertyKeys.ArrayIndexIsDecimal | EphemeralMemoryService.ts:52 | a key is an array index exactly when it is the decimal form of an integer below 2^32 - 1 |
| PropertyKeys.SortBy | EphemeralMemoryService.ts:52 | sorting the index keys gives them in ascending numeric order, as a permutation of the input |
| PropertyKeys.OwnKeysPermutes | EphemeralMemoryService.ts:52 | for..in visits every own key exactly once: the visiting order is a permutation of the creation order |
| PropertyKeys.OwnKeysIndicesFirst | EphemeralMemoryService.ts:52 | the array-index keys are visited first, in ascending numeric order, then the other keys in creation order |
| PropertyKeys.NamedKeysInCreationOrder | EphemeralMemoryService.ts:52 | when no category name is an array index, for..in visits the categories in creation order |
| PropertyKeys.NewNamedKeyVisitedLast | EphemeralMemoryService.ts:22 | a newly created category whose name is not an array index is visited last |
| PropertyKeys.AddKey | EphemeralMemoryService.ts:22 | creating a property adds its key once and keeps every existing key |
| PropertyKeys.RemoveKey | EphemeralMemoryService.ts:30 | `delete` drops exactly that key and keeps the others in their order |
| PropertyKeys.RemoveKeyKeepsDistinct | EphemeralMemoryService.ts:30 | deleting a key keeps the own keys free of duplicates |
| PropertyKeys.OwnKeysRemove | EphemeralMemoryService.ts:30 | after a `delete`, for..in visits the other keys in the same order as before |
| PropertyKeys.ReAddMovesToEnd | EphemeralMemoryService.ts:30 | deleting a category and creating it again moves it to the end of the visiting order, when its name is not an array index |
| EphemeralMemory.ItemsOf | EphemeralMemoryService.ts:22 | a category's items, where a missing category reads as no items |
| EphemeralMemory.CategoryBlock | EphemeralMemoryService.ts:54-59 | a category's lines: its name, then one line per item, or nothing at all when it is empty |
| EphemeralMemory.MessageLines | EphemeralMemoryService.ts:51-60 | the `message` lines: the blocks of the categories in visiting order |
| EphemeralMemory.JoinLines | EphemeralMemoryService.ts:63 | `lines.join("\n")` (section 23.1.3.18 of ECMA-262) |
| EphemeralMemory.AttentionMessages | EphemeralMemoryService.ts:62-64 | one user entry holding the joined lines when there is any line, otherwise nothing |
| EphemeralMemory.ForwardedCount | EphemeralMemoryService.ts:35 | the wrappers always pass a count argument, so splice never sees the count as absent |
| EphemeralMemory.OmittedCountOnlyInserts | EphemeralMemoryService.ts:33-36 | an omitted count deletes nothing: with no items the array is unchanged, and otherwise it grows by exactly the items |
| Values.ToText | EphemeralMemoryService.ts:57 | the text `${v}` produces: "undefined", the string itself, or "[object Object]" for a record |
| EphemeralMemory.ItemLines | EphemeralMemoryService.ts:56-58 | one line per item |
| EphemeralMemory.ItemLinesAt | EphemeralMemoryService.ts:57 | line j is `"- "` followed by the text of item j |
| EphemeralMemory.ItemLinesStep | EphemeralMemoryService.ts:56-58 | one more item appends exactly its line |
| EphemeralMemory.MessageLinesStep | EphemeralMemoryService.ts:52-60 | visiting one more category appends exactly its block: its name and one line per item, or nothing when it is empty |
| EphemeralMemory.MessageLinesEmptyIff | EphemeralMemoryService.ts:54 | no line is produced exactly when every visited category is empty or absent |
| EphemeralMemory.NoEntryIffNothingToShow | EphemeralMemoryService.ts:62-64 | at most one entry is yielded, a user entry with no position, and none exactly when every category is empty |
| EphemeralMemory.EmptyCategoryContributesNothing | EphemeralMemoryService.ts:54 | removing an empty category from the visiting order leaves the lines unchanged |
| EphemeralMemory.EmptyCategoryInvisible | EphemeralMemoryService.ts:29-31 | deleting a category that holds no items leaves the yielded entry unchanged |
| EphemeralMemory.TwoCategoryExample | EphemeralMemoryService.ts:50-65 | "goals" holding "a", then "notes" holding "b" and "c", give the single entry `goals\n- a\nnotes\n- b\n- c` |
| EphemeralMemory.ExampleJoin | EphemeralMemoryService.ts:63 | one instance: the five lines of `TwoCategoryExample` join to `goals\n- a\nnotes\n- b\n- c` |
| EphemeralMemory.JoinAppend | EphemeralMemoryService.ts:63 | joining two non-empty runs of lines puts exactly one newline between them, for all inputs |
| EphemeralMemory.EphemeralMemoryService.constructor | EphemeralMemoryService.ts:7-8 | a new store has no memories and no categories |
| EphemeralMemory.EphemeralMemoryService.AddMemory | EphemeralMemoryService.ts:10-12 | appends exactly one memory at the end; the attention items are unchanged |
| EphemeralMemory.EphemeralMemoryService.ClearMemory | EphemeralMemoryService.ts:13-15 | empties the memories, so a second call changes nothing; the attention items are unchanged |
| EphemeralMemory.EphemeralMemoryService.SpliceMemory | EphemeralMemoryService.ts:16-19 | the memories become their splice, with an omitted count passed on as `undefined`; the attention items are unchanged |
| EphemeralMemory.EphemeralMemoryService.EnsureCategory | EphemeralMemoryService.ts:22 | `??= []` creates an empty category for a new name, keeps an existing one, and for a name inherited from Object.prototype creates nothing and throws a TypeError |
| EphemeralMemory.EphemeralMemoryService.PushAttentionItem | EphemeralMemoryService.ts:21-23 | appends the item to its category, creating the category if absent; no other category and no memory changes |
| EphemeralMemory.EphemeralMemoryService.UnshiftAttentionItem | EphemeralMemoryService.ts:25-27 | prepends the item to its category, creating the category if absent; no other category and no memory changes |
| EphemeralMemory.EphemeralMemoryService.ClearAttentionItems | EphemeralMemoryService.ts:29-31 | removes the category's key altogether and leaves every other key and its items untouched |
| EphemeralMemory.EphemeralMemoryService.SpliceAttentionItems | EphemeralMemoryService.ts:33-36 | creates the category if absent and then splices it, so the key exists afterwards even when nothing was inserted |
| EphemeralMemory.EphemeralMemoryService.GetMemories | EphemeralMemoryService.ts:41-45 | yields the stored values themselves, unchanged and in order |
| EphemeralMemory.EphemeralMemoryService.GetAttentionItems | EphemeralMemoryService.ts:50-65 | yields the attention entry for the categories in for..in order |
| EphemeralMemory.BuildMessage | EphemeralMemoryService.ts:51-60 | the nested loops produce, for each category in visiting order, its name and its item lines, skipping empty ones |
| EphemeralMemory.AppendItemLines | EphemeralMemoryService.ts:56-58 | the inner loop appends one `"- " + item` line per item, in order |
| MemoryStateSlice.ClearsMemories | state/memoryState.ts:14 | a reset clears the memories when its tags include "chat" or "memory" |
| MemoryStateSlice.MemoryLine | state/memoryState.ts:32 | the listing line `"  [" + (i + 1) + "] " + m` for the memory at 0-based position i |
| MemoryStateSlice.ShowLines | state/memoryState.ts:29-34 | what show returns: the count header, then the listing lines |
| MemoryStateSlice.MemoryLines | state/memoryState.ts:32 | one listing line per memory |
| MemoryStateSlice.MemoryLinesAt | state/memoryState.ts:32 | line i is `"  [" + (i + 1) + "] "` followed by memory i |
| MemoryStateSlice.ShowLinesShape | state/memoryState.ts:29-34 | show gives n + 1 lines: `Memories: n`, then memory k on line k, labelled k from 1 |
| MemoryStateSlice.ShowCountReadsBack | state/memoryState.ts:31 | the header's number is a canonical digit string that reads back as the number of memories |
| MemoryStateSlice.DigitsThenBracket | state/memoryState.ts:32 | a label `digits] ` followed by text determines both the digits and the text |
| MemoryStateSlice.MemoryLineInjective | state/memoryState.ts:32 | two listing lines are equal only for the same position and the same memory |
| MemoryStateSlice.MemoryState.constructor | state/memoryState.ts:9-11 | stores a fresh copy of the given memories, or an empty array when none are given |
| MemoryStateSlice.MemoryState.Reset | state/memoryState.ts:13-17 | empties the memories exactly when the tags include "chat" or "memory", and leaves them as they are otherwise |
| MemoryStateSlice.MemoryState.Serialize | state/memoryState.ts:19-23 | the snapshot always carries a memories field |
| MemoryStateSlice.MemoryState.Deserialize | state/memoryState.ts:25-27 | replaces the memories with a fresh copy of the given ones, or with an empty array when the field is missing |
| MemoryStateSlice.MemoryState.Show | state/memoryState.ts:29-34 | the count header, then one numbered line per memory in order |
| MemoryStateSlice.Fork | state/memoryState.ts:7 | a sub-agent's slice holds the parent's memories in an array of its own |
| MemoryStateSlice.ForkThenDiverge | state/memoryState.ts:9-11 | after a fork, a push on either side leaves the other side unchanged |
| MemoryStateSlice.SnapshotThenPush | state/memoryState.ts:19-23 | serialize shares the slice's array: a later push shows through the snapshot |
| MemoryStateSlice.RoundTrip | state/memoryState.ts:19-27 | deserializing a serialized slice into another one gives equal memories in independent storage |
| ShortTermMemory.ShortTermMemoryService.Attach | ShortTermMemoryService.ts:10-12 | installs a slice built from `{}`, which has no memories |
| ShortTermMemory.ShortTermMemoryService.AddMemory | ShortTermMemoryService.ts:14-18 | appends exactly one string at the end of the slice's memories, in place |
| ShortTermMemory.ShortTermMemoryService.ClearMemory | ShortTermMemoryService.ts:20-24 | leaves the slice with a new empty array; the previous array keeps its contents |
| ShortTermMemory.ShortTermMemoryService.SpliceMemory | ShortTermMemoryService.ts:26-35 | the memories become their splice with a numeric delete count |
| ShortTermMemory.ShortTermMemoryService.GetContextItems | ShortTermMemoryService.ts:40-49 | yields exactly one entry per memory, in store order, each `{position: "afterPriorMessages", role: "user", content: memory}`, and changes nothing |
| ShortTermMemory.ServiceAgreesWithHandler | ShortTermMemoryService.ts:40-49 | the service's entries and the context handler's differ only in the position field |
| ShortTermMemoryHandler.MemoryEntries | contextHandlers/shortTermMemory.ts:10-15 | one entry per memory |
| ShortTermMemoryHandler.MemoryEntriesAt | contextHandlers/shortTermMemory.ts:11-14 | entry i is `{role: "user", content: memory i}` with no position |
| ShortTermMemoryHandler.GetContextItems | contextHandlers/shortTermMemory.ts:8-15 | yields one entry per stored memory, and none when the memories field is missing |
| ShortTermMemoryHandler.HandlerEntries | contextHandlers/shortTermMemory.ts:9-15 | every entry is the memory at the same position, as a user entry with no position |
| ShortTermMemoryHandler.ArgumentsIgnored | contextHandlers/shortTermMemory.ts:8 | `input`, `chatConfig` and `params` do not affect the output |
| ShortTermMemoryHandler.EntriesAppend | contextHandlers/shortTermMemory.ts:10-15 | the emission of concatenated memories is the concatenation of the emissions |
| MemoryServiceBase.AbstractMessage | MemoryService.ts:16 | the error text every base operation throws, naming the module's file |
| MemoryServiceBase.StoreAddsOnlyUnshift | MemoryService.ts:8-78 | records the declared operation sets, and proves nothing about behaviour: the base declares no `unshiftAttentionItem`, and the ephemeral store's set adds exactly that operation |
| MemoryServiceBase.Call | MemoryService.ts:14-77 | every base operation fails with the abstract-class message |
| MemoryServiceBase.BaseAddMemory | MemoryService.ts:14-18 | fails as every base operation does, whatever the memory |
| MemoryServiceBase.BasePushAttentionItem | MemoryService.ts:22-26 | fails as every base operation does, whatever the category and item |
| MemoryServiceBase.BaseClearMemory | MemoryService.ts:29-33 | fails as every base operation does |
| MemoryServiceBase.BaseClearAttentionItems | MemoryService.ts:37-41 | fails as every base operation does, with or without a category |
| MemoryServiceBase.BaseSpliceMemory | MemoryService.ts:45-49 | fails as every base operation does, whatever the splice arguments |
| MemoryServiceBase.BaseSpliceAttentionItems | MemoryService.ts:53-62 | fails as every base operation does, whatever the splice arguments |
| MemoryServiceBase.BaseGetMemories | MemoryService.ts:66-70 | the generator fails on first use and yields nothing |
| MemoryServiceBase.BaseGetAttentionItems | MemoryService.ts:73-77 | the generator fails on first use and yields nothing |
| MemoryServiceBase.AbstractMessageNamesFile | MemoryService.ts:16 | records the message format, and proves nothing about behaviour: "The ", then the file's path, then a fixed 78-character text |
| AddFocusTool.Execute | tools/add-focus.ts:10-27 | a missing or empty item fails with the `[memory/add-focus]` message and leaves the store unchanged; otherwise "Focus on these items" gains exactly the item at its end, nothing else changes, and the result is "Added to focus" |
| AddFocusTool.TrimKeepsEverything | tools/add-focus.ts:22-23 | the trimming call leaves any focus list as it is |
| AddFocusTool.EleventhItemKept | tools/add-focus.ts:22-23 | an eleventh focus item is kept: the list grows past 10 |
| AddFocusTool.ExecuteKeepingLast | tools/add-focus.ts:22-23 | with the intended trim, the focus list becomes the last 10 items of the old list with the new item appended; failures and everything else are as in `Execute` |
| AddFocusTool.KeepingLastBoundsFocus | tools/add-focus.ts:22 | with the intended trim, the focus list holds at most 10 items and ends with the new one |
| AddGoalTool.Execute | tools/add-goal.ts:10-28 | a missing or empty item fails with the `[memory/add-goal]` message and leaves the store unchanged; otherwise "These are the goals that have been set" gains exactly the item at its end, nothing else changes, and the result is "Added goal" |
| AddGoalTool.TrimKeepsEverything | tools/add-goal.ts:20-21 | the trimming call leaves any goal list as it is |
| AddGoalTool.TwentyFirstGoalKept | tools/add-goal.ts:20-21 | a twenty-first goal is kept: the list grows past 20 |
| AddGoalTool.ExecuteKeepingLast | tools/add-goal.ts:20-21 | with the intended trim, the goal list becomes the last 20 items of the old list with the new item appended; failures and everything else are as in `Execute` |
| AddGoalTool.KeepingLastBoundsGoals | tools/add-goal.ts:20 | with the intended trim, the goal list holds at most 20 items and ends with the new one |
| AddFocusJsTool.Execute | tools/add-focus.js:11-21 | with no guard, any item, `undefined` included, is appended to the focus category, the trim deletes nothing, and the result is "Added to focus" |
| AddGoalJsTool.Execute | tools/add-goal.js:11-23 | with no guard, the item is appended to the goals category, the trim deletes nothing, and the result is "Added goal" |
| AddMemoryJsTool.MemoryRecordFor | tools/add-memory.js:15-18 | the record the tool stores: role "system" and content `You have a memory:\n ` followed by `${memory}` |
| AddMemoryJsTool.Execute | tools/add-memory.js:11-22 | with no guard, one `{role: "system", content}` record is appended to the memories, the attention items are untouched, and the result is "Memory added" |
| AddMemoryJsTool.RecordCarriesMemory | tools/add-memory.js:15-18 | the record's content is the prefix `You have a memory:\n ` followed by the memory's text |
| AddMemoryJsTool.RecordInjective | tools/add-memory.js:15-18 | distinct string memories are stored as distinct records |
| AddMemoryTool.Execute | tools/add-memory.ts:10-24 | a missing or empty memory fails with the `[memory/add-memory]` message and leaves the store unchanged; otherwise the raw string is appended to the memories, the attention items are untouched, and the result is "Memory added" |
| AddShortTermMemoryTool.Execute | tools/addMemory.ts:10-24 | a missing or empty memory fails with the `[memory/add]` message and leaves the memories unchanged; otherwise the agent's memories gain the string at the end, and the result is "Memory added" |

## Left out

- Numbers that are not integers: NaN, infinities, fractions and -0 as splice arguments, and the ToIntegerOrInfinity conversion of section 7.1.5 of ECMA-262. Splice arguments are modelled as mathematical integers.
- The TypeError that splice raises when the result would be longer than 2^53 - 1 elements. The model's arrays are unbounded.
- The agent runtime, which is not part of this model. This covers `initializeState`, `mutateState`, `getState`, `requireServiceByType`, `requireFirstServiceByType`, and the sub-agent copying that `persistToSubAgents` switches on. A slice is passed to the service directly, and a fork is modelled as `new MemoryState(parent.serialize())`. An error from the service lookup, which the TypeScript tools perform before their guard, is not modelled.
- `agent.infoLine` and `chatService.infoLine`: output to the operator, with no effect on the stores.
- How async generators step and suspend. Each generator is modelled by the sequence it yields when drained.
- The `?? []` fallbacks in `getMemories`, `ShortTermMemoryService.getContextItems` and the context handler. For a store or slice built by this code the field is always an array, so none of them applies. The store and the service are modelled as methods on the object itself, where the field cannot be missing, so their fallbacks do not appear. The context handler is modelled as a pure function of the field's value, so its fallback appears as the case of a missing value.
- Argument values outside the declared types are not modelled: `null` memories given to the MemoryState constructor, or a non-object given to `deserialize`.
- The `_registry` argument of the store's generators is not modelled. It is never read.
- MemoryService.js: throw-only stubs whose signatures do not match their own subclass. The TypeScript base fixes the operation set.
- The operator commands (commands/memory.ts, commands/attention.ts and their JavaScript revisions), plugin.ts, the index files and contextHandlers.ts. These are user interface and registration glue.
- Mismatches with some test expectations. test/EphemeralMemoryService.test.js:37-38 expects `getMemories` to wrap strings in records; the code yields the raw values, and the model follows the code. test/MemoryService.test.ts exercises an interface that ShortTermMemoryService does not have.
- MemoryStateSlice.MemoryState.Serialize: its contract says only that a memories field is present. That the field is the slice's own array is stated by `MemoryStateSlice.SnapshotThenPush` and used by `MemoryStateSlice.Fork`.
- The abstract base is modelled as functions that return the failure, not as an interface that the store implements.

## Findings

| source | as written | input that shows it | evidently intended | confidence | as-written member | corrected member |
|---|---|---|---|---|---|---|
| tools/add-focus.ts:22-23 | `spliceAttentionItems(type, -10)` forwards the missing count as `undefined`, which deletes nothing, so the focus list is never trimmed | a focus list of 10 items, then one more add: the list holds 11 | keep only the last 10 items (`splice(0, length - 10)`) | not executed | AddFocusTool.EleventhItemKept | AddFocusTool.ExecuteKeepingLast |
| tools/add-goal.ts:20-21 | `spliceAttentionItems(type, -20)` forwards the missing count as `undefined`, which deletes nothing, so the goal list is never trimmed | a goal list of 20 items, then one more add: the list holds 21 | keep only the last 20 items (`splice(0, length - 20)`) | not executed | AddGoalTool.TwentyFirstGoalKept | AddGoalTool.ExecuteKeepingLast |

The JavaScript tools tools/add-focus.js:17 and tools/add-goal.js:18 make the same call. Their `Execute` contracts state that the list only grows.
