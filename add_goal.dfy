/**
 * The memory/add-goal tool: checks its `item` argument, appends it to the
 * "These are the goals that have been set" category, then makes the trimming call.
 */
module AddGoalTool {
  import opened Wrappers
  import opened Values
  import opened Arrays
  import opened PropertyKeys
  import opened EphemeralMemory

  const Name: string := "memory/add-goal"
  const Category: string := "These are the goals that have been set"
  /** The start the trimming call passes; the count is left out. */
  const TrimStart: int := -20
  /** The cap the trim is meant to enforce. */
  const Cap: nat := 20

  const MissingItem: string := "[" + Name + "] Missing item parameter for the goal"
  const Added: string := "Added goal"

  /**
   * `execute({item})`: a missing or empty item throws before the store is
   * touched; otherwise the item is appended to the goals category, and the
   * trimming call, whose count reaches splice as `undefined`, deletes nothing.
   */
  method Execute(item: Option<string>, svc: EphemeralMemoryService) returns (r: Result<string, string>)
    requires svc.Valid()
    modifies svc
    ensures svc.Valid()
    ensures item.None? || item.value == "" ==>
      r == Failure(MissingItem) && unchanged(svc)
    ensures item.Some? && item.value != "" ==>
      && r == Success(Added)
      && svc.memories == old(svc.memories)
      && svc.attentionItems == old(svc.attentionItems)[Category := ItemsOf(old(svc.attentionItems), Category) + [Str(item.value)]]
      && svc.keyOrder == AddKey(old(svc.keyOrder), Category)
  {
    if item.None? || item.value == "" {
      return Failure(MissingItem);
    }
    assert !InheritedMember(Category);
    var _ := svc.PushAttentionItem(Category, Str(item.value));
    ghost var pushed := svc.attentionItems[Category];
    var _ := svc.SpliceAttentionItems(Category, TrimStart, None, []);
    OmittedCountOnlyInserts(pushed, TrimStart, []);
    return Success(Added);
  }

  /** As written, the trim leaves any goal list as it is. */
  lemma TrimKeepsEverything(s: seq<Value>)
    ensures Spliced(s, TrimStart, ForwardedCount(None), []) == s
  {
    OmittedCountOnlyInserts(s, TrimStart, []);
  }

  /** As written, a twenty-first goal is kept: the list grows past the cap. */
  lemma TwentyFirstGoalKept(s: seq<Value>, x: string)
    requires |s| == Cap
    ensures |Spliced(s + [Str(x)], TrimStart, ForwardedCount(None), [])| == Cap + 1
  {
    TrimKeepsEverything(s + [Str(x)]);
  }

  /**
   * The evidently intended tool: the trim deletes everything before the last
   * `Cap` items, `splice(0, length - Cap)`, so the list never exceeds the cap
   * and the new item is its last element.
   */
  method ExecuteKeepingLast(item: Option<string>, svc: EphemeralMemoryService) returns (r: Result<string, string>)
    requires svc.Valid()
    modifies svc
    ensures svc.Valid()
    ensures item.None? || item.value == "" ==>
      r == Failure(MissingItem) && unchanged(svc)
    ensures item.Some? && item.value != "" ==>
      && r == Success(Added)
      && svc.memories == old(svc.memories)
      && svc.attentionItems == old(svc.attentionItems)[Category := KeepLast(ItemsOf(old(svc.attentionItems), Category) + [Str(item.value)], Cap)]
      && svc.keyOrder == AddKey(old(svc.keyOrder), Category)
  {
    if item.None? || item.value == "" {
      return Failure(MissingItem);
    }
    assert !InheritedMember(Category);
    var _ := svc.PushAttentionItem(Category, Str(item.value));
    var pushed := svc.attentionItems[Category];
    var _ := svc.SpliceAttentionItems(Category, 0, Some(|pushed| - Cap), []);
    KeepLastBySplice(pushed, Cap);
    return Success(Added);
  }

  /** With the intended trim, the goal list holds at most `Cap` items and ends with the new one. */
  lemma KeepingLastBoundsGoals(s: seq<Value>, x: string)
    ensures |KeepLast(s + [Str(x)], Cap)| <= Cap
    ensures KeepLast(s + [Str(x)], Cap)[|KeepLast(s + [Str(x)], Cap)| - 1] == Str(x)
  {
    KeepLastKeepsNewest(s, Str(x), Cap);
  }
}
