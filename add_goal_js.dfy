/**
 * The JavaScript revision of the add-goal tool: no guard, so whatever
 * `item` holds, `undefined` included, is appended to the goals category;
 * the trimming call deletes nothing, as in the TypeScript revision.
 */
module AddGoalJsTool {
  import opened Wrappers
  import opened Values
  import opened PropertyKeys
  import opened EphemeralMemory
  import AddGoalTool

  method Execute(item: Value, svc: EphemeralMemoryService) returns (r: string)
    requires svc.Valid()
    modifies svc
    ensures svc.Valid()
    ensures r == AddGoalTool.Added
    ensures svc.memories == old(svc.memories)
    ensures svc.attentionItems == old(svc.attentionItems)[AddGoalTool.Category := ItemsOf(old(svc.attentionItems), AddGoalTool.Category) + [item]]
    ensures svc.keyOrder == AddKey(old(svc.keyOrder), AddGoalTool.Category)
  {
    assert !InheritedMember(AddGoalTool.Category);
    var _ := svc.PushAttentionItem(AddGoalTool.Category, item);
    ghost var pushed := svc.attentionItems[AddGoalTool.Category];
    var _ := svc.SpliceAttentionItems(AddGoalTool.Category, AddGoalTool.TrimStart, None, []);
    OmittedCountOnlyInserts(pushed, AddGoalTool.TrimStart, []);
    return AddGoalTool.Added;
  }
}
