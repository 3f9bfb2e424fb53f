/**
 * The JavaScript revision of the add-focus tool: no guard, so whatever
 * `item` holds, `undefined` included, is appended to the focus category;
 * the trimming call deletes nothing, as in the TypeScript revision.
 */
module AddFocusJsTool {
  import opened Wrappers
  import opened Values
  import opened PropertyKeys
  import opened EphemeralMemory
  import AddFocusTool

  method Execute(item: Value, svc: EphemeralMemoryService) returns (r: string)
    requires svc.Valid()
    modifies svc
    ensures svc.Valid()
    ensures r == AddFocusTool.Added
    ensures svc.memories == old(svc.memories)
    ensures svc.attentionItems == old(svc.attentionItems)[AddFocusTool.Category := ItemsOf(old(svc.attentionItems), AddFocusTool.Category) + [item]]
    ensures svc.keyOrder == AddKey(old(svc.keyOrder), AddFocusTool.Category)
  {
    assert !InheritedMember(AddFocusTool.Category);
    var _ := svc.PushAttentionItem(AddFocusTool.Category, item);
    ghost var pushed := svc.attentionItems[AddFocusTool.Category];
    var _ := svc.SpliceAttentionItems(AddFocusTool.Category, AddFocusTool.TrimStart, None, []);
    OmittedCountOnlyInserts(pushed, AddFocusTool.TrimStart, []);
    return AddFocusTool.Added;
  }
}
