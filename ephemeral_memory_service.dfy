/**
 * EphemeralMemoryService: an in-memory store holding an ordered list of
 * memories and a dictionary from category name to an ordered list of
 * attention items, and the single context entry that renders the attention
 * items. The TypeScript class and its JavaScript revision behave identically.
 */
module EphemeralMemory {
  import opened Wrappers
  import opened Values
  import opened Arrays
  import opened PropertyKeys

  /** `attentionItems[category]` read as an item list; a missing category reads as empty. */
  function ItemsOf(cats: map<string, seq<Value>>, t: string): seq<Value> {
    if t in cats then cats[t] else []
  }

  /**
   * The wrappers always pass `count` on to splice, so an omitted count reaches
   * it as an explicit `undefined`, never as a missing argument.
   */
  function ForwardedCount(count: Option<int>): (dc: DeleteCount)
    ensures dc != NotPresent
  {
    if count.None? then DeleteCount.Undefined else Number(count.value)
  }

  /** An omitted count deletes nothing: the edit only inserts. */
  lemma OmittedCountOnlyInserts<T>(s: seq<T>, index: int, items: seq<T>)
    ensures Removed(s, index, ForwardedCount(None)) == []
    ensures Spliced(s, index, ForwardedCount(None), []) == s
    ensures |Spliced(s, index, ForwardedCount(None), items)| == |s| + |items|
  {
    UndefinedCountDeletesNothing(s, index, items);
    UndefinedCountDeletesNothing(s, index, []);
  }

  // ----- The text of the attention entry -----

  /** One `- item` line per item, in order. */
  function ItemLines(items: seq<Value>): (r: seq<string>)
    ensures |r| == |items|
  {
    if items == [] then []
    else ItemLines(items[..|items| - 1]) + ["- " + ToText(items[|items| - 1])]
  }

  /** Line j is item j, marked with "- " and converted as `${item}` converts it. */
  lemma {:induction false} ItemLinesAt(items: seq<Value>, j: nat)
    requires j < |items|
    ensures ItemLines(items)[j] == "- " + ToText(items[j])
  {
    if j < |items| - 1 {
      ItemLinesAt(items[..|items| - 1], j);
    }
  }

  /** A category's block: its name, then its item lines; nothing at all for an empty category. */
  function CategoryBlock(name: string, items: seq<Value>): seq<string> {
    if |items| == 0 then [] else [name] + ItemLines(items)
  }

  /** The `message` lines built by visiting the categories in `order`. */
  function MessageLines(order: seq<string>, cats: map<string, seq<Value>>): seq<string> {
    if order == [] then []
    else MessageLines(order[..|order| - 1], cats) + CategoryBlock(order[|order| - 1], ItemsOf(cats, order[|order| - 1]))
  }

  /** `lines.join("\n")` (section 23.1.3.18 of ECMA-262). */
  function JoinLines(lines: seq<string>): string {
    if lines == [] then ""
    else if |lines| == 1 then lines[0]
    else JoinLines(lines[..|lines| - 1]) + "\n" + lines[|lines| - 1]
  }

  /** Joining two non-empty runs of lines puts exactly one newline between them. */
  lemma {:induction false} JoinAppend(a: seq<string>, b: seq<string>)
    requires a != [] && b != []
    ensures JoinLines(a + b) == JoinLines(a) + "\n" + JoinLines(b)
    decreases |b|
  {
    var ab := a + b;
    if |b| == 1 {
      assert ab[..|ab| - 1] == a;
    } else {
      var init := b[..|b| - 1];
      assert ab[..|ab| - 1] == a + init;
      JoinAppend(a, init);
    }
  }

  /** Visiting one more category appends its block. */
  lemma MessageLinesStep(order: seq<string>, i: nat, cats: map<string, seq<Value>>)
    requires i < |order|
    ensures MessageLines(order[..i + 1], cats) == MessageLines(order[..i], cats) + CategoryBlock(order[i], ItemsOf(cats, order[i]))
  {
    assert order[..i + 1][..i] == order[..i];
  }

  /** One more item appends its line. */
  lemma ItemLinesStep(items: seq<Value>, j: nat)
    requires j < |items|
    ensures ItemLines(items[..j + 1]) == ItemLines(items[..j]) + ["- " + ToText(items[j])]
  {
    assert items[..j + 1][..j] == items[..j];
  }

  /** What getAttentionItems yields: one user entry when there is any line, otherwise nothing. */
  function AttentionMessages(order: seq<string>, cats: map<string, seq<Value>>): seq<ContextItem> {
    var lines := MessageLines(order, cats);
    if |lines| > 0 then [ContextItem(None, "user", JoinLines(lines))] else []
  }

  /** The lines are empty exactly when every visited category is empty or absent. */
  lemma {:induction false} MessageLinesEmptyIff(order: seq<string>, cats: map<string, seq<Value>>)
    ensures MessageLines(order, cats) == [] <==> forall k :: k in order ==> ItemsOf(cats, k) == []
  {
    if order != [] {
      var init := order[..|order| - 1];
      MessageLinesEmptyIff(init, cats);
      assert order == init + [order[|order| - 1]];
    }
  }

  /**
   * At most one entry is yielded, a user entry; none exactly when every
   * category is empty or absent.
   */
  lemma NoEntryIffNothingToShow(order: seq<string>, cats: map<string, seq<Value>>)
    ensures |AttentionMessages(order, cats)| <= 1
    ensures AttentionMessages(order, cats) == [] <==> forall k :: k in order ==> ItemsOf(cats, k) == []
    ensures forall m :: m in AttentionMessages(order, cats) ==> m.role == "user" && m.position == None
  {
    MessageLinesEmptyIff(order, cats);
  }

  /** A category holding nothing contributes nothing, wherever it stands in the order. */
  lemma {:induction false} EmptyCategoryContributesNothing(order: seq<string>, cats: map<string, seq<Value>>, k: string)
    requires ItemsOf(cats, k) == []
    ensures MessageLines(RemoveKey(order, k), cats - {k}) == MessageLines(order, cats)
  {
    if order != [] {
      var init := order[..|order| - 1];
      var last := order[|order| - 1];
      EmptyCategoryContributesNothing(init, cats, k);
      assert order == init + [last];
      RemoveKeySnoc(init, last, k);
      var r := RemoveKey(order, k);
      if last == k {
        assert r == RemoveKey(init, k);
      } else {
        assert r == RemoveKey(init, k) + [last];
        assert r[..|r| - 1] == RemoveKey(init, k);
        assert ItemsOf(cats - {k}, last) == ItemsOf(cats, last);
      }
    }
  }

  /** The entry for categories "goals" -> ["a"] and "notes" -> ["b", "c"], created in that order. */
  lemma TwoCategoryExample()
    ensures AttentionMessages(OwnKeys(["goals", "notes"]), map["goals" := [Str("a")], "notes" := [Str("b"), Str("c")]])
         == [ContextItem(None, "user", "goals\n- a\nnotes\n- b\n- c")]
  {
    var cats := map["goals" := [Str("a")], "notes" := [Str("b"), Str("c")]];
    assert !IsArrayIndex("goals") && !IsArrayIndex("notes");
    NamedKeysInCreationOrder(["goals", "notes"]);
    var a, bc := [Str("a")], [Str("b"), Str("c")];
    assert ItemLines(a) == ["- a"] by {
      assert a[..0] == [];
      assert "- " + ToText(Str("a")) == "- a";
    }
    assert ItemLines(bc) == ["- b", "- c"] by {
      assert bc[..1] == [Str("b")] && bc[..1][..0] == [];
      assert "- " + ToText(Str("b")) == "- b";
      assert "- " + ToText(Str("c")) == "- c";
    }
    assert MessageLines(["goals"], cats) == ["goals", "- a"] by {
      assert ["goals"][..0] == [];
    }
    assert MessageLines(["goals", "notes"], cats) == ["goals", "- a", "notes", "- b", "- c"] by {
      assert ["goals", "notes"][..1] == ["goals"];
    }
    ExampleJoin();
  }

  /** The join of the example's lines. */
  lemma ExampleJoin()
    ensures JoinLines(["goals", "- a", "notes", "- b", "- c"]) == "goals\n- a\nnotes\n- b\n- c"
  {
    var lines := ["goals", "- a", "notes", "- b", "- c"];
    var l1, l2, l3, l4 := lines[..1], lines[..2], lines[..3], lines[..4];
    assert l1 == ["goals"] && l2 == ["goals", "- a"];
    assert l3 == ["goals", "- a", "notes"] && l4 == ["goals", "- a", "notes", "- b"];
    assert JoinLines(l1) == "goals";
    assert l2[..1] == l1;
    assert JoinLines(l2) == "goals\n- a";
    assert l3[..2] == l2;
    assert JoinLines(l3) == "goals\n- a\nnotes";
    assert l4[..3] == l3;
    assert JoinLines(l4) == "goals\n- a\nnotes\n- b";
  }

  /** A JavaScript object used as a dictionary of attention items, and the list of memories. */
  class EphemeralMemoryService {
    const name: string := "EphemeralMemoryService"
    const description: string := "Provides EphemeralMemory functionality"

    var memories: seq<Value>
    /** The own properties of the `attentionItems` object. */
    var attentionItems: map<string, seq<Value>>
    /** The creation order of those properties; for..in visits them in `OwnKeys(keyOrder)`. */
    var keyOrder: seq<string>

    ghost predicate Valid()
      reads this
    {
      && Distinct(keyOrder)
      && (forall k :: k in attentionItems <==> k in keyOrder)
      && (forall k :: k in attentionItems ==> !InheritedMember(k))
    }

    /** What for..in over `attentionItems` visits, in order. */
    function VisitOrder(): seq<string>
      reads this
    {
      OwnKeys(keyOrder)
    }

    constructor ()
      ensures Valid()
      ensures memories == [] && attentionItems == map[] && keyOrder == []
    {
      memories := [];
      attentionItems := map[];
      keyOrder := [];
    }

    /** `memories.push(memory)`. */
    method AddMemory(memory: Value)
      requires Valid()
      modifies this
      ensures Valid()
      ensures memories == old(memories) + [memory]
      ensures attentionItems == old(attentionItems) && keyOrder == old(keyOrder)
    {
      memories := memories + [memory];
    }

    /** `memories = []`. */
    method ClearMemory()
      requires Valid()
      modifies this
      ensures Valid()
      ensures memories == []
      ensures attentionItems == old(attentionItems) && keyOrder == old(keyOrder)
    {
      memories := [];
    }

    /** `memories.splice(index, count, ...items)`, with `count` always passed on. */
    method SpliceMemory(index: int, count: Option<int>, items: seq<Value>)
      requires Valid()
      modifies this
      ensures Valid()
      ensures memories == Spliced(old(memories), index, ForwardedCount(count), items)
      ensures attentionItems == old(attentionItems) && keyOrder == old(keyOrder)
    {
      memories := Spliced(memories, index, ForwardedCount(count), items);
    }

    /**
     * `(attentionItems[category] ??= [])`: creates an empty own property when the
     * name reads as `undefined`. A name inherited from Object.prototype reads as
     * a function or an object, so nothing is created and the caller's array
     * method call on it throws a TypeError.
     */
    method EnsureCategory(category: string) returns (outcome: Outcome)
      requires Valid()
      modifies this
      ensures Valid()
      ensures outcome == if InheritedMember(category) then TypeError else Normal
      ensures memories == old(memories)
      ensures outcome == TypeError ==> attentionItems == old(attentionItems) && keyOrder == old(keyOrder)
      ensures outcome == Normal ==>
        && attentionItems == old(attentionItems)[category := ItemsOf(old(attentionItems), category)]
        && keyOrder == AddKey(old(keyOrder), category)
    {
      if InheritedMember(category) {
        return TypeError;
      }
      if category !in attentionItems {
        attentionItems := attentionItems[category := []];
        keyOrder := keyOrder + [category];
      }
      return Normal;
    }

    /** `(attentionItems[category] ??= []).push(item)`. */
    method PushAttentionItem(category: string, item: Value) returns (outcome: Outcome)
      requires Valid()
      modifies this
      ensures Valid()
      ensures outcome == if InheritedMember(category) then TypeError else Normal
      ensures memories == old(memories)
      ensures outcome == TypeError ==> attentionItems == old(attentionItems) && keyOrder == old(keyOrder)
      ensures outcome == Normal ==>
        && attentionItems == old(attentionItems)[category := ItemsOf(old(attentionItems), category) + [item]]
        && keyOrder == AddKey(old(keyOrder), category)
    {
      outcome := EnsureCategory(category);
      if outcome == Normal {
        attentionItems := attentionItems[category := attentionItems[category] + [item]];
      }
    }

    /** `(attentionItems[category] ??= []).unshift(item)`. */
    method UnshiftAttentionItem(category: string, item: Value) returns (outcome: Outcome)
      requires Valid()
      modifies this
      ensures Valid()
      ensures outcome == if InheritedMember(category) then TypeError else Normal
      ensures memories == old(memories)
      ensures outcome == TypeError ==> attentionItems == old(attentionItems) && keyOrder == old(keyOrder)
      ensures outcome == Normal ==>
        && attentionItems == old(attentionItems)[category := [item] + ItemsOf(old(attentionItems), category)]
        && keyOrder == AddKey(old(keyOrder), category)
    {
      outcome := EnsureCategory(category);
      if outcome == Normal {
        attentionItems := attentionItems[category := [item] + attentionItems[category]];
      }
    }

    /** `delete attentionItems[category]`: the whole category goes, not just its items. */
    method ClearAttentionItems(category: string)
      requires Valid()
      modifies this
      ensures Valid()
      ensures memories == old(memories)
      ensures attentionItems == old(attentionItems) - {category}
      ensures keyOrder == RemoveKey(old(keyOrder), category)
    {
      RemoveKeyKeepsDistinct(keyOrder, category);
      attentionItems := attentionItems - {category};
      keyOrder := RemoveKey(keyOrder, category);
    }

    /**
     * `(attentionItems[category] ??= []).splice(index, count, ...items)`: the
     * category exists afterwards even when the edit leaves it empty.
     */
    method SpliceAttentionItems(category: string, index: int, count: Option<int>, items: seq<Value>) returns (outcome: Outcome)
      requires Valid()
      modifies this
      ensures Valid()
      ensures outcome == if InheritedMember(category) then TypeError else Normal
      ensures memories == old(memories)
      ensures outcome == TypeError ==> attentionItems == old(attentionItems) && keyOrder == old(keyOrder)
      ensures outcome == Normal ==>
        && attentionItems == old(attentionItems)[category := Spliced(ItemsOf(old(attentionItems), category), index, ForwardedCount(count), items)]
        && keyOrder == AddKey(old(keyOrder), category)
    {
      outcome := EnsureCategory(category);
      if outcome == Normal {
        attentionItems := attentionItems[category := Spliced(attentionItems[category], index, ForwardedCount(count), items)];
      }
    }

    /** The values getMemories yields, in order: the stored values themselves. */
    method GetMemories() returns (yielded: seq<Value>)
      ensures yielded == memories
    {
      yielded := [];
      for i := 0 to |memories|
        invariant yielded == memories[..i]
      {
        yielded := yielded + [memories[i]];
      }
    }

    /** The entries getAttentionItems yields. */
    method GetAttentionItems() returns (yielded: seq<ContextItem>)
      requires Valid()
      ensures yielded == AttentionMessages(VisitOrder(), attentionItems)
    {
      var order := OwnKeys(keyOrder);
      OwnKeysPermutes(keyOrder);
      var message := BuildMessage(order, attentionItems);
      if |message| > 0 {
        yielded := [ContextItem(None, "user", JoinLines(message))];
      } else {
        yielded := [];
      }
    }
  }

  /** The nested loops of getAttentionItems that fill `message`, over the categories in visiting order. */
  method BuildMessage(order: seq<string>, cats: map<string, seq<Value>>) returns (message: seq<string>)
    requires forall k :: k in order ==> k in cats
    ensures message == MessageLines(order, cats)
  {
    message := [];
    for i := 0 to |order|
      invariant message == MessageLines(order[..i], cats)
    {
      var category := order[i];
      var items := cats[category];
      MessageLinesStep(order, i, cats);
      if |items| > 0 {
        message := AppendItemLines(message + [category], items);
      }
    }
    assert order[..|order|] == order;
  }

  /** The inner loop of getAttentionItems: one `- item` line per item, appended to `message`. */
  method AppendItemLines(message: seq<string>, items: seq<Value>) returns (r: seq<string>)
    ensures r == message + ItemLines(items)
  {
    r := message;
    for j := 0 to |items|
      invariant r == message + ItemLines(items[..j])
    {
      ItemLinesStep(items, j);
      r := r + ["- " + ToText(items[j])];
    }
    assert items[..|items|] == items;
  }

  /**
   * An empty category and a missing one are indistinguishable in the emitted
   * entry: deleting a category that holds no items changes nothing there.
   */
  lemma EmptyCategoryInvisible(keyOrder: seq<string>, cats: map<string, seq<Value>>, k: string)
    requires ItemsOf(cats, k) == []
    ensures AttentionMessages(OwnKeys(RemoveKey(keyOrder, k)), cats - {k}) == AttentionMessages(OwnKeys(keyOrder), cats)
  {
    OwnKeysRemove(keyOrder, k);
    EmptyCategoryContributesNothing(OwnKeys(keyOrder), cats, k);
  }
}
