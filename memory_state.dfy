/**
 * The MemoryState agent state slice: the agent's list of short-term memories,
 * with its reset, serialize/deserialize and show hooks. The `memories` field
 * holds a reference to an array object, so the model keeps that identity:
 * serialize shares it, while the constructor and deserialize make copies.
 */
module MemoryStateSlice {
  import opened Wrappers
  import opened Decimal
  import opened Arrays

  /**
   * An object with an optional `memories` array: what serialize returns and
   * what the constructor and deserialize accept.
   */
  datatype Snapshot = Snapshot(memories: Option<JsArray<string>>)

  /** The reset tags that clear the memories. */
  predicate ClearsMemories(what: seq<string>) {
    "chat" in what || "memory" in what
  }

  // ----- The text of show() -----

  /** The line for the memory at 0-based position i: `"  [" + (i + 1) + "] " + m`. */
  function MemoryLine(i: nat, m: string): string {
    "  [" + ToDecimal(i + 1) + "] " + m
  }

  /** `memories.map((m, i) => MemoryLine(i, m))`. */
  function MemoryLines(ms: seq<string>): (r: seq<string>)
    ensures |r| == |ms|
  {
    if ms == [] then [] else MemoryLines(ms[..|ms| - 1]) + [MemoryLine(|ms| - 1, ms[|ms| - 1])]
  }

  /** Line i of the listing is memory i, numbered i + 1. */
  lemma {:induction false} MemoryLinesAt(ms: seq<string>, i: nat)
    requires i < |ms|
    ensures MemoryLines(ms)[i] == MemoryLine(i, ms[i])
  {
    if i < |ms| - 1 {
      MemoryLinesAt(ms[..|ms| - 1], i);
    }
  }

  /** What show() returns for the memories `ms`. */
  function ShowLines(ms: seq<string>): seq<string> {
    ["Memories: " + ToDecimal(|ms|)] + MemoryLines(ms)
  }

  /**
   * show() gives n + 1 lines: a count header, then memory k on line k with the
   * 1-based label k, in store order.
   */
  lemma ShowLinesShape(ms: seq<string>)
    ensures |ShowLines(ms)| == |ms| + 1
    ensures ShowLines(ms)[0] == "Memories: " + ToDecimal(|ms|)
    ensures forall k :: 1 <= k <= |ms| ==> ShowLines(ms)[k] == "  [" + ToDecimal(k) + "] " + ms[k - 1]
  {
    forall k | 1 <= k <= |ms|
      ensures ShowLines(ms)[k] == "  [" + ToDecimal(k) + "] " + ms[k - 1]
    {
      MemoryLinesAt(ms, k - 1);
    }
  }

  /** The header's number reads back as the number of memories. */
  lemma ShowCountReadsBack(ms: seq<string>)
    ensures ShowLines(ms)[0][..10] == "Memories: "
    ensures Canonical(ShowLines(ms)[0][10..])
    ensures DigitsValue(ShowLines(ms)[0][10..]) == |ms|
  {
    var h := ShowLines(ms)[0];
    assert h[10..] == ToDecimal(|ms|);
    ValueOfDecimal(|ms|);
  }

  /** In a digit run followed by "] ", the first character that is not a digit is the bracket. */
  lemma BracketAfterDigits(d: string, m: string)
    requires AllDigits(d)
    ensures (d + "] " + m)[|d|] == ']'
    ensures forall i :: 0 <= i < |d| ==> IsDigit((d + "] " + m)[i])
  {
  }

  /** A digit run ended by "] " is recovered from the concatenation. */
  lemma DigitsThenBracket(da: string, db: string, m: string, n: string)
    requires AllDigits(da) && AllDigits(db)
    requires da + "] " + m == db + "] " + n
    ensures da == db && m == n
  {
    var l, r := da + "] " + m, db + "] " + n;
    BracketAfterDigits(da, m);
    BracketAfterDigits(db, n);
    assert |da| == |db|;
    assert da == l[..|da|] == r[..|db|] == db;
    assert m == l[|da| + 2..] == r[|db| + 2..] == n;
  }

  /** Distinct positions or distinct memories always give distinct show lines. */
  lemma MemoryLineInjective(i: nat, m: string, j: nat, n: string)
    requires MemoryLine(i, m) == MemoryLine(j, n)
    ensures i == j && m == n
  {
    var da, db := ToDecimal(i + 1), ToDecimal(j + 1);
    var l, r := MemoryLine(i, m), MemoryLine(j, n);
    assert l[3..] == da + "] " + m;
    assert r[3..] == db + "] " + n;
    DigitsThenBracket(da, db, m, n);
    ValueOfDecimal(i + 1);
    ValueOfDecimal(j + 1);
  }

  /** The agent state slice holding the short-term memories. */
  class MemoryState {
    const name: string := "MemoryState"
    /** Sub-agents receive a copy of this slice. */
    const persistToSubAgents: bool := true
    var memories: JsArray<string>

    /** `new MemoryState({memories = []} = {})`: stores a copy of the given array, or an empty one. */
    constructor (data: Snapshot)
      ensures fresh(memories)
      ensures memories.elems == if data.memories.Some? then data.memories.value.elems else []
    {
      var init := if data.memories.Some? then data.memories.value.elems else [];
      memories := new JsArray(init);
    }

    /**
     * `reset(what)`: the "chat" and "memory" tags put a new empty array in
     * place; the array that was there before keeps its contents.
     */
    method Reset(what: seq<string>)
      modifies this
      ensures ClearsMemories(what) ==> fresh(memories) && memories.elems == []
      ensures !ClearsMemories(what) ==> memories == old(memories)
      ensures old(memories).elems == old(memories.elems)
    {
      if ClearsMemories(what) {
        memories := new JsArray([]);
      }
    }

    /** `serialize()`: an object sharing this slice's own array, not a copy of it. */
    function Serialize(): (r: Snapshot)
      reads this
      ensures r.memories.Some?
    {
      Snapshot(Some(memories))
    }

    /** `deserialize(data)`: a copy of `data.memories`, or an empty array when the field is missing. */
    method Deserialize(data: Snapshot)
      modifies this
      ensures fresh(memories)
      ensures memories.elems == if data.memories.Some? then old(data.memories.value.elems) else []
      ensures old(memories).elems == old(memories.elems)
    {
      var init := if data.memories.Some? then data.memories.value.elems else [];
      memories := new JsArray(init);
    }

    /** `show()`: the count header, then one numbered line per memory. */
    function Show(): (r: seq<string>)
      reads this, memories
      ensures |r| == |memories.elems| + 1
      ensures r[0] == "Memories: " + ToDecimal(|memories.elems|)
      ensures forall k :: 1 <= k <= |memories.elems| ==> r[k] == "  [" + ToDecimal(k) + "] " + memories.elems[k - 1]
    {
      ShowLinesShape(memories.elems);
      ShowLines(memories.elems)
    }
  }

  /** A sub-agent's slice: `new MemoryState(parent.serialize())`. */
  method Fork(parent: MemoryState) returns (child: MemoryState)
    ensures fresh(child) && fresh(child.memories)
    ensures child.memories.elems == parent.memories.elems
  {
    child := new MemoryState(parent.Serialize());
  }

  /**
   * Forked slices are independent: after a fork, a push on the child and a
   * push on the parent each stay on their own side.
   */
  method ForkThenDiverge(parent: MemoryState, x: string, y: string) returns (child: MemoryState)
    modifies parent.memories
    ensures child.memories.elems == old(parent.memories.elems) + [x]
    ensures parent.memories.elems == old(parent.memories.elems) + [y]
  {
    child := Fork(parent);
    child.memories.Push(x);
    parent.memories.Push(y);
  }

  /** A serialized snapshot is a view: a later push on the slice shows through it. */
  method SnapshotThenPush(state: MemoryState, x: string) returns (snap: Snapshot)
    modifies state.memories
    ensures snap.memories == Some(state.memories)
    ensures snap.memories.value.elems == old(state.memories.elems) + [x]
  {
    snap := state.Serialize();
    state.memories.Push(x);
  }

  /**
   * `deserialize(serialize(s))` into another slice gives equal memories in
   * storage of its own.
   */
  method RoundTrip(s: MemoryState) returns (t: MemoryState)
    ensures fresh(t) && fresh(t.memories)
    ensures t.memories.elems == s.memories.elems
  {
    t := new MemoryState(Snapshot(None));
    t.Deserialize(s.Serialize());
  }
}
