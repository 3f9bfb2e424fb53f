/**
 * The JavaScript values that flow through the modelled code paths, and the
 * records handed to the agent's prompt assembler.
 */
module Values {
  import opened Wrappers

  /**
   * What an `any`-typed slot of the store holds on the modelled paths:
   * `undefined` (an unguarded tool argument that was not given), a string, or
   * the `{role, content}` object that tools/add-memory.js stores as a memory.
   */
  datatype Value = Undefined | Str(s: string) | MemoryRecord(role: string, content: string)

  /**
   * The text a template-literal substitution `${v}` produces: ToString of
   * ECMA-262 section 7.1.17, and Object.prototype.toString (section 20.1.3.6)
   * for a plain object.
   */
  function ToText(v: Value): string {
    match v
    case Undefined => "undefined"
    case Str(s) => s
    case MemoryRecord(_, _) => "[object Object]"
  }

  /** A context entry; `position` is absent when the emitter does not set one. */
  datatype ContextItem = ContextItem(position: Option<string>, role: string, content: string)

  /** The outcome of a store call: it returns normally or throws a TypeError. */
  datatype Outcome = Normal | TypeError
}
