/**
 * The boundary with the key-value store. Every backend call a handler can make is a `Request`
 * value; what the call produced comes back to the handler as a `Reply` value. The store itself
 * is not modelled.
 */
module Backend {
  import opened Wrappers
  import opened JsValues
  import opened UpdateExpression

  /** An attribute value as the handlers write it: a string, or the result of `Number(...)`. */
  datatype AttributeValue = Str(s: string) | Number(n: JsNumber)

  /** A stored record: attribute name to value. */
  type Item = map<string, AttributeValue>

  /** A primary key: the key attribute's name and its numeric value. */
  datatype Key = Key(attribute: string, value: JsNumber)

  /** The table name the process was configured with; it never changes while serving. */
  datatype Config = Config(tableName: string)

  /** The backend calls the handlers issue: scan, get, put, update and delete. */
  datatype Request =
    | Scan(table: string)
    | Get(table: string, key: Key)
    | Put(table: string, item: Item)
    | Update(table: string, key: Key, instruction: UpdateInstruction)
    | Delete(table: string, key: Key)

  /** The settled promise of a backend call: rejected with an error, or resolved with a result
      object whose optional `Items` (scan) and `Item` (get) properties the handlers read. */
  datatype Reply = Rejected | Resolved(items: Option<seq<Item>>, item: Option<Item>)
}
