/** What the pools execute and the sources deliver. */
module Tasks {
  newtype Byte = b: int | 0 <= b < 256

  /** A routing key; the empty key means "no key". */
  type Key = seq<Byte>

  /** One submission of a task: `id` tells submissions apart, `stream` and `key` describe
      the message the task handles (a pool never looks at them; a keyed pool uses `key`). */
  datatype Task = Task(id: nat, stream: string, key: Key)
}
