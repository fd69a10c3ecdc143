/** What the stores see of the database: timestamps, errors and replies. */
module Backend {

  import opened Wrappers

  /** A point in time, in milliseconds since the epoch (`Date.getTime()`). */
  type Timestamp = int

  /** `1000 * 60 * 60 * 24`: the milliseconds in a day. */
  const MsPerDay: int := 86_400_000

  /** The `error` of a `{ data, error }` reply, or anything else a store call throws. */
  datatype StoreError = StoreError(message: string)

  /** A query's outcome: its `data`, or the `error` that makes the store throw. */
  type Reply<T> = Result<T, StoreError>
}
