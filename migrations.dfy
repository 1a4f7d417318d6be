/**
 * The older `migrations` package's `MigrationManager`.  Its `filterCompleted`
 * is the same code as the `managers` one and is modelled once, by
 * `Managers.FilterCompleted`; its `ProcessMigrations` differs in dropping
 * whatever `BulkInsert` returns.
 */
module Migrations {
  import opened Wrappers
  import opened Api
  import M = Managers

  const ProcessFetchFailed := "failed to fetch migrations while processing migrations"

  /**
   * `ProcessMigrations`: filter the batch, then bulk-insert what is new.  A
   * failing lookup is the only error reported; the insert is attempted with
   * the filtered candidates and its outcome is ignored.  `inserted` is the
   * batch handed to `BulkInsert`, `None` when it is not called.
   */
  method ProcessMigrations(pending: seq<MigrationProto>, lookup: M.Lookup, bulkInsert: M.Inserter)
    returns (err: Option<Error>, inserted: Option<seq<MigrationProto>>)
    ensures lookup(M.Signatures(pending)).Err? ==>
      && inserted.None?
      && err == Some(Wrapped(ProcessFetchFailed, Wrapped(M.FetchFailed, lookup(M.Signatures(pending)).error)))
    ensures lookup(M.Signatures(pending)).Ok? ==>
      && err.None?
      && inserted.Some?
      && M.Enumerates(inserted.value, M.Survivors(pending, lookup(M.Signatures(pending)).value))
  {
    var incomplete := M.FilterCompleted(pending, lookup);
    if incomplete.Err? {
      return Some(Wrapped(ProcessFetchFailed, incomplete.error)), None;
    }
    var ignored := bulkInsert(incomplete.value);
    return None, Some(incomplete.value);
  }
}
