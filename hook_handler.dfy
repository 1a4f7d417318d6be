/**
 * The `handlers` package's `HookHandler`: the newer push webhook.  It picks
 * the changed `.sql` files out of the event, hands each to the file processor
 * in order, stops at the first failure, and passes everything found to the
 * migration manager.  The JSON decoder, the signature validator, the file
 * processor and the manager are oracles.
 */
module Handlers {
  import opened Wrappers
  import opened SqlText
  import opened Api
  import opened PushEvents

  /** `ProcessFile(repoName, path, commit)`: the candidates of one file, or an error. */
  type FileProcessor = (Text, Text, Text) -> Outcome

  /** The handler's collaborators. */
  datatype HookHandler = HookHandler(
    validator: (Request, Text) -> bool,
    migrationMgr: seq<MigrationProto> -> Option<Error>,
    migrationFileProcessor: FileProcessor)

  const FileFailedPrefix := "failed to process SQL file: "
  const ChangesFailed := "failed to process SQL changes"

  /** What the processor answers for each of `files`, asked for the pushed repository at the pushed commit. */
  function Outcomes(processor: FileProcessor, event: PushEvent, files: seq<Text>): (r: seq<Outcome>)
    ensures |r| == |files|
    ensures forall j :: 0 <= j < |files| ==> r[j] == processor(event.repository.fullName, files[j], event.after)
  {
    seq(|files|, j requires 0 <= j < |files| => processor(event.repository.fullName, files[j], event.after))
  }

  /** The event decoded and its signature accepted: the handler goes on to look at the event. */
  predicate Admitted(h: HookHandler, decode: Decoder, request: Request) {
    decode(request.body).Ok? && h.validator(request, request.body)
  }

  /** `getSQLFiles`: the added, then the modified, `.sql` paths of each commit, commit by commit. */
  method GetSQLFiles(event: PushEvent) returns (sqlFiles: seq<Text>)
    ensures sqlFiles == SqlFiles(event.commits)
  {
    sqlFiles := [];
    for i := 0 to |event.commits|
      invariant sqlFiles == SqlFiles(event.commits[..i])
    {
      var commit := event.commits[i];
      assert event.commits[..i + 1][..i] == event.commits[..i];
      sqlFiles := AppendSqlPaths(sqlFiles, commit.added);
      sqlFiles := AppendSqlPaths(sqlFiles, commit.modified);
    }
    assert event.commits[..|event.commits|] == event.commits;
  }

  /** One inner loop of `getSQLFiles`: the `.sql` paths of `paths` appended in order. */
  method AppendSqlPaths(files: seq<Text>, paths: seq<Text>) returns (r: seq<Text>)
    ensures r == files + SqlPaths(paths)
  {
    r := files;
    for j := 0 to |paths|
      invariant r == files + SqlPaths(paths[..j])
    {
      assert paths[..j + 1][..j] == paths[..j];
      if HasSuffix(paths[j], SqlSuffix) {
        r := r + [paths[j]];
      }
    }
    assert paths[..|paths|] == paths;
  }

  /**
   * `HandlePush`.  `processed` lists the files handed to the processor, in
   * order; `batch` is what the manager was given, `None` when it was not
   * called.  The checks come in the source's order: decoding, then the
   * signature, then the branch, then whether any `.sql` file changed.
   */
  method HandlePush(h: HookHandler, decode: Decoder, request: Request)
    returns (reply: Reply, processed: seq<FileMetadata>, batch: Option<seq<MigrationProto>>)
    ensures decode(request.body).Err? ==>
      reply == DecodeFailed(decode(request.body).error) && processed == [] && batch.None?
    ensures decode(request.body).Ok? && !h.validator(request, request.body) ==>
      reply == InvalidSignature && processed == [] && batch.None?
    ensures (Admitted(h, decode, request) &&
             (decode(request.body).value.ref != MasterRef || SqlFiles(decode(request.body).value.commits) == [])) ==>
      reply == NoContent && processed == [] && batch.None?
    ensures Admitted(h, decode, request) && decode(request.body).value.ref == MasterRef ==>
      var event := decode(request.body).value;
      var files := SqlFiles(event.commits);
      match Gather(Outcomes(h.migrationFileProcessor, event, files))
      case Err((i, _)) =>
        && i < |files|
        && reply == Internal(Failure(FileFailedPrefix + files[i]))
        && processed == Requests(event, files[..i + 1])
        && batch.None?
      case Ok(all) =>
        && processed == Requests(event, files)
        && (files != [] ==> batch == Some(all))
        && (files != [] && h.migrationMgr(all).None? ==> reply == NoContent)
        && (files != [] && h.migrationMgr(all).Some? ==> reply == Internal(Wrapped(ChangesFailed, h.migrationMgr(all).value)))
  {
    processed, batch := [], None;
    var decoded := decode(request.body);
    if decoded.Err? {
      return DecodeFailed(decoded.error), processed, batch;
    }
    var event := decoded.value;
    if !h.validator(request, request.body) {
      return InvalidSignature, processed, batch;
    }
    if event.ref != MasterRef {
      return NoContent, processed, batch;
    }
    var sqlFiles := GetSQLFiles(event);
    if |sqlFiles| == 0 {
      return NoContent, processed, batch;
    }

    var migrationPrototypes: seq<MigrationProto> := [];
    for i := 0 to |sqlFiles|
      invariant Gather(Outcomes(h.migrationFileProcessor, event, sqlFiles[..i])) == Ok(migrationPrototypes)
      invariant processed == Requests(event, sqlFiles[..i])
    {
      var file := sqlFiles[i];
      processed := processed + [FileMetadata(event.repository.fullName, file, event.after)];
      var proto := h.migrationFileProcessor(event.repository.fullName, file, event.after);
      FileStep(h.migrationFileProcessor, event, sqlFiles, i);
      if proto.Err? {
        GatherStops(Outcomes(h.migrationFileProcessor, event, sqlFiles), i + 1);
        return Internal(Failure(FileFailedPrefix + file)), processed, None;
      }
      migrationPrototypes := migrationPrototypes + proto.value;
    }
    assert sqlFiles[..|sqlFiles|] == sqlFiles;

    batch := Some(migrationPrototypes);
    var err := h.migrationMgr(migrationPrototypes);
    if err.Some? {
      return Internal(Wrapped(ChangesFailed, err.value)), processed, batch;
    }
    return NoContent, processed, batch;
  }

  /** One more file processed: its outcome and its request are appended. */
  lemma FileStep(processor: FileProcessor, event: PushEvent, files: seq<Text>, i: nat)
    requires i < |files|
    ensures Outcomes(processor, event, files[..i + 1]) ==
      Outcomes(processor, event, files[..i]) + [processor(event.repository.fullName, files[i], event.after)]
    ensures Outcomes(processor, event, files[..i + 1]) == Outcomes(processor, event, files)[..i + 1]
    ensures Requests(event, files[..i + 1]) ==
      Requests(event, files[..i]) + [FileMetadata(event.repository.fullName, files[i], event.after)]
    ensures Gather(Outcomes(processor, event, files[..i + 1])) ==
      match Gather(Outcomes(processor, event, files[..i]))
      case Err(failure) => Err(failure)
      case Ok(acc) =>
        (match processor(event.repository.fullName, files[i], event.after)
         case Err(e) => Err((i, e))
         case Ok(ps) => Ok(acc + ps))
  {
    GatherStep(Outcomes(processor, event, files[..i]), processor(event.repository.fullName, files[i], event.after));
  }
}
