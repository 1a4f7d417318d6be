/**
 * The `hooks` package's `HookManager`: the older push webhook.  For each
 * changed `.sql` file it fetches the file's text at the pushed commit and
 * parses it, stopping at the first failure, and then passes everything found
 * to the migration manager, even when no file matched.  The JSON decoder,
 * the HMAC check, the fetcher, the parser and the manager are oracles.
 */
module Hooks {
  import opened Wrappers
  import opened SqlText
  import opened Api
  import opened PushEvents

  /** The manager's collaborators; `signatureValid` stands for `validateSignature` with the secret. */
  datatype HookManager = HookManager(
    signatureValid: (Request, Text) -> bool,
    migrationMgr: seq<MigrationProto> -> Option<Error>,
    gitFileFetcher: FileMetadata -> Result<Text, Error>,
    sqlFileParser: Text -> Outcome)

  const FetchFailedPrefix := "failed to fetch file "
  const FileFailedPrefix := "failed to process file "
  const ChangesFailed := "failed to process SQL changes"
  const MigrationsFailed := "failed to process migrations"

  /** What processing one file gives: the fetch error, wrapped, or whatever the parser makes of the text. */
  function FileResult(h: HookManager, metadata: FileMetadata): Outcome {
    match h.gitFileFetcher(metadata)
    case Err(e) => Err(Wrapped(FetchFailedPrefix + metadata.path, e))
    case Ok(content) => h.sqlFileParser(content)
  }

  /** The outcome for each of `files`, fetched from the pushed repository at the pushed commit. */
  function FileOutcomes(h: HookManager, event: PushEvent, files: seq<Text>): (r: seq<Outcome>)
    ensures |r| == |files|
    ensures forall j :: 0 <= j < |files| ==> r[j] == FileResult(h, FileMetadata(event.repository.fullName, files[j], event.after))
  {
    seq(|files|, j requires 0 <= j < |files| => FileResult(h, FileMetadata(event.repository.fullName, files[j], event.after)))
  }

  /** The event decoded and its signature accepted. */
  predicate Admitted(h: HookManager, decode: Decoder, request: Request) {
    decode(request.body).Ok? && h.signatureValid(request, request.body)
  }

  /**
   * `processFile`: fetch, then parse.  `parsed` is the text handed to the
   * parser, `None` when the fetch failed and the parser was not called.
   */
  method ProcessFile(h: HookManager, repoName: Text, path: Text, commit: Text) returns (r: Outcome, parsed: Option<Text>)
    ensures h.gitFileFetcher(FileMetadata(repoName, path, commit)).Err? ==>
      && parsed.None?
      && r == Err(Wrapped(FetchFailedPrefix + path, h.gitFileFetcher(FileMetadata(repoName, path, commit)).error))
    ensures h.gitFileFetcher(FileMetadata(repoName, path, commit)).Ok? ==>
      && parsed == Some(h.gitFileFetcher(FileMetadata(repoName, path, commit)).value)
      && r == h.sqlFileParser(parsed.value)
  {
    var metadata := FileMetadata(repoName, path, commit);
    var content := h.gitFileFetcher(metadata);
    if content.Err? {
      return Err(Wrapped(FetchFailedPrefix + metadata.path, content.error)), None;
    }
    var foundMigrations := h.sqlFileParser(content.value);
    if foundMigrations.Err? {
      return Err(foundMigrations.error), Some(content.value);
    }
    return Ok(foundMigrations.value), Some(content.value);
  }

  /**
   * `processSQLFiles`: the files `SqlFiles` selects, processed in that
   * order, their candidates concatenated; at the first failure the file is
   * named in the error and nothing found so far is returned.  `requested`
   * lists the files handed to `processFile`.
   */
  method ProcessSQLFiles(h: HookManager, event: PushEvent) returns (r: Result<seq<MigrationProto>, Error>, requested: seq<FileMetadata>)
    ensures
      var files := SqlFiles(event.commits);
      match Gather(FileOutcomes(h, event, files))
      case Ok(all) => r == Ok(all) && requested == Requests(event, files)
      case Err((i, e)) =>
        && i < |files|
        && r == Err(Wrapped(FileFailedPrefix + files[i], e))
        && requested == Requests(event, files[..i + 1])
  {
    var commits := event.commits;
    var migrationPrototypes: seq<MigrationProto> := [];
    requested := [];
    for i := 0 to |commits|
      invariant Gather(FileOutcomes(h, event, SqlFiles(commits[..i]))) == Ok(migrationPrototypes)
      invariant requested == Requests(event, SqlFiles(commits[..i]))
    {
      ghost var done := CommitPrefix(commits, i);
      var failure;
      failure, migrationPrototypes, requested :=
        ProcessCommit(h, event, commits[i], SqlFiles(commits[..i]), migrationPrototypes, requested);
      if failure.Some? {
        FailureStays(h, event, done, SqlFiles(commits), failure, migrationPrototypes, requested);
        return Err(failure.value), requested;
      }
    }
    assert commits[..|commits|] == commits;
    return Ok(migrationPrototypes), requested;
  }

  /**
   * What processing `files` in order leaves: with no failure, `acc` holds all
   * their candidates and every file was requested; otherwise `failure` names
   * the first file that failed, and the files up to it were requested.
   */
  predicate Processed(h: HookManager, event: PushEvent, files: seq<Text>,
                      failure: Option<Error>, acc: seq<MigrationProto>, requested: seq<FileMetadata>) {
    match Gather(FileOutcomes(h, event, files))
    case Ok(all) => failure.None? && acc == all && requested == Requests(event, files)
    case Err((k, e)) =>
      && k < |files|
      && failure == Some(Wrapped(FileFailedPrefix + files[k], e))
      && requested == Requests(event, files[..k + 1])
  }

  /** A failure among the files `v` stays the outcome of any longer list `w` that starts with them. */
  lemma FailureStays(h: HookManager, event: PushEvent, v: seq<Text>, w: seq<Text>,
                     failure: Option<Error>, acc: seq<MigrationProto>, requested: seq<FileMetadata>)
    requires |v| <= |w| && w[..|v|] == v
    requires Gather(FileOutcomes(h, event, v)).Err? && Processed(h, event, v, failure, acc, requested)
    ensures Processed(h, event, w, failure, acc, requested)
  {
    StopsAt(h, event, v, w);
  }

  /** The files of the first `i + 1` commits, which the files of the whole push start with. */
  lemma CommitPrefix(commits: seq<Commit>, i: nat) returns (done: seq<Text>)
    requires i < |commits|
    ensures done == SqlFiles(commits[..i]) + CommitFiles(commits[i])
    ensures done == SqlFiles(commits[..i + 1])
    ensures |done| <= |SqlFiles(commits)| && SqlFiles(commits)[..|done|] == done
  {
    done := SqlFiles(commits[..i]) + CommitFiles(commits[i]);
    SqlFilesStep(commits, i);
    assert commits == commits[..i] + [commits[i]] + commits[i + 1..];
    SqlFilesSplit(commits[..i], commits[i], commits[i + 1..]);
  }

  /**
   * The body of the outer loop of `processSQLFiles`: the added, then the
   * modified, `.sql` paths of one commit processed after the files `visited`,
   * whose candidates are `acc`.
   */
  method ProcessCommit(h: HookManager, event: PushEvent, commit: Commit, ghost visited: seq<Text>,
                       acc: seq<MigrationProto>, requested: seq<FileMetadata>)
    returns (failure: Option<Error>, acc': seq<MigrationProto>, requested': seq<FileMetadata>)
    requires Gather(FileOutcomes(h, event, visited)) == Ok(acc)
    requires requested == Requests(event, visited)
    ensures Processed(h, event, visited + CommitFiles(commit), failure, acc', requested')
  {
    var added := visited + SqlPaths(commit.added);
    assert visited + CommitFiles(commit) == added + SqlPaths(commit.modified);
    failure, acc', requested' := ProcessPaths(h, event, commit.added, visited, acc, requested);
    if failure.Some? {
      FailureStays(h, event, added, visited + CommitFiles(commit), failure, acc', requested');
      return;
    }
    failure, acc', requested' := ProcessPaths(h, event, commit.modified, added, acc', requested');
  }

  /**
   * One inner loop of `processSQLFiles`: the `.sql` paths of `paths`
   * processed after the files `visited`, whose candidates are `acc`.  On
   * success every file's candidates are appended; at the first failure the
   * wrapped error is returned.
   */
  method ProcessPaths(h: HookManager, event: PushEvent, paths: seq<Text>, ghost visited: seq<Text>,
                      acc: seq<MigrationProto>, requested: seq<FileMetadata>)
    returns (failure: Option<Error>, acc': seq<MigrationProto>, requested': seq<FileMetadata>)
    requires Gather(FileOutcomes(h, event, visited)) == Ok(acc)
    requires requested == Requests(event, visited)
    ensures Processed(h, event, visited + SqlPaths(paths), failure, acc', requested')
  {
    failure, acc', requested' := None, acc, requested;
    ghost var seen := visited;
    for j := 0 to |paths|
      invariant seen == visited + SqlPaths(paths[..j])
      invariant failure.None? && Gather(FileOutcomes(h, event, seen)) == Ok(acc')
      invariant requested' == Requests(event, seen)
    {
      ghost var next := PathPrefix(visited, paths, j);
      failure, acc', requested' := VisitPath(h, event, paths[j], seen, acc', requested');
      seen := next;
      if failure.Some? {
        FailureStays(h, event, seen, visited + SqlPaths(paths), failure, acc', requested');
        return;
      }
    }
    assert paths[..|paths|] == paths;
  }

  /**
   * The body of the inner loop of `processSQLFiles`: a `.sql` path is
   * processed after the files `seen`, whose candidates are `acc`; any other
   * path is passed over.
   */
  method VisitPath(h: HookManager, event: PushEvent, file: Text, ghost seen: seq<Text>,
                   acc: seq<MigrationProto>, requested: seq<FileMetadata>)
    returns (failure: Option<Error>, acc': seq<MigrationProto>, requested': seq<FileMetadata>)
    requires Gather(FileOutcomes(h, event, seen)) == Ok(acc)
    requires requested == Requests(event, seen)
    ensures Processed(h, event, seen + (if HasSuffix(file, SqlSuffix) then [file] else []), failure, acc', requested')
  {
    failure, acc', requested' := None, acc, requested;
    if HasSuffix(file, SqlSuffix) {
      var protos, _ := ProcessFile(h, event.repository.fullName, file, event.after);
      requested' := requested' + [FileMetadata(event.repository.fullName, file, event.after)];
      VisitStep(h, event, seen, file);
      if protos.Err? {
        assert (seen + [file])[..|seen| + 1] == seen + [file];
        return Some(Wrapped(FileFailedPrefix + file, protos.error)), acc', requested';
      }
      acc' := acc' + protos.value;
    } else {
      assert seen + [] == seen;
    }
  }

  /** The files up to path `j`, which the files of all of `paths` start with. */
  lemma PathPrefix(visited: seq<Text>, paths: seq<Text>, j: nat) returns (next: seq<Text>)
    requires j < |paths|
    ensures next == visited + SqlPaths(paths[..j + 1])
    ensures next == visited + SqlPaths(paths[..j]) + (if HasSuffix(paths[j], SqlSuffix) then [paths[j]] else [])
    ensures |next| <= |visited + SqlPaths(paths)| && (visited + SqlPaths(paths))[..|next|] == next
  {
    next := visited + SqlPaths(paths[..j + 1]);
    assert paths[..j + 1][..j] == paths[..j];
    assert paths == paths[..j + 1] + paths[j + 1..];
    SqlPathsAppend(paths[..j + 1], paths[j + 1..]);
  }

  /** One more file processed: its outcome and its request are appended. */
  lemma VisitStep(h: HookManager, event: PushEvent, seen: seq<Text>, file: Text)
    ensures FileOutcomes(h, event, seen + [file]) ==
      FileOutcomes(h, event, seen) + [FileResult(h, FileMetadata(event.repository.fullName, file, event.after))]
    ensures Requests(event, seen + [file]) ==
      Requests(event, seen) + [FileMetadata(event.repository.fullName, file, event.after)]
    ensures Gather(FileOutcomes(h, event, seen + [file])) ==
      match Gather(FileOutcomes(h, event, seen))
      case Err(failure) => Err(failure)
      case Ok(acc) =>
        (match FileResult(h, FileMetadata(event.repository.fullName, file, event.after))
         case Err(e) => Err((|seen|, e))
         case Ok(ps) => Ok(acc + ps))
  {
    assert FileOutcomes(h, event, seen + [file]) ==
      FileOutcomes(h, event, seen) + [FileResult(h, FileMetadata(event.repository.fullName, file, event.after))];
    GatherStep(FileOutcomes(h, event, seen), FileResult(h, FileMetadata(event.repository.fullName, file, event.after)));
  }

  /** A failure among the files `v` is the failure of any longer list `w` that starts with them. */
  lemma StopsAt(h: HookManager, event: PushEvent, v: seq<Text>, w: seq<Text>)
    requires |v| <= |w| && w[..|v|] == v
    requires Gather(FileOutcomes(h, event, v)).Err?
    ensures Gather(FileOutcomes(h, event, w)) == Gather(FileOutcomes(h, event, v))
    ensures Gather(FileOutcomes(h, event, v)).error.0 < |v|
    ensures w[Gather(FileOutcomes(h, event, v)).error.0] == v[Gather(FileOutcomes(h, event, v)).error.0]
    ensures w[..Gather(FileOutcomes(h, event, v)).error.0 + 1] == v[..Gather(FileOutcomes(h, event, v)).error.0 + 1]
  {
    assert FileOutcomes(h, event, w)[..|v|] == FileOutcomes(h, event, v);
    GatherStops(FileOutcomes(h, event, w), |v|);
    GatherFirstError(FileOutcomes(h, event, v));
  }

  /**
   * `HandlePush`.  `requested` lists the files handed to `processFile`, in
   * order; `batch` is what the manager was given, `None` when it was not
   * called.  On the master branch the manager is called even when no file
   * matched, with no candidates.
   */
  method HandlePush(h: HookManager, decode: Decoder, request: Request)
    returns (reply: Reply, requested: seq<FileMetadata>, batch: Option<seq<MigrationProto>>)
    ensures decode(request.body).Err? ==>
      reply == DecodeFailed(decode(request.body).error) && requested == [] && batch.None?
    ensures decode(request.body).Ok? && !h.signatureValid(request, request.body) ==>
      reply == InvalidSignature && requested == [] && batch.None?
    ensures Admitted(h, decode, request) && decode(request.body).value.ref != MasterRef ==>
      reply == NoContent && requested == [] && batch.None?
    ensures (Admitted(h, decode, request) && decode(request.body).value.ref == MasterRef &&
             SqlFiles(decode(request.body).value.commits) == []) ==>
      requested == [] && batch == Some([])
    ensures Admitted(h, decode, request) && decode(request.body).value.ref == MasterRef ==>
      var event := decode(request.body).value;
      var files := SqlFiles(event.commits);
      match Gather(FileOutcomes(h, event, files))
      case Err((i, e)) =>
        && i < |files|
        && reply == Internal(Wrapped(ChangesFailed, Wrapped(FileFailedPrefix + files[i], e)))
        && requested == Requests(event, files[..i + 1])
        && batch.None?
      case Ok(all) =>
        && requested == Requests(event, files)
        && batch == Some(all)
        && (h.migrationMgr(all).None? ==> reply == NoContent)
        && (h.migrationMgr(all).Some? ==> reply == Internal(Wrapped(MigrationsFailed, h.migrationMgr(all).value)))
  {
    requested, batch := [], None;
    var decoded := decode(request.body);
    if decoded.Err? {
      return DecodeFailed(decoded.error), requested, batch;
    }
    var event := decoded.value;
    if !h.signatureValid(request, request.body) {
      return InvalidSignature, requested, batch;
    }
    if event.ref != MasterRef {
      return NoContent, requested, batch;
    }

    var migrationPrototypes;
    migrationPrototypes, requested := ProcessSQLFiles(h, event);
    if migrationPrototypes.Err? {
      return Internal(Wrapped(ChangesFailed, migrationPrototypes.error)), requested, batch;
    }

    batch := Some(migrationPrototypes.value);
    var err := h.migrationMgr(migrationPrototypes.value);
    if err.Some? {
      return Internal(Wrapped(MigrationsFailed, err.value)), requested, batch;
    }
    return NoContent, requested, batch;
  }
}
