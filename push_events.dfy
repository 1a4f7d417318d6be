/**
 * What the two webhook orchestrators share: the push event GitHub sends,
 * the path filter that picks the changed `.sql` files out of it, the
 * concatenation of per-file results that stops at the first failure, and the
 * replies.
 */
module PushEvents {
  import opened Wrappers
  import opened SqlText
  import opened Api

  /** The branch whose pushes are processed. */
  const MasterRef: Text := "refs/heads/master"

  /** The suffix that marks a migration file. */
  const SqlSuffix: Text := ".sql"

  datatype Repository = Repository(name: Text, fullName: Text)

  /** One commit of a push: the paths it added, modified and removed. */
  datatype Commit = Commit(id: Text, message: Text, added: seq<Text>, modified: seq<Text>, removed: seq<Text>)

  /** The decoded body of a push webhook. */
  datatype PushEvent = PushEvent(ref: Text, before: Text, after: Text, repository: Repository, commits: seq<Commit>)

  /** An incoming request: its raw body and the signature header sent with it. */
  datatype Request = Request(body: Text, signature: Text)

  /** `DecodeJSON`: the event a body holds, or the decoding error. */
  type Decoder = Text -> Result<PushEvent, Error>

  /** `utils.FileMetadata`: which file to fetch, from which repository, at which commit. */
  datatype FileMetadata = FileMetadata(repoName: Text, path: Text, commit: Text)

  /** How a handler finishes: 204 No Content, or an error of one of three kinds. */
  datatype Reply = NoContent | BadRequest(error: Error) | Unauthorized(error: Error) | Internal(error: Error)

  /** The request the handlers answer before reading the event's contents. */
  function DecodeFailed(e: Error): Reply {
    BadRequest(Wrapped("failed to decode JSON", e))
  }

  const InvalidSignature: Reply := Unauthorized(Failure("Invalid webhook signature"))

  // ---- The path filter ----

  /** The paths of `paths` that end in `.sql`, in order, duplicates kept. */
  function SqlPaths(paths: seq<Text>): seq<Text>
    decreases |paths|
  {
    if paths == [] then []
    else
      var last := paths[|paths| - 1];
      SqlPaths(paths[..|paths| - 1]) + (if HasSuffix(last, SqlSuffix) then [last] else [])
  }

  /** The `.sql` paths of one commit: the added ones, then the modified ones. */
  function CommitFiles(c: Commit): seq<Text> {
    SqlPaths(c.added) + SqlPaths(c.modified)
  }

  /** The `.sql` paths of a push, commit by commit. */
  function SqlFiles(commits: seq<Commit>): seq<Text>
    decreases |commits|
  {
    if commits == [] then []
    else SqlFiles(commits[..|commits| - 1]) + CommitFiles(commits[|commits| - 1])
  }

  /** The number of added and modified entries of a push. */
  function Changed(commits: seq<Commit>): nat
    decreases |commits|
  {
    if commits == [] then 0
    else Changed(commits[..|commits| - 1]) + |commits[|commits| - 1].added| + |commits[|commits| - 1].modified|
  }

  /** The filter keeps order: filtering a concatenation concatenates the filtered parts. */
  lemma {:induction false} SqlPathsAppend(a: seq<Text>, b: seq<Text>)
    ensures SqlPaths(a + b) == SqlPaths(a) + SqlPaths(b)
    decreases |b|
  {
    if b != [] {
      var init, last := b[..|b| - 1], b[|b| - 1];
      var tail := if HasSuffix(last, SqlSuffix) then [last] else [];
      assert (a + b)[..|a + b| - 1] == a + init;
      assert (a + b)[|a + b| - 1] == last;
      SqlPathsAppend(a, init);
      calc {
        SqlPaths(a + b);
        SqlPaths(a + init) + tail;
        (SqlPaths(a) + SqlPaths(init)) + tail;
        SqlPaths(a) + (SqlPaths(init) + tail);
        SqlPaths(a) + SqlPaths(b);
      }
    } else {
      assert a + b == a;
    }
  }

  /** Every path the filter keeps ends in `.sql` and is one of its input. */
  lemma {:induction false} SqlPathsSound(paths: seq<Text>)
    ensures |SqlPaths(paths)| <= |paths|
    ensures forall k :: 0 <= k < |SqlPaths(paths)| ==> HasSuffix(SqlPaths(paths)[k], SqlSuffix) && SqlPaths(paths)[k] in paths
    decreases |paths|
  {
    if paths != [] {
      var init := paths[..|paths| - 1];
      SqlPathsSound(init);
      assert forall p :: p in init ==> p in paths;
    }
  }

  /** Every input path that ends in `.sql` is kept. */
  lemma {:induction false} SqlPathsComplete(paths: seq<Text>)
    ensures forall p :: p in paths && HasSuffix(p, SqlSuffix) ==> p in SqlPaths(paths)
    decreases |paths|
  {
    if paths != [] {
      var init := paths[..|paths| - 1];
      SqlPathsComplete(init);
      assert paths == init + [paths[|paths| - 1]];
    }
  }

  /** Commit order: the files of a longer push are those of its first commits, then those of the rest. */
  lemma {:induction false} SqlFilesAppend(a: seq<Commit>, b: seq<Commit>)
    ensures SqlFiles(a + b) == SqlFiles(a) + SqlFiles(b)
    decreases |b|
  {
    if b != [] {
      var init, last := b[..|b| - 1], b[|b| - 1];
      assert (a + b)[..|a + b| - 1] == a + init;
      assert (a + b)[|a + b| - 1] == last;
      SqlFilesAppend(a, init);
      calc {
        SqlFiles(a + b);
        SqlFiles(a + init) + CommitFiles(last);
        (SqlFiles(a) + SqlFiles(init)) + CommitFiles(last);
        SqlFiles(a) + (SqlFiles(init) + CommitFiles(last));
        SqlFiles(a) + SqlFiles(b);
      }
    } else {
      assert a + b == a;
    }
  }

  /** `p` is an added or modified path of one of the commits. */
  predicate ChangedIn(commits: seq<Commit>, p: Text) {
    exists i :: 0 <= i < |commits| && (p in commits[i].added || p in commits[i].modified)
  }

  /** The selected files of one commit are its added or modified paths that end in `.sql`. */
  lemma CommitFilesExactly(c: Commit, p: Text)
    ensures p in CommitFiles(c) <==> HasSuffix(p, SqlSuffix) && (p in c.added || p in c.modified)
  {
    SqlPathsSound(c.added);
    SqlPathsSound(c.modified);
    SqlPathsComplete(c.added);
    SqlPathsComplete(c.modified);
  }

  /** Cutting off the last commit. */
  lemma ChangedInLast(commits: seq<Commit>, p: Text)
    requires commits != []
    ensures ChangedIn(commits, p) <==>
      ChangedIn(commits[..|commits| - 1], p) || p in commits[|commits| - 1].added || p in commits[|commits| - 1].modified
  {
    var init := commits[..|commits| - 1];
    if ChangedIn(commits, p) {
      var i :| 0 <= i < |commits| && (p in commits[i].added || p in commits[i].modified);
      if i < |init| {
        assert init[i] == commits[i];
      }
    }
    if ChangedIn(init, p) {
      var i :| 0 <= i < |init| && (p in init[i].added || p in init[i].modified);
      assert init[i] == commits[i];
    }
  }

  /**
   * The selected files are exactly the added or modified paths, of any
   * commit, that end in `.sql`.
   */
  lemma {:induction false} SqlFilesExactly(commits: seq<Commit>, p: Text)
    ensures p in SqlFiles(commits) <==> HasSuffix(p, SqlSuffix) && ChangedIn(commits, p)
    decreases |commits|
  {
    if commits != [] {
      var init, c := commits[..|commits| - 1], commits[|commits| - 1];
      SqlFilesExactly(init, p);
      CommitFilesExactly(c, p);
      ChangedInLast(commits, p);
    }
  }

  /** Every selected path ends in `.sql`, and there are no more than the added and modified entries. */
  lemma {:induction false} SqlFilesBound(commits: seq<Commit>)
    ensures |SqlFiles(commits)| <= Changed(commits)
    ensures forall k :: 0 <= k < |SqlFiles(commits)| ==> HasSuffix(SqlFiles(commits)[k], SqlSuffix)
    decreases |commits|
  {
    if commits != [] {
      var init, c := commits[..|commits| - 1], commits[|commits| - 1];
      SqlFilesBound(init);
      SqlPathsSound(c.added);
      SqlPathsSound(c.modified);
      var files := SqlFiles(commits);
      assert forall k :: |SqlFiles(init)| <= k < |files| ==> files[k] == CommitFiles(c)[k - |SqlFiles(init)|];
    }
  }

  /** Removed paths play no part: two pushes that add and modify the same paths select the same files. */
  lemma {:induction false} RemovedIgnored(a: seq<Commit>, b: seq<Commit>)
    requires |a| == |b|
    requires forall i :: 0 <= i < |a| ==> a[i].added == b[i].added && a[i].modified == b[i].modified
    ensures SqlFiles(a) == SqlFiles(b)
    decreases |a|
  {
    if a != [] {
      RemovedIgnored(a[..|a| - 1], b[..|b| - 1]);
    }
  }

  // ---- Concatenating per-file results ----

  /** What processing one file gives: its candidates or an error. */
  type Outcome = Result<seq<MigrationProto>, Error>

  /**
   * Going through the per-file outcomes in order and appending each file's
   * candidates, stopping at the first failure: the candidates of all files,
   * or the position of the failing file and its error.
   */
  function Gather(outcomes: seq<Outcome>): Result<seq<MigrationProto>, (nat, Error)>
    decreases |outcomes|
  {
    if outcomes == [] then Ok([])
    else
      match Gather(outcomes[..|outcomes| - 1])
      case Err(failure) => Err(failure)
      case Ok(acc) =>
        var last: nat := |outcomes| - 1;
        match outcomes[last]
        case Err(e) => Err((last, e))
        case Ok(ps) => Ok(acc + ps)
  }

  /** The candidates of all files, each file's in order, when every file succeeded. */
  function Concat(outcomes: seq<Outcome>): seq<MigrationProto>
    requires forall j :: 0 <= j < |outcomes| ==> outcomes[j].Ok?
    decreases |outcomes|
  {
    if outcomes == [] then []
    else Concat(outcomes[..|outcomes| - 1]) + outcomes[|outcomes| - 1].value
  }

  /** The concatenation succeeds exactly when every file does, and then holds their candidates in order. */
  lemma {:induction false} GatherOk(outcomes: seq<Outcome>)
    ensures Gather(outcomes).Ok? <==> forall j :: 0 <= j < |outcomes| ==> outcomes[j].Ok?
    ensures Gather(outcomes).Ok? ==> Gather(outcomes).value == Concat(outcomes)
    decreases |outcomes|
  {
    if outcomes != [] {
      var init := outcomes[..|outcomes| - 1];
      GatherOk(init);
      assert forall j :: 0 <= j < |init| ==> init[j] == outcomes[j];
    }
  }

  /** A failure names the first file that failed, with that file's error. */
  lemma {:induction false} GatherFirstError(outcomes: seq<Outcome>)
    ensures Gather(outcomes).Err? ==>
      && Gather(outcomes).error.0 < |outcomes|
      && outcomes[Gather(outcomes).error.0] == Err(Gather(outcomes).error.1)
      && forall j :: 0 <= j < Gather(outcomes).error.0 ==> outcomes[j].Ok?
    decreases |outcomes|
  {
    if outcomes != [] {
      var init := outcomes[..|outcomes| - 1];
      GatherFirstError(init);
      GatherOk(init);
      assert forall j :: 0 <= j < |init| ==> init[j] == outcomes[j];
    }
  }

  /** Once a file has failed, the files after it change nothing. */
  lemma {:induction false} GatherStops(outcomes: seq<Outcome>, n: nat)
    requires n <= |outcomes| && Gather(outcomes[..n]).Err?
    ensures Gather(outcomes) == Gather(outcomes[..n])
    decreases |outcomes| - n
  {
    if n < |outcomes| {
      assert outcomes[..n + 1][..n] == outcomes[..n];
      GatherStops(outcomes, n + 1);
    } else {
      assert outcomes[..n] == outcomes;
    }
  }

  /** Adding one more outcome: it is appended, unless a file has already failed. */
  lemma GatherStep(outcomes: seq<Outcome>, o: Outcome)
    ensures Gather(outcomes + [o]) ==
      match Gather(outcomes)
      case Err(failure) => Err(failure)
      case Ok(acc) => (match o case Err(e) => Err((|outcomes|, e)) case Ok(ps) => Ok(acc + ps))
  {
    assert (outcomes + [o])[..|outcomes|] == outcomes;
  }

  /** The files of a push split around one of its commits. */
  lemma SqlFilesSplit(front: seq<Commit>, c: Commit, back: seq<Commit>)
    ensures SqlFiles(front + [c] + back) == SqlFiles(front) + CommitFiles(c) + SqlFiles(back)
  {
    assert (front + [c])[..|front|] == front;
    SqlFilesAppend(front + [c], back);
  }

  /** The files of the first `i + 1` commits: those of the first `i`, then those of commit `i`. */
  lemma SqlFilesStep(commits: seq<Commit>, i: nat)
    requires i < |commits|
    ensures SqlFiles(commits[..i + 1]) == SqlFiles(commits[..i]) + CommitFiles(commits[i])
  {
    var front := commits[..i + 1];
    assert front[..i] == commits[..i] && front[i] == commits[i];
  }

  /** The fetch requests for `files`, all from the pushed repository at the pushed commit. */
  function Requests(event: PushEvent, files: seq<Text>): (r: seq<FileMetadata>)
    ensures |r| == |files|
    ensures forall j :: 0 <= j < |files| ==> r[j] == FileMetadata(event.repository.fullName, files[j], event.after)
  {
    seq(|files|, j requires 0 <= j < |files| => FileMetadata(event.repository.fullName, files[j], event.after))
  }
}
