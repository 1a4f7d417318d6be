/**
 * `parseMigrationHeader`: the `-- skip?:user:namespace:comment` line that
 * opens a migration block.  The text after one leading `--`, trimmed, is split
 * on its first three colons; the last field keeps any further colons.
 */
module HeaderParser {
  import opened Wrappers
  import opened SqlText
  import opened Api

  /** The text the fields are split from: one `--` dropped, then trimmed. */
  function HeaderInput(line: Text): Text {
    TrimSpace(TrimPrefix(line, "--"))
  }

  /** The first field marks a migration to skip when it reads `skip` in any case. */
  predicate IsSkipMarker(first: Text) {
    ToLower(TrimSpace(first)) == "skip"
  }

  /**
   * The fields once the first three colons are found (the code after the
   * `strings.Index` calls): `first`, `user` and `namespace` lie between
   * them and `comment` is the rest.  The first empty field among user,
   * namespace and comment is reported, otherwise the trimmed fields.
   */
  function FieldsResult(line: Text, first: Text, user: Text, namespace: Text, comment: Text): (r: Result<MigrationProto, Error>)
    ensures r.Ok? ==> r.value.user != [] && r.value.namespace != [] && r.value.comment != []
    ensures r.Ok? ==> Trimmed(r.value.user) && Trimmed(r.value.namespace) && Trimmed(r.value.comment)
    ensures r.Ok? ==> r.value.ddl == [] && r.value.signature == 0
    ensures r.Err? ==> r.error.InvalidHeader? && r.error.fault != NotEnoughParts && r.error.line == line
  {
    var shouldSkip := IsSkipMarker(first);
    var user := TrimSpace(user);
    var namespace := TrimSpace(namespace);
    var comment := TrimSpace(comment);
    if user == [] then Err(InvalidHeader(UserEmpty, line))
    else if namespace == [] then Err(InvalidHeader(NamespaceEmpty, line))
    else if comment == [] then Err(InvalidHeader(CommentEmpty, line))
    else Ok(MigrationProto(namespace, user, comment, [], shouldSkip, 0))
  }

  /**
   * The position of the first colon of `input` at or after `from`, or -1:
   * what `strings.Index(input[from:], ":")` reports, turned into a position
   * in `input` by adding `from` back, as the header code does after each
   * search (`NextColonIndex`).
   */
  function NextColon(input: Text, from: nat): (r: int)
    requires from <= |input|
    ensures r < 0 || from <= r < |input|
    decreases |input| - from
  {
    if from == |input| then -1
    else if input[from] == ':' then from
    else NextColon(input, from + 1)
  }

  /** The search from `from` is `strings.Index` on the rest of the input, shifted by `from`. */
  lemma {:induction false} NextColonIndex(input: Text, from: nat)
    requires from <= |input|
    ensures NextColon(input, from) == (var k := IndexOf(input[from..], ':'); if k < 0 then -1 else k + from)
    decreases |input| - from
  {
    if from < |input| {
      assert input[from..][0] == input[from];
      assert input[from..][1..] == input[from + 1..];
      NextColonIndex(input, from + 1);
    }
  }

  /**
   * The three `strings.Index` searches: the first colon of the input, the
   * first colon after it and the first colon after that; `None` when one
   * search fails.
   */
  function ColonPositions(input: Text): (r: Option<(nat, nat, nat)>)
    ensures r.Some? ==> r.value.0 < r.value.1 < r.value.2 < |input|
  {
    var userStart := NextColon(input, 0);
    if userStart < 0 then None
    else
      var namespaceStart := NextColon(input, userStart + 1);
      if namespaceStart < 0 then None
      else
        var commentStart := NextColon(input, namespaceStart + 1);
        if commentStart < 0 then None
        else Some((userStart, namespaceStart, commentStart))
  }

  /** `FieldsResult` on the four fields the colons at `i`, `j` and `k` delimit. */
  function FieldsAt(line: Text, input: Text, i: nat, j: nat, k: nat): (r: Result<MigrationProto, Error>)
    requires i < j < k < |input|
  {
    FieldsResult(line, input[..i], input[i + 1..j], input[j + 1..k], input[k + 1..])
  }

  /**
   * `parseMigrationHeader(line)`.  A parsed header has a non-empty user,
   * namespace and comment, each without surrounding white space; its DDL and
   * signature are filled in by the block parser.
   */
  function ParseMigrationHeader(line: Text): (r: Result<MigrationProto, Error>)
    ensures r.Ok? ==> r.value.user != [] && r.value.namespace != [] && r.value.comment != []
    ensures r.Ok? ==> Trimmed(r.value.user) && Trimmed(r.value.namespace) && Trimmed(r.value.comment)
    ensures r.Ok? ==> r.value.ddl == [] && r.value.signature == 0
  {
    var input := HeaderInput(line);
    match ColonPositions(input)
    case None => Err(InvalidHeader(NotEnoughParts, line))
    case Some((userStart, namespaceStart, commentStart)) =>
      FieldsAt(line, input, userStart, namespaceStart, commentStart)
  }

  /** With no `c` from `from` on, none is counted. */
  lemma {:induction false} NoneCounted(s: Text, c: Byte, from: nat)
    requires forall q :: from <= q < |s| ==> s[q] != c
    ensures Occurrences(s, c, from) == 0
    decreases |s| - from
  {
    if from < |s| {
      NoneCounted(s, c, from + 1);
    }
  }

  /** Counting from `from` passes the first `c` at `p` once. */
  lemma {:induction false} CountPast(s: Text, c: Byte, from: nat, p: nat)
    requires from <= p < |s| && s[p] == c
    requires forall q :: from <= q < p ==> s[q] != c
    ensures Occurrences(s, c, from) == 1 + Occurrences(s, c, p + 1)
    decreases p - from
  {
    if from < p {
      CountPast(s, c, from + 1, p);
    }
  }

  /**
   * `i`, `j` and `k` are the positions of the first three colons of `input`.
   */
  predicate ColonsAt(input: Text, i: nat, j: nat, k: nat) {
    && i < j < k < |input|
    && input[i] == ':' && input[j] == ':' && input[k] == ':'
    && forall p :: 0 <= p < k && p != i && p != j ==> input[p] != ':'
  }

  /** What one search reports: the first colon at or after `from`, or -1 when there is none. */
  lemma {:induction false} NextColonFirst(input: Text, from: nat)
    requires from <= |input|
    ensures NextColon(input, from) >= 0 ==> input[NextColon(input, from)] == ':'
    ensures forall q :: from <= q < |input| && (NextColon(input, from) < 0 || q < NextColon(input, from)) ==> input[q] != ':'
    decreases |input| - from
  {
    if from < |input| && input[from] != ':' {
      NextColonFirst(input, from + 1);
    }
  }

  /** A colon at `p` with none in `[from, p)` is what the search from `from` finds. */
  lemma {:induction false} NextColonIs(input: Text, from: nat, p: nat)
    requires from <= p < |input| && input[p] == ':'
    requires forall q :: from <= q < p ==> input[q] != ':'
    ensures NextColon(input, from) == p
    decreases p - from
  {
    if from < p {
      NextColonIs(input, from + 1, p);
    }
  }

  /** The searches find the first three colons. */
  lemma ColonPositionsAt(input: Text, i: nat, j: nat, k: nat)
    requires ColonsAt(input, i, j, k)
    ensures ColonPositions(input) == Some((i, j, k))
  {
    NextColonIs(input, 0, i);
    NextColonIs(input, i + 1, j);
    NextColonIs(input, j + 1, k);
    SearchesFind(input, i, j, k);
  }

  /** Three successful searches at `i`, `j` and `k` give those positions. */
  lemma SearchesFind(input: Text, i: nat, j: nat, k: nat)
    requires i < j < k < |input|
    requires NextColon(input, 0) == i && NextColon(input, i + 1) == j && NextColon(input, j + 1) == k
    ensures ColonPositions(input) == Some((i, j, k))
  {
  }

  /**
   * The whole behaviour on a header with three colons: the fields are the
   * text before the first colon, between the first and second, between the
   * second and third, and everything after the third.
   */
  lemma HeaderFields(line: Text, i: nat, j: nat, k: nat)
    requires ColonsAt(HeaderInput(line), i, j, k)
    ensures ParseMigrationHeader(line) == FieldsAt(line, HeaderInput(line), i, j, k)
  {
    ColonPositionsAt(HeaderInput(line), i, j, k);
  }

  /** A search that succeeds passes one colon; one that fails leaves none uncounted. */
  lemma NextColonCount(input: Text, from: nat)
    requires from <= |input|
    ensures NextColon(input, from) < 0 <==> Occurrences(input, ':', from) == 0
    ensures NextColon(input, from) >= 0 ==>
      Occurrences(input, ':', NextColon(input, from) + 1) == Occurrences(input, ':', from) - 1
  {
    NextColonFirst(input, from);
    var r := NextColon(input, from);
    if r < 0 {
      NoneCounted(input, ':', from);
    } else {
      CountPast(input, ':', from, r);
    }
  }

  /** The three searches all succeed exactly when the input holds at least three colons. */
  lemma ColonCount(input: Text)
    ensures ColonPositions(input).Some? <==> Occurrences(input, ':', 0) >= 3
  {
    NextColonCount(input, 0);
    SearchesFail(input);
    var u := NextColon(input, 0);
    if u >= 0 {
      NextColonCount(input, u + 1);
      var n := NextColon(input, u + 1);
      if n >= 0 {
        NextColonCount(input, n + 1);
        var c := NextColon(input, n + 1);
        if c >= 0 {
          SearchesFind(input, u, n, c);
        }
      }
    }
  }

  /** How the searches fail. */
  lemma SearchesFail(input: Text)
    ensures NextColon(input, 0) < 0 ==> ColonPositions(input).None?
    ensures NextColon(input, 0) >= 0 && NextColon(input, NextColon(input, 0) + 1) < 0 ==> ColonPositions(input).None?
    ensures (NextColon(input, 0) >= 0 && NextColon(input, NextColon(input, 0) + 1) >= 0 &&
             NextColon(input, NextColon(input, NextColon(input, 0) + 1) + 1) < 0) ==> ColonPositions(input).None?
  {
  }

  /** The positions the searches report are the first three colons. */
  lemma ColonPositionsSound(input: Text)
    requires ColonPositions(input).Some?
    ensures ColonsAt(input, ColonPositions(input).value.0, ColonPositions(input).value.1, ColonPositions(input).value.2)
  {
    NextColonFirst(input, 0);
    var u := NextColon(input, 0);
    NextColonFirst(input, u + 1);
    NextColonFirst(input, NextColon(input, u + 1) + 1);
  }

  /** Not-enough-parts is reported exactly when the header input holds fewer than three colons. */
  lemma TooFewColons(line: Text)
    ensures ParseMigrationHeader(line) == Err(InvalidHeader(NotEnoughParts, line)) <==> Occurrences(HeaderInput(line), ':', 0) < 3
  {
    ColonCount(HeaderInput(line));
  }

  /**
   * The field checks: user, then namespace, then comment must hold something
   * besides white space, and the first that does not is the error; the first
   * field only decides the skip flag.
   */
  lemma FieldChecks(line: Text, first: Text, user: Text, namespace: Text, comment: Text)
    ensures AllSpace(user) ==> FieldsResult(line, first, user, namespace, comment) == Err(InvalidHeader(UserEmpty, line))
    ensures !AllSpace(user) && AllSpace(namespace) ==>
      FieldsResult(line, first, user, namespace, comment) == Err(InvalidHeader(NamespaceEmpty, line))
    ensures !AllSpace(user) && !AllSpace(namespace) && AllSpace(comment) ==>
      FieldsResult(line, first, user, namespace, comment) == Err(InvalidHeader(CommentEmpty, line))
    ensures !AllSpace(user) && !AllSpace(namespace) && !AllSpace(comment) ==>
      FieldsResult(line, first, user, namespace, comment) ==
      Ok(MigrationProto(TrimSpace(namespace), TrimSpace(user), TrimSpace(comment), [], IsSkipMarker(first), 0))
  {
  }
}
