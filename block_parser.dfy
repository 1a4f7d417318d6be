/**
 * `ParseSQL`: a SQL file cut into migration blocks.  Each block is a header
 * line followed by at least one body line; blank lines are ignored
 * everywhere.  The loop of the Go code is the method `ParseSQL`; the
 * block-wise functions `Migrations` and `Block` say what it computes.
 */
module MigrationsParser {
  import opened Wrappers
  import opened SqlText
  import opened Api
  import opened HeaderParser
  import opened Fnv

  /** A line is skipped when nothing but white space is left after trimming. */
  predicate IsBlank(line: Text) {
    TrimSpace(line) == []
  }

  /** A header line starts with `--` as it stands, before any trimming. */
  predicate IsHeaderLine(line: Text) {
    HasPrefix(line, "--")
  }

  /** The migration a header line opens: its parsed fields and the signature of the whole raw line. */
  function OpenBlock(line: Text): (r: Result<MigrationProto, Error>)
    ensures r.Ok? ==> r.value.signature == GenerateSignature(line)
    ensures r.Ok? <==> ParseMigrationHeader(line).Ok?
  {
    match ParseMigrationHeader(line)
    case Err(e) => Err(e)
    case Ok(h) => Ok(h.(signature := GenerateSignature(line)))
  }

  /** What the loop makes of one scanned line. */
  datatype LineKind = Blank | Header(block: Result<MigrationProto, Error>) | Body(text: Text)

  /** What the loop does with a line: skip it, open a block, or add it to the current body. */
  function Classify(line: Text): LineKind {
    if IsBlank(line) then Blank
    else if IsHeaderLine(line) then Header(OpenBlock(line))
    else Body(line)
  }

  /** The kind of every scanned line, in order. */
  function Kinds(lines: seq<Text>): (r: seq<LineKind>)
    ensures |r| == |lines|
  {
    seq(|lines|, i requires 0 <= i < |lines| => Classify(lines[i]))
  }

  /** The lines the parser looks at: the non-blank ones, in order. */
  function NonBlank(kinds: seq<LineKind>): (r: seq<LineKind>)
    ensures |r| <= |kinds|
    decreases |kinds|
  {
    if kinds == [] then []
    else if kinds[0].Blank? then NonBlank(kinds[1..])
    else [kinds[0]] + NonBlank(kinds[1..])
  }

  /** How many lines at the front of `kinds` are body lines: the body of the block they follow. */
  function BodyLength(kinds: seq<LineKind>): (n: nat)
    ensures n <= |kinds|
    ensures forall k :: 0 <= k < n ==> kinds[k].Body?
    ensures n < |kinds| ==> !kinds[n].Body?
    decreases |kinds|
  {
    if kinds == [] || !kinds[0].Body? then 0 else 1 + BodyLength(kinds[1..])
  }

  /** The builder after `line` was written to it followed by a newline. */
  function WriteLine(ddl: Text, line: Text): (r: Text)
    ensures |r| == |ddl| + |line| + 1 && r[..|ddl|] == ddl && r[|r| - 1] == '\n'
  {
    ddl + line + "\n"
  }

  /** The text a `strings.Builder` holding `ddl` holds after each body line of `kinds` was written to it. */
  function Collect(ddl: Text, kinds: seq<LineKind>): Text
    decreases |kinds|
  {
    if kinds == [] then ddl
    else Collect(if kinds[0].Body? then WriteLine(ddl, kinds[0].text) else ddl, kinds[1..])
  }

  /** `m` in front of the migrations of a successful result; an error stays. */
  function Prepend(m: MigrationProto, r: Result<seq<MigrationProto>, Error>): Result<seq<MigrationProto>, Error> {
    match r
    case Ok(ms) => Ok([m] + ms)
    case Err(e) => Err(e)
  }

  /** `ms` in front of the migrations of a successful result; an error stays. */
  function AppendAll(ms: seq<MigrationProto>, r: Result<seq<MigrationProto>, Error>): Result<seq<MigrationProto>, Error> {
    match r
    case Ok(rest) => Ok(ms + rest)
    case Err(e) => Err(e)
  }

  /**
   * The migrations of the non-blank lines `kinds`, block by block: the first
   * line must be a header, the header must parse, and `Block` takes the lines
   * after it.
   */
  function Migrations(kinds: seq<LineKind>): Result<seq<MigrationProto>, Error>
    decreases |kinds|, 1
  {
    if kinds == [] then Ok([])
    else if !kinds[0].Header? then Err(MissingHeader)
    else
      match kinds[0].block
      case Err(e) => Err(e)
      case Ok(h) => Block(h, kinds[1..])
  }

  /**
   * The block `header` opens, followed by the non-blank lines `kinds`: its
   * body is the lines up to the next header.  An empty body is an error when
   * a header follows and is dropped when the input ends; otherwise the
   * migration's DDL is the trimmed body text and the blocks after it follow.
   */
  function Block(header: MigrationProto, kinds: seq<LineKind>): Result<seq<MigrationProto>, Error>
    decreases |kinds|, 0
  {
    var n := BodyLength(kinds);
    if n == 0 then
      if kinds == [] then Ok([]) else Err(HeaderWithoutSql(header.comment))
    else
      Prepend(header.(ddl := TrimSpace(Collect([], kinds[..n]))), Migrations(kinds[n..]))
  }

  /** What `ParseSQL(content)` returns. */
  function Parse(content: Text): Result<seq<MigrationProto>, Error> {
    Migrations(NonBlank(Kinds(SplitLines(content))))
  }

  /*
   * The loop, one scanned line at a time, as a function of its four
   * variables; `ParseSQL` keeps its state equal to what `Run` predicts.
   */

  datatype ScanState = ScanState(
    migrations: seq<MigrationProto>,
    current: Option<MigrationProto>,
    ddl: Text,
    foundFirstHeader: bool)

  const Start := ScanState([], None, [], false)

  /** One pass of the loop body on a line of kind `kind`. */
  ghost function Step(st: ScanState, kind: LineKind): Result<ScanState, Error> {
    match kind
    case Blank => Ok(st)
    case Header(block) =>
      if st.current.Some? && |st.ddl| == 0 then Err(HeaderWithoutSql(st.current.value.comment))
      else
        var migrations :=
          if st.current.Some? && |st.ddl| > 0 then st.migrations + [st.current.value.(ddl := TrimSpace(st.ddl))]
          else st.migrations;
        var ddl := if st.current.Some? && |st.ddl| > 0 then [] else st.ddl;
        (match block
         case Err(e) => Err(e)
         case Ok(h) => Ok(ScanState(migrations, Some(h), ddl, true)))
    case Body(line) =>
      if !st.foundFirstHeader then Err(MissingHeader)
      else if st.current.Some? then Ok(st.(ddl := WriteLine(st.ddl, line)))
      else Ok(st)
  }

  /** The loop over the lines `kinds` from state `st`, stopping at the first error. */
  ghost function Run(st: ScanState, kinds: seq<LineKind>): Result<ScanState, Error>
    decreases |kinds|
  {
    if kinds == [] then Ok(st)
    else
      match Step(st, kinds[0])
      case Err(e) => Err(e)
      case Ok(next) => Run(next, kinds[1..])
  }

  /** The code after the loop: the last block is kept when it has a body. */
  function Finish(st: ScanState): seq<MigrationProto> {
    if st.current.Some? && |st.ddl| > 0 then st.migrations + [st.current.value.(ddl := TrimSpace(st.ddl))]
    else st.migrations
  }

  /** The loop from `st` followed by the code after it that appends the last open block. */
  ghost function Outcome(st: ScanState, kinds: seq<LineKind>): Result<seq<MigrationProto>, Error> {
    match Run(st, kinds)
    case Err(e) => Err(e)
    case Ok(last) => Ok(Finish(last))
  }

  /** Appending the result with `m` prepended to `ms` is appending the result to `ms + [m]`. */
  lemma AppendPrepend(ms: seq<MigrationProto>, m: MigrationProto, r: Result<seq<MigrationProto>, Error>)
    ensures AppendAll(ms, Prepend(m, r)) == AppendAll(ms + [m], r)
  {
    if r.Ok? {
      assert ms + ([m] + r.value) == (ms + [m]) + r.value;
    }
  }

  /**
   * What the rest of the loop yields inside a block opened by `m` that has
   * collected body text `ddl` so far, when the non-blank lines still to come
   * are `rest`: the block, with whatever body the following lines add, and
   * then the blocks after it.
   */
  ghost function Resume(ms: seq<MigrationProto>, m: MigrationProto, ddl: Text, rest: seq<LineKind>): Result<seq<MigrationProto>, Error> {
    var n := BodyLength(rest);
    if ddl == [] then AppendAll(ms, Block(m, rest))
    else AppendAll(ms, Prepend(m.(ddl := TrimSpace(Collect(ddl, rest[..n]))), Migrations(rest[n..])))
  }

  /** The loop inside a block agrees with the block-wise reading. */
  lemma {:induction false} InBlock(ms: seq<MigrationProto>, m: MigrationProto, ddl: Text, kinds: seq<LineKind>)
    ensures Outcome(ScanState(ms, Some(m), ddl, true), kinds) == Resume(ms, m, ddl, NonBlank(kinds))
    decreases |kinds|, 1
  {
    if kinds == [] {
      InputEnds(ms, m, ddl);
    } else if kinds[0].Blank? {
      BlankSkipped(ScanState(ms, Some(m), ddl, true), kinds);
      InBlock(ms, m, ddl, kinds[1..]);
    } else if kinds[0].Header? {
      InBlockHeader(ms, m, ddl, kinds);
    } else {
      InBlockBody(ms, m, ddl, kinds);
    }
  }

  /** At the end of the input the open block is kept when it has body text, by the loop and the reading alike. */
  lemma InputEnds(ms: seq<MigrationProto>, m: MigrationProto, ddl: Text)
    ensures Outcome(ScanState(ms, Some(m), ddl, true), []) == Resume(ms, m, ddl, NonBlank([]))
  {
    var none: seq<LineKind> := [];
    assert none[..0] == [] && none[0..] == [];
    assert ms + [] == ms;
    assert ms + ([m.(ddl := TrimSpace(ddl))] + []) == ms + [m.(ddl := TrimSpace(ddl))];
  }

  /** A blank line changes neither the loop's state nor the lines the reading looks at. */
  lemma BlankSkipped(st: ScanState, kinds: seq<LineKind>)
    requires kinds != [] && kinds[0].Blank?
    ensures Outcome(st, kinds) == Outcome(st, kinds[1..])
    ensures NonBlank(kinds) == NonBlank(kinds[1..])
  {
    assert Step(st, kinds[0]) == Ok(st);
  }

  /** A header inside a block closes it (an error when it has no body) and opens the next. */
  lemma {:induction false} InBlockHeader(ms: seq<MigrationProto>, m: MigrationProto, ddl: Text, kinds: seq<LineKind>)
    requires kinds != [] && kinds[0].Header?
    ensures Outcome(ScanState(ms, Some(m), ddl, true), kinds) == Resume(ms, m, ddl, NonBlank(kinds))
    decreases |kinds|, 0
  {
    if ddl == [] || kinds[0].block.Err? {
      HeaderFails(ms, m, ddl, kinds);
    } else {
      var h := kinds[0].block.value;
      ClosingOutcome(ms, m, ddl, kinds, h);
      InBlock(ms + [m.(ddl := TrimSpace(ddl))], h, [], kinds[1..]);
      ClosingResume(ms, m, ddl, kinds, h);
    }
  }

  /** The non-blank lines from a header on: the header, then what follows it; no body. */
  lemma HeaderFront(kinds: seq<LineKind>)
    requires kinds != [] && kinds[0].Header?
    ensures NonBlank(kinds) == [kinds[0]] + NonBlank(kinds[1..])
    ensures BodyLength(NonBlank(kinds)) == 0
    ensures NonBlank(kinds)[1..] == NonBlank(kinds[1..])
  {
  }

  /** A header closing a block with no body, or a header that does not parse, fails the loop and the reading alike. */
  lemma HeaderFails(ms: seq<MigrationProto>, m: MigrationProto, ddl: Text, kinds: seq<LineKind>)
    requires kinds != [] && kinds[0].Header?
    requires ddl == [] || kinds[0].block.Err?
    ensures Outcome(ScanState(ms, Some(m), ddl, true), kinds) == Resume(ms, m, ddl, NonBlank(kinds))
  {
    HeaderFront(kinds);
    var rest := NonBlank(kinds);
    if ddl != [] {
      assert rest[..0] == [] && rest[0..] == rest;
    }
  }

  /** The loop closes the block with body text `ddl` at a header that parses and opens the block of `h`. */
  lemma ClosingOutcome(ms: seq<MigrationProto>, m: MigrationProto, ddl: Text, kinds: seq<LineKind>, h: MigrationProto)
    requires kinds != [] && kinds[0] == Header(Ok(h)) && ddl != []
    ensures Outcome(ScanState(ms, Some(m), ddl, true), kinds) ==
      Outcome(ScanState(ms + [m.(ddl := TrimSpace(ddl))], Some(h), [], true), kinds[1..])
  {
    assert Step(ScanState(ms, Some(m), ddl, true), kinds[0]) == Ok(ScanState(ms + [m.(ddl := TrimSpace(ddl))], Some(h), [], true));
  }

  /** The reading closes the block with body text `ddl` at the same header and opens the block of `h`. */
  lemma ClosingResume(ms: seq<MigrationProto>, m: MigrationProto, ddl: Text, kinds: seq<LineKind>, h: MigrationProto)
    requires kinds != [] && kinds[0] == Header(Ok(h)) && ddl != []
    ensures Resume(ms, m, ddl, NonBlank(kinds)) == Resume(ms + [m.(ddl := TrimSpace(ddl))], h, [], NonBlank(kinds[1..]))
  {
    HeaderFront(kinds);
    var rest := NonBlank(kinds);
    var done := m.(ddl := TrimSpace(ddl));
    assert rest[..0] == [] && rest[0..] == rest;
    assert Migrations(rest) == Block(h, NonBlank(kinds[1..]));
    AppendPrepend(ms, done, Migrations(rest));
  }

  /** A body line inside a block is added to its text. */
  lemma {:induction false} InBlockBody(ms: seq<MigrationProto>, m: MigrationProto, ddl: Text, kinds: seq<LineKind>)
    requires kinds != [] && kinds[0].Body?
    ensures Outcome(ScanState(ms, Some(m), ddl, true), kinds) == Resume(ms, m, ddl, NonBlank(kinds))
    decreases |kinds|, 0
  {
    var kind := kinds[0];
    var more := WriteLine(ddl, kind.text);
    assert Step(ScanState(ms, Some(m), ddl, true), kind) == Ok(ScanState(ms, Some(m), more, true));
    InBlock(ms, m, more, kinds[1..]);
    assert NonBlank(kinds) == [kind] + NonBlank(kinds[1..]);
    BodyCons(kind, NonBlank(kinds[1..]), ddl);
  }

  /** A body line in front of `tail` extends the body the block collects from `tail`. */
  lemma BodyCons(kind: LineKind, tail: seq<LineKind>, ddl: Text)
    requires kind.Body?
    ensures var n := BodyLength(tail);
      && BodyLength([kind] + tail) == 1 + n
      && ([kind] + tail)[1 + n..] == tail[n..]
      && Collect(ddl, ([kind] + tail)[..1 + n]) == Collect(WriteLine(ddl, kind.text), tail[..n])
  {
    var all := [kind] + tail;
    assert all[1..] == tail;
    assert all[..1 + BodyLength(tail)][1..] == tail[..BodyLength(tail)];
  }

  /** From the loop's initial state, the loop and the block-wise reading agree. */
  lemma {:induction false} FromStart(kinds: seq<LineKind>)
    ensures Outcome(Start, kinds) == Migrations(NonBlank(kinds))
    decreases |kinds|
  {
    if kinds != [] {
      var kind := kinds[0];
      var rest := NonBlank(kinds);
      match kind
      case Blank =>
        FromStart(kinds[1..]);
      case Body(_) =>
      case Header(block) =>
        assert rest == [kind] + NonBlank(kinds[1..]);
        match block
        case Err(e) =>
        case Ok(h) =>
          InBlock([], h, [], kinds[1..]);
          assert rest[1..] == NonBlank(kinds[1..]);
          var b := Block(h, NonBlank(kinds[1..]));
          if b.Ok? {
            assert [] + b.value == b.value;
          }
    }
  }

  /** `Run` on the lines of `kinds` from position `from` on, counted by index as the loop does. */
  ghost function RunFrom(st: ScanState, kinds: seq<LineKind>, from: nat): Result<ScanState, Error>
    decreases |kinds| - from
  {
    if from >= |kinds| then Ok(st)
    else
      match Step(st, kinds[from])
      case Err(e) => Err(e)
      case Ok(next) => RunFrom(next, kinds, from + 1)
  }

  /** The index-based loop is `Run` on the lines not yet scanned. */
  lemma {:induction false} RunFromIs(st: ScanState, kinds: seq<LineKind>, from: nat)
    requires from <= |kinds|
    ensures RunFrom(st, kinds, from) == Run(st, kinds[from..])
    decreases |kinds| - from
  {
    if from < |kinds| {
      assert kinds[from..][0] == kinds[from] && kinds[from..][1..] == kinds[from + 1..];
      match Step(st, kinds[from])
      case Err(e) =>
      case Ok(next) => RunFromIs(next, kinds, from + 1);
    }
  }

  /** The loop over all of `kinds`, counted by index, agrees with the block-wise reading. */
  lemma LoopReading(kinds: seq<LineKind>)
    ensures (match RunFrom(Start, kinds, 0)
             case Err(e) => Err(e)
             case Ok(last) => Ok(Finish(last))) == Migrations(NonBlank(kinds))
  {
    FromStart(kinds);
    RunFromIs(Start, kinds, 0);
    assert kinds[0..] == kinds;
  }

  /** `Parse` is the loop over the classified lines of the content, followed by the code after it. */
  lemma ParseReading(content: Text)
    ensures Parse(content) == (match RunFrom(Start, Kinds(SplitLines(content)), 0)
                               case Err(e) => Err(e)
                               case Ok(last) => Ok(Finish(last)))
  {
    LoopReading(Kinds(SplitLines(content)));
  }

  /** One pass of the loop at position `i`: stop at an error, or go on from the next state. */
  lemma RunFromStep(st: ScanState, kinds: seq<LineKind>, i: nat, next: Result<ScanState, Error>)
    requires i < |kinds| && next == Step(st, kinds[i])
    ensures next.Err? ==> RunFrom(st, kinds, i) == Err(next.error)
    ensures next.Ok? ==> RunFrom(st, kinds, i) == RunFrom(next.value, kinds, i + 1)
  {
  }

  /**
   * The header branch of the loop body: close the open block (an error when
   * it has no body yet), then parse `line` and open the block it starts.
   */
  method ScanHeader(migrations: seq<MigrationProto>, current: Option<MigrationProto>, ddl: Text, foundFirstHeader: bool, line: Text)
    returns (r: Result<ScanState, Error>)
    ensures r == Step(ScanState(migrations, current, ddl, foundFirstHeader), Header(OpenBlock(line)))
  {
    var migrations, current, ddl := migrations, current, ddl;
    if current.Some? && |ddl| == 0 {
      return Err(HeaderWithoutSql(current.value.comment));
    }
    if current.Some? && |ddl| > 0 {
      migrations := migrations + [current.value.(ddl := TrimSpace(ddl))];
      ddl := [];
    }
    var migration := ParseMigrationHeader(line);
    if migration.Err? {
      return Err(migration.error);
    }
    current := Some(migration.value.(signature := GenerateSignature(line)));
    return Ok(ScanState(migrations, current, ddl, true));
  }

  /** The body branch of the loop body: body text before the first header is an error. */
  method ScanBody(migrations: seq<MigrationProto>, current: Option<MigrationProto>, ddl: Text, foundFirstHeader: bool, line: Text)
    returns (r: Result<ScanState, Error>)
    ensures r == Step(ScanState(migrations, current, ddl, foundFirstHeader), Body(line))
  {
    var ddl := ddl;
    if !foundFirstHeader {
      return Err(MissingHeader);
    }
    if current.Some? {
      ddl := ddl + line + "\n";
    }
    return Ok(ScanState(migrations, current, ddl, foundFirstHeader));
  }

  /** The three kinds of line, told apart as the loop body tells them apart. */
  lemma LineCases(line: Text)
    ensures TrimSpace(line) == [] ==> Classify(line) == Blank
    ensures TrimSpace(line) != [] && HasPrefix(line, "--") ==> Classify(line) == Header(OpenBlock(line))
    ensures TrimSpace(line) != [] && !HasPrefix(line, "--") ==> Classify(line) == Body(line)
  {
  }

  /**
   * One pass of the loop body of `ParseSQL` on `line`: the new values of the
   * loop's four variables, or the error the loop returns.  A blank line is
   * skipped; a header line closes the open block (an error when it has no
   * body yet) and opens the next; any other line is body text, an error
   * before the first header.
   */
  method ScanLine(migrations: seq<MigrationProto>, current: Option<MigrationProto>, ddl: Text, foundFirstHeader: bool, line: Text)
    returns (r: Result<ScanState, Error>)
    ensures r == Step(ScanState(migrations, current, ddl, foundFirstHeader), Classify(line))
  {
    LineCases(line);
    var trimmedLine := TrimSpace(line);
    if trimmedLine == [] {
      return Ok(ScanState(migrations, current, ddl, foundFirstHeader));
    }
    if HasPrefix(line, "--") {
      r := ScanHeader(migrations, current, ddl, foundFirstHeader, line);
      return;
    }
    r := ScanBody(migrations, current, ddl, foundFirstHeader, line);
  }

  /**
   * The scanning loop of `ParseSQL` over the scanned `lines`: `ScanLine` on
   * each line, stopping at the first error.  After the last line the open
   * block is kept when it has a body.
   */
  method ScanLines(lines: seq<Text>) returns (r: Result<seq<MigrationProto>, Error>)
    ensures r == (match RunFrom(Start, Kinds(lines), 0)
                  case Err(e) => Err(e)
                  case Ok(last) => Ok(Finish(last)))
  {
    ghost var kinds := Kinds(lines);
    var migrations: seq<MigrationProto> := [];
    var current: Option<MigrationProto> := None;
    var ddl: Text := [];
    var foundFirstHeader := false;
    var i := 0;
    while i < |lines|
      invariant 0 <= i <= |lines|
      invariant RunFrom(Start, kinds, 0) == RunFrom(ScanState(migrations, current, ddl, foundFirstHeader), kinds, i)
    {
      var next := ScanLine(migrations, current, ddl, foundFirstHeader, lines[i]);
      RunFromStep(ScanState(migrations, current, ddl, foundFirstHeader), kinds, i, next);
      if next.Err? {
        return Err(next.error);
      }
      migrations, current, ddl, foundFirstHeader := next.value.migrations, next.value.current, next.value.ddl, next.value.foundFirstHeader;
      i := i + 1;
    }
    if current.Some? && |ddl| > 0 {
      migrations := migrations + [current.value.(ddl := TrimSpace(ddl))];
    }
    return Ok(migrations);
  }

  /** `ParseSQL`: the migrations of `content`, scanned line by line, or the first error. */
  method ParseSQL(content: Text) returns (r: Result<seq<MigrationProto>, Error>)
    ensures r == Parse(content)
  {
    var lines := SplitLines(content);
    r := ScanLines(lines);
    ParseReading(content);
  }
}
