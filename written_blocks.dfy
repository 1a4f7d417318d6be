/**
 * Migration files written block by block: a header line that parses,
 * then one line of SQL.  Parsing such a file gives back one migration per
 * block, in file order, each with the header's trimmed fields, the trimmed
 * body as DDL and the hash of the raw header line as signature.
 */
module WrittenBlocks {
  import opened Wrappers
  import opened SqlText
  import opened Api
  import opened Fnv
  import opened HeaderParser
  import opened HeaderFormat
  import opened MigrationsParser
  import opened ParserFacts

  /** The parts of one written block: the four header fields and the SQL line. */
  datatype Written = Written(first: Text, user: Text, namespace: Text, comment: Text, body: Text)

  /** The block's header line, `-- first:user:namespace:comment`. */
  function HeaderText(w: Written): Text {
    HeaderLine(w.first, w.user, w.namespace, w.comment)
  }

  /**
   * A block whose header parses and whose body line is SQL: colon-free
   * first three fields, outer fields without surrounding white space, a
   * user, namespace and comment that are not all white space, no newline in
   * either line, and a body line that holds more than white space and does
   * not start with `--`.
   */
  predicate WellWritten(w: Written) {
    && ':' !in w.first && ':' !in w.user && ':' !in w.namespace
    && Trimmed(w.first) && Trimmed(w.comment)
    && !AllSpace(w.user) && !AllSpace(w.namespace) && !AllSpace(w.comment)
    && '\n' !in HeaderText(w)
    && '\n' !in w.body && !AllSpace(w.body) && !HasPrefix(w.body, "--")
  }

  predicate AllWellWritten(ws: seq<Written>) {
    forall i :: 0 <= i < |ws| ==> WellWritten(ws[i])
  }

  /** The migration the block's header opens: trimmed fields, no DDL yet, the header line's hash. */
  function Opened(w: Written): MigrationProto {
    MigrationProto(TrimSpace(w.namespace), TrimSpace(w.user), TrimSpace(w.comment), [], IsSkipMarker(w.first), GenerateSignature(HeaderText(w)))
  }

  /** The migration the block becomes: the opened header with the trimmed body line as DDL. */
  function Parsed(w: Written): MigrationProto {
    Opened(w).(ddl := TrimSpace(w.body))
  }

  /** The migrations of the blocks, in order. */
  function AllParsed(ws: seq<Written>): seq<MigrationProto>
    decreases |ws|
  {
    if ws == [] then [] else [Parsed(ws[0])] + AllParsed(ws[1..])
  }

  /** The blocks as file text, every line followed by a newline. */
  function Render(ws: seq<Written>): Text
    decreases |ws|
  {
    if ws == [] then [] else HeaderText(ws[0]) + "\n" + ws[0].body + "\n" + Render(ws[1..])
  }

  /** The lines the scanner yields for the rendered blocks. */
  function RawLines(ws: seq<Written>): seq<Text>
    decreases |ws|
  {
    if ws == [] then [] else [HeaderText(ws[0]), DropCR(ws[0].body)] + RawLines(ws[1..])
  }

  /** What the loop makes of one block's two lines. */
  function Pair(w: Written): seq<LineKind> {
    [Header(Ok(Opened(w))), Body(DropCR(w.body))]
  }

  /** What the loop makes of the blocks' lines. */
  function KindsOf(ws: seq<Written>): seq<LineKind>
    decreases |ws|
  {
    if ws == [] then [] else Pair(ws[0]) + KindsOf(ws[1..])
  }

  /** A well-written header line has no carriage return for the scanner to drop. */
  lemma HeaderKept(w: Written)
    requires WellWritten(w)
    ensures DropCR(HeaderText(w)) == HeaderText(w)
  {
    var line := HeaderText(w);
    assert w.comment != [];
    assert line == ("-- " + w.first + ":" + w.user + ":" + w.namespace + ":") + w.comment;
    assert line[|line| - 1] == w.comment[|w.comment| - 1];
  }

  /** A well-written header line opens the block `Opened` describes. */
  lemma HeaderOpens(w: Written)
    requires WellWritten(w)
    ensures Classify(HeaderText(w)) == Header(Ok(Opened(w)))
  {
    var line := HeaderText(w);
    HeaderRoundTrip(w.first, w.user, w.namespace, w.comment);
    FieldChecks(line, w.first, w.user, w.namespace, w.comment);
    HeaderDashes(w);
    OpensAs(line, MigrationProto(TrimSpace(w.namespace), TrimSpace(w.user), TrimSpace(w.comment), [], IsSkipMarker(w.first), 0));
  }

  /** A header line starts with two dashes. */
  lemma HeaderDashes(w: Written)
    ensures |HeaderText(w)| >= 2 && HeaderText(w)[0] == '-' && HeaderText(w)[1] == '-'
  {
    assert HeaderText(w) == "-- " + Fields(w.first, w.user, w.namespace, w.comment);
  }

  /** A line starting with `--` whose header parses to `m` opens `m` with the line's signature. */
  lemma OpensAs(line: Text, m: MigrationProto)
    requires |line| >= 2 && line[0] == '-' && line[1] == '-'
    requires ParseMigrationHeader(line) == Ok(m)
    ensures Classify(line) == Header(Ok(m.(signature := GenerateSignature(line))))
  {
    DashClass(line);
  }

  /** A line starting with `--` is a header line. */
  lemma DashClass(line: Text)
    requires |line| >= 2 && line[0] == '-' && line[1] == '-'
    ensures Classify(line) == Header(OpenBlock(line))
  {
    assert line[..2] == "--";
    assert !AllSpace(line) by {
      assert !IsSpace(line[0]);
    }
  }

  /** A line holding more than white space and not starting with `--` is body text. */
  lemma BodyClass(line: Text)
    requires !AllSpace(line) && !HasPrefix(line, "--")
    ensures Classify(line) == Body(line)
  {
  }

  /** A well-written body line is body text, and its carriage return, if any, does not reach the DDL. */
  lemma BodyKind(w: Written)
    requires WellWritten(w)
    ensures Classify(DropCR(w.body)) == Body(DropCR(w.body))
    ensures TrimSpace(DropCR(w.body)) == TrimSpace(w.body)
  {
    BodyKept(w.body);
    BodyClass(DropCR(w.body));
  }

  /** `f` applied to every line; `Kinds` is this with `Classify`. */
  function MapLines(f: Text -> LineKind, l: seq<Text>): seq<LineKind> {
    seq(|l|, i requires 0 <= i < |l| => f(l[i]))
  }

  /** Mapping over `[x] + t` is `f(x)` followed by the mapping over `t`. */
  lemma MapCons(f: Text -> LineKind, x: Text, t: seq<Text>)
    ensures MapLines(f, [x] + t) == [f(x)] + MapLines(f, t)
  {
    var u := MapLines(f, [x] + t);
    var v := [f(x)] + MapLines(f, t);
    forall i | 0 <= i < |u|
      ensures u[i] == v[i]
    {
      if i > 0 {
        assert ([x] + t)[i] == t[i - 1];
      }
    }
  }

  lemma KindsIsMap(l: seq<Text>)
    ensures Kinds(l) == MapLines(Classify, l)
  {
    forall i | 0 <= i < |l|
      ensures Kinds(l)[i] == MapLines(Classify, l)[i]
    {
    }
  }

  /** The kinds of `[x] + t` are the class of `x` followed by the kinds of `t`. */
  lemma KindsCons(x: Text, t: seq<Text>)
    ensures Kinds([x] + t) == [Classify(x)] + Kinds(t)
  {
    KindsIsMap([x] + t);
    KindsIsMap(t);
    MapCons(Classify, x, t);
  }

  /** The first block is well written, and so are the rest. */
  lemma WellTail(ws: seq<Written>)
    requires AllWellWritten(ws) && ws != []
    ensures WellWritten(ws[0]) && AllWellWritten(ws[1..])
  {
    assert WellWritten(ws[0]);
    forall i | 0 <= i < |ws[1..]|
      ensures WellWritten(ws[1..][i])
    {
      assert ws[1..][i] == ws[i + 1];
    }
  }

  /** Rendered blocks followed by `x`, with the first block's two lines split off. */
  lemma RenderCons(ws: seq<Written>, x: Text)
    requires ws != []
    ensures Render(ws) + x == HeaderText(ws[0]) + "\n" + (ws[0].body + "\n" + (Render(ws[1..]) + x))
  {
  }

  /** The lines of the first block in front of the other lines. */
  lemma RawCons(ws: seq<Written>, tail: seq<Text>)
    requires ws != []
    ensures RawLines(ws) + tail == [HeaderText(ws[0])] + ([DropCR(ws[0].body)] + (RawLines(ws[1..]) + tail))
  {
  }

  /** Two kinds in front of the others, regrouped. */
  lemma PairFront(p: LineKind, q: LineKind, r: seq<LineKind>, t: seq<LineKind>)
    ensures [p] + ([q] + (r + t)) == ([p, q] + r) + t
  {
  }

  /** A header line and a body line in front of `rest`, split by the scanner. */
  lemma TwoLines(h: Text, b: Text, rest: Text)
    requires '\n' !in h && '\n' !in b && DropCR(h) == h
    ensures SplitLines(h + "\n" + (b + "\n" + rest)) == [h] + ([DropCR(b)] + SplitLines(rest))
  {
    SplitCons(h, b + "\n" + rest);
    SplitCons(b, rest);
  }

  /** The scanner splits rendered blocks, followed by any text, into the blocks' lines and then that text's lines. */
  lemma {:induction false} SplitRender(ws: seq<Written>, x: Text)
    requires AllWellWritten(ws)
    ensures SplitLines(Render(ws) + x) == RawLines(ws) + SplitLines(x)
    decreases |ws|
  {
    if ws != [] {
      var w := ws[0];
      WellTail(ws);
      RenderCons(ws, x);
      HeaderKept(w);
      TwoLines(HeaderText(w), w.body, Render(ws[1..]) + x);
      SplitRender(ws[1..], x);
      RawCons(ws, SplitLines(x));
    } else {
      assert Render(ws) + x == x;
      assert RawLines(ws) + SplitLines(x) == SplitLines(x);
    }
  }

  /** The blocks' lines, followed by any lines, are classified block by block. */
  lemma {:induction false} RawKinds(ws: seq<Written>, tail: seq<Text>)
    requires AllWellWritten(ws)
    ensures Kinds(RawLines(ws) + tail) == KindsOf(ws) + Kinds(tail)
    decreases |ws|
  {
    if ws != [] {
      var w := ws[0];
      WellTail(ws);
      var more := RawLines(ws[1..]) + tail;
      RawCons(ws, tail);
      HeaderOpens(w);
      BodyKind(w);
      TwoKinds(HeaderText(w), DropCR(w.body), more, Header(Ok(Opened(w))), Body(DropCR(w.body)));
      RawKinds(ws[1..], tail);
      PairFront(Header(Ok(Opened(w))), Body(DropCR(w.body)), KindsOf(ws[1..]), Kinds(tail));
    } else {
      assert RawLines(ws) + tail == tail;
      assert KindsOf(ws) + Kinds(tail) == Kinds(tail);
    }
  }

  /** The kinds of two lines in front of `more`. */
  lemma TwoKinds(h: Text, d: Text, more: seq<Text>, kh: LineKind, kd: LineKind)
    requires Classify(h) == kh && Classify(d) == kd
    ensures Kinds([h] + ([d] + more)) == [kh] + ([kd] + Kinds(more))
  {
    KindsCons(h, [d] + more);
    KindsCons(d, more);
  }

  /** The migration a block's two lines make. */
  lemma PairParsed(w: Written)
    requires WellWritten(w)
    ensures Migrations(Pair(w)) == Ok([Parsed(w)])
  {
    var line := DropCR(w.body);
    BodyKind(w);
    var tail := [Body(line)];
    BodyOnly(Opened(w), line);
    assert Pair(w)[1..] == tail;
  }

  /** A header with one body line and nothing after it makes one migration. */
  lemma BodyOnly(h: MigrationProto, line: Text)
    ensures Block(h, [Body(line)]) == Ok([h.(ddl := TrimSpace(line))])
  {
    var tail := [Body(line)];
    var d := CollectOne(line);
    TrimSpaceAfter(line, '\n');
    BlockOne(h, tail, d);
  }

  /** The body text of a single body line is that line and a newline. */
  lemma CollectOne(line: Text) returns (d: Text)
    ensures d == Collect([], [Body(line)]) && d == line + ['\n']
  {
    var tail := [Body(line)];
    assert tail[1..] == [];
    d := WriteLine([], line);
  }

  /** The block a header opens over exactly one body line. */
  lemma BlockOne(h: MigrationProto, tail: seq<LineKind>, d: Text)
    requires |tail| == 1 && tail[0].Body? && d == Collect([], tail)
    ensures Block(h, tail) == Ok([h.(ddl := TrimSpace(d))])
  {
    assert BodyLength(tail[1..]) == 0;
    assert tail[..1] == tail && tail[1..] == [];
    var m := h.(ddl := TrimSpace(d));
    assert Block(h, tail) == Prepend(m, Migrations([]));
    assert [m] + [] == [m];
  }

  /** A block's two lines are kept and end in body text. */
  lemma PairKept(w: Written)
    ensures Closed(Pair(w)) && NonBlank(Pair(w)) == Pair(w)
  {
    TwoKept(Header(Ok(Opened(w))), Body(DropCR(w.body)));
  }

  /** A header line and a body line are both kept, and end in body text. */
  lemma TwoKept(p: LineKind, q: LineKind)
    requires p.Header? && q.Body?
    ensures Closed([p, q]) && NonBlank([p, q]) == [p, q]
  {
    assert [p, q][1..] == [q] && [q][1..] == [];
  }

  /** Each block's kinds start with its header line. */
  lemma KindsFront(ws: seq<Written>)
    ensures KindsOf(ws) == [] || KindsOf(ws)[0].Header?
  {
  }

  /** A block that makes one migration, followed by blocks that make `ms`. */
  lemma StepParsed(p: seq<LineKind>, m: MigrationProto, rest: seq<LineKind>, ms: seq<MigrationProto>)
    requires Migrations(p) == Ok([m]) && Closed(p) && NonBlank(p) == p
    requires Migrations(rest) == Ok(ms) && Closed(rest) && NonBlank(rest) == rest
    requires rest == [] || rest[0].Header?
    ensures NonBlank(p + rest) == p + rest && Closed(p + rest)
    ensures Migrations(p + rest) == Ok([m] + ms)
  {
    NonBlankAppend(p, rest);
    Compose(p, rest, [m]);
    LastOf(p, rest);
  }

  /**
   * The blocks' kinds hold no blank line, end with a body line, and make the
   * blocks' migrations in order.
   */
  lemma {:induction false} KindsParsed(ws: seq<Written>)
    requires AllWellWritten(ws)
    ensures NonBlank(KindsOf(ws)) == KindsOf(ws)
    ensures Closed(KindsOf(ws))
    ensures Migrations(KindsOf(ws)) == Ok(AllParsed(ws))
    decreases |ws|
  {
    if ws != [] {
      var w := ws[0];
      WellTail(ws);
      KindsParsed(ws[1..]);
      PairParsed(w);
      PairKept(w);
      KindsFront(ws[1..]);
      StepParsed(Pair(w), Parsed(w), KindsOf(ws[1..]), AllParsed(ws[1..]));
    }
  }

  /** The last element of `a + b` is the last of `b`, or of `a` when `b` is empty. */
  lemma LastOf(a: seq<LineKind>, b: seq<LineKind>)
    requires Closed(a) && Closed(b)
    ensures Closed(a + b)
  {
    if b != [] {
      assert (a + b)[|a + b| - 1] == b[|b| - 1];
    } else {
      assert a + b == a;
    }
  }

  /** Rendered blocks, every line newline-terminated, parse to the blocks' migrations in file order. */
  lemma RenderParsed(ws: seq<Written>)
    requires AllWellWritten(ws)
    ensures Parse(Render(ws)) == Ok(AllParsed(ws))
  {
    SplitRender(ws, []);
    assert Render(ws) + [] == Render(ws);
    RawKinds(ws, []);
    assert RawLines(ws) + [] == RawLines(ws);
    assert KindsOf(ws) + [] == KindsOf(ws);
    KindsParsed(ws);
  }

  /** The lines of a block whose body line ends the input. */
  lemma LastLines(w: Written)
    requires WellWritten(w)
    ensures SplitLines(HeaderText(w) + "\n" + w.body) == [HeaderText(w), DropCR(w.body)]
  {
    SplitCons(HeaderText(w), w.body);
    SplitOne(w.body);
    HeaderKept(w);
  }

  /** What the loop makes of the lines of a block whose body line ends the input. */
  lemma LastKinds(w: Written)
    requires WellWritten(w)
    ensures Kinds([HeaderText(w), DropCR(w.body)]) == Pair(w)
  {
    HeaderOpens(w);
    BodyKind(w);
    KindsTwo(HeaderText(w), DropCR(w.body), Header(Ok(Opened(w))), Body(DropCR(w.body)));
  }

  /** The kinds of two lines. */
  lemma KindsTwo(h: Text, d: Text, kh: LineKind, kd: LineKind)
    requires Classify(h) == kh && Classify(d) == kd
    ensures Kinds([h, d]) == [kh, kd]
  {
    assert [h, d] == [h] + ([d] + []);
    KindsCons(h, [d] + []);
    KindsCons(d, []);
    assert Kinds([]) == [];
  }

  /**
   * Rendered blocks followed by one more block whose body line ends the
   * file without a newline, as in the parser's tests, parse to all the
   * blocks' migrations in file order.
   */
  lemma LastUnterminated(ws: seq<Written>, w: Written)
    requires AllWellWritten(ws) && WellWritten(w)
    ensures Parse(Render(ws) + (HeaderText(w) + "\n" + w.body)) == Ok(AllParsed(ws) + [Parsed(w)])
  {
    var x := HeaderText(w) + "\n" + w.body;
    var last := [HeaderText(w), DropCR(w.body)];
    SplitRender(ws, x);
    LastLines(w);
    RawKinds(ws, last);
    LastKinds(w);
    KindsParsed(ws);
    PairParsed(w);
    PairKept(w);
    LastStep(KindsOf(ws), AllParsed(ws), Pair(w), Parsed(w));
  }

  /** Blocks that make `ma`, then one more block that makes `m`. */
  lemma LastStep(a: seq<LineKind>, ma: seq<MigrationProto>, p: seq<LineKind>, m: MigrationProto)
    requires NonBlank(a) == a && Closed(a) && Migrations(a) == Ok(ma)
    requires NonBlank(p) == p && p != [] && p[0].Header? && Migrations(p) == Ok([m])
    ensures Migrations(NonBlank(a + p)) == Ok(ma + [m])
  {
    NonBlankAppend(a, p);
    Compose(a, p, ma);
  }

  /** A single block with no final newline, such as `-- :user1:ns1:comment1` then one SQL line, parses to its migration. */
  lemma SingleBlock(w: Written)
    requires WellWritten(w)
    ensures Parse(HeaderText(w) + "\n" + w.body) == Ok([Parsed(w)])
  {
    var x := HeaderText(w) + "\n" + w.body;
    SingleLines(w, x);
  }

  /** `SingleBlock` with the file text named. */
  lemma SingleLines(w: Written, x: Text)
    requires WellWritten(w) && x == HeaderText(w) + "\n" + w.body
    ensures Parse(x) == Ok([Parsed(w)])
  {
    LastLines(w);
    LastKinds(w);
    PairParsed(w);
    PairKept(w);
    ParsedAs(x, [HeaderText(w), DropCR(w.body)], Pair(w), Ok([Parsed(w)]));
  }

  /** `Parse` in its three stages: scanned lines, their kinds, then the blocks of the kinds that are kept. */
  lemma ParsedAs(x: Text, lines: seq<Text>, kinds: seq<LineKind>, r: Result<seq<MigrationProto>, Error>)
    requires SplitLines(x) == lines && Kinds(lines) == kinds
    requires NonBlank(kinds) == kinds && Migrations(kinds) == r
    ensures Parse(x) == r
  {
  }
}
