/**
 * What `ParseSQL` promises, stated on the block-wise reading `Migrations`
 * of the non-blank lines: blank lines change nothing, blocks are cut
 * independently and come out in file order, a header must be followed by
 * body text before the next header, a trailing empty header is dropped, and
 * every migration carries a parsed header, the signature of its raw header
 * line and a non-empty trimmed DDL.
 */
module ParserFacts {
  import opened Wrappers
  import opened SqlText
  import opened Api
  import opened HeaderParser
  import opened Fnv
  import opened MigrationsParser

  /** Blank lines are dropped wherever they are, so `NonBlank` distributes over concatenation. */
  lemma {:induction false} NonBlankAppend(a: seq<LineKind>, b: seq<LineKind>)
    ensures NonBlank(a + b) == NonBlank(a) + NonBlank(b)
    decreases |a|
  {
    if a == [] {
      assert a + b == b;
    } else {
      assert (a + b)[0] == a[0] && (a + b)[1..] == a[1..] + b;
      NonBlankAppend(a[1..], b);
    }
  }

  /** A run of blank lines contributes nothing. */
  lemma {:induction false} NonBlankOfBlanks(gap: seq<LineKind>)
    requires forall k :: 0 <= k < |gap| ==> gap[k].Blank?
    ensures NonBlank(gap) == []
    decreases |gap|
  {
    if gap != [] {
      NonBlankOfBlanks(gap[1..]);
    }
  }

  /** A blank line inserted anywhere leaves the parse unchanged: it neither closes a block nor enters its body. */
  lemma BlankIgnored(a: seq<LineKind>, b: seq<LineKind>)
    ensures Migrations(NonBlank(a + [Blank] + b)) == Migrations(NonBlank(a + b))
  {
    NonBlankAppend(a + [Blank], b);
    NonBlankAppend(a, [Blank]);
    NonBlankAppend(a, b);
    assert NonBlank([Blank]) == [];
    assert NonBlank(a) + [] == NonBlank(a);
  }

  /** Body lines at the end of `t` run on into `b` only when `t` is all body. */
  lemma {:induction false} BodyLengthAppend(t: seq<LineKind>, b: seq<LineKind>)
    ensures BodyLength(t) < |t| ==> BodyLength(t + b) == BodyLength(t)
    ensures BodyLength(t) == |t| ==> BodyLength(t + b) == |t| + BodyLength(b)
    decreases |t|
  {
    if t == [] {
      assert t + b == b;
    } else {
      assert (t + b)[0] == t[0] && (t + b)[1..] == t[1..] + b;
      BodyLengthAppend(t[1..], b);
    }
  }

  /** Prepending `m` commutes with appending `ms` in front. */
  lemma PrependAll(m: MigrationProto, ms: seq<MigrationProto>, r: Result<seq<MigrationProto>, Error>)
    ensures Prepend(m, AppendAll(ms, r)) == AppendAll([m] + ms, r)
  {
    if r.Ok? {
      assert [m] + (ms + r.value) == ([m] + ms) + r.value;
    }
  }

  /** A part that parses and ends in body text; `Compose` cuts the input after such a part. */
  predicate Closed(a: seq<LineKind>) {
    a == [] || a[|a| - 1].Body?
  }

  /** The migration a block opened by `h` makes of the body lines at the front of `t`. */
  function Head(h: MigrationProto, t: seq<LineKind>): MigrationProto {
    h.(ddl := TrimSpace(Collect([], t[..BodyLength(t)])))
  }

  /** A block with a body is not disturbed by lines after it that start with a header. */
  lemma BlockAppend(h: MigrationProto, t: seq<LineKind>, rest: seq<LineKind>, b: seq<LineKind>)
    requires BodyLength(t) > 0 && rest == t[BodyLength(t)..]
    requires b == [] || b[0].Header?
    ensures Block(h, t + b) == Prepend(Head(h, t), Migrations(rest + b))
  {
    var n := BodyLength(t);
    BodyLengthAppend(t, b);
    assert BodyLength(t + b) == n;
    assert (t + b)[..n] == t[..n] && (t + b)[n..] == rest + b;
  }

  /**
   * The first block of a part that parses and ends in body text: its header
   * `h`, the lines `t` after the header, the lines `rest` after its body and
   * the migrations `ms` they make.
   */
  lemma FirstBlock(a: seq<LineKind>, ma: seq<MigrationProto>, b: seq<LineKind>)
    returns (h: MigrationProto, t: seq<LineKind>, rest: seq<LineKind>, ms: seq<MigrationProto>)
    requires Migrations(a) == Ok(ma) && Closed(a) && a != []
    ensures BodyLength(t) > 0 && rest == t[BodyLength(t)..]
    ensures Closed(rest) && |rest| < |a|
    ensures Migrations(rest) == Ok(ms) && ma == [Head(h, t)] + ms
    ensures Migrations(a + b) == Block(h, t + b)
  {
    h := a[0].block.value;
    t := a[1..];
    rest := t[BodyLength(t)..];
    if rest != [] {
      assert rest[|rest| - 1] == a[|a| - 1];
    }
    ms := Migrations(rest).value;
    HeaderFirst(a, h, b);
  }

  /** A part that starts with a header that parses is that header's block over all the lines after it. */
  lemma HeaderFirst(a: seq<LineKind>, h: MigrationProto, b: seq<LineKind>)
    requires a != [] && a[0] == Header(Ok(h))
    ensures Migrations(a + b) == Block(h, a[1..] + b)
  {
    assert (a + b)[0] == a[0] && (a + b)[1..] == a[1..] + b;
  }

  /**
   * Blocks are cut independently: when the non-blank lines `a` parse to
   * `ma` and end in body text, and `b` starts with a header, the migrations
   * of `a + b` are those of `a` followed by those of `b`.
   */
  lemma {:induction false} Compose(a: seq<LineKind>, b: seq<LineKind>, ma: seq<MigrationProto>)
    requires Migrations(a) == Ok(ma) && Closed(a)
    requires b == [] || b[0].Header?
    ensures Migrations(a + b) == AppendAll(ma, Migrations(b))
    decreases |a|
  {
    if a == [] {
      assert a + b == b;
      var mb := Migrations(b);
      if mb.Ok? {
        assert [] + mb.value == mb.value;
      }
    } else {
      var h, t, rest, ms := FirstBlock(a, ma, b);
      BlockAppend(h, t, rest, b);
      Compose(rest, b, ms);
      PrependAll(Head(h, t), ms, Migrations(b));
    }
  }

  /** Every line of `gap` is blank. */
  predicate AllBlank(gap: seq<LineKind>) {
    forall k :: 0 <= k < |gap| ==> gap[k].Blank?
  }

  /**
   * A header that ends the input with no body after it, blank lines allowed,
   * is dropped without an error.
   */
  lemma TrailingHeaderDropped(pre: seq<LineKind>, ma: seq<MigrationProto>, h: MigrationProto, gap: seq<LineKind>)
    requires Migrations(NonBlank(pre)) == Ok(ma) && Closed(NonBlank(pre))
    requires AllBlank(gap)
    ensures Migrations(NonBlank(pre + [Header(Ok(h))] + gap)) == Ok(ma)
  {
    NonBlankAppend(pre + [Header(Ok(h))], gap);
    NonBlankAppend(pre, [Header(Ok(h))]);
    NonBlankOfBlanks(gap);
    assert NonBlank([Header(Ok(h))]) == [Header(Ok(h))];
    assert NonBlank(pre + [Header(Ok(h))] + gap) == NonBlank(pre) + [Header(Ok(h))];
    Compose(NonBlank(pre), [Header(Ok(h))], ma);
    assert Migrations([Header(Ok(h))]) == Ok([]) by {
      assert [Header(Ok(h))][1..] == [];
    }
    assert ma + [] == ma;
  }

  /**
   * A header followed by another header with only blank lines between them
   * makes the whole parse fail, naming the comment of the first, wherever the
   * pair occurs after well-formed blocks.
   */
  lemma HeaderWithoutBody(pre: seq<LineKind>, ma: seq<MigrationProto>, h: MigrationProto, gap: seq<LineKind>,
                          next: Result<MigrationProto, Error>, post: seq<LineKind>)
    requires Migrations(NonBlank(pre)) == Ok(ma) && Closed(NonBlank(pre))
    requires AllBlank(gap)
    ensures Migrations(NonBlank(pre + [Header(Ok(h))] + gap + [Header(next)] + post)) == Err(HeaderWithoutSql(h.comment))
  {
    var pair := [Header(Ok(h)), Header(next)] + NonBlank(post);
    PairKinds(pre, h, gap, next, post);
    Compose(NonBlank(pre), pair, ma);
    assert pair[1..][0] == Header(next);
    assert Migrations(pair) == Err(HeaderWithoutSql(h.comment));
  }

  /**
   * A header line that does not parse fails the whole parse with its error,
   * wherever it occurs after well-formed blocks.
   */
  lemma BadHeaderFails(pre: seq<LineKind>, ma: seq<MigrationProto>, e: Error, post: seq<LineKind>)
    requires Migrations(NonBlank(pre)) == Ok(ma) && Closed(NonBlank(pre))
    ensures Migrations(NonBlank(pre + [Header(Err(e))] + post)) == Err(e)
  {
    var bad := [Header(Err(e))] + NonBlank(post);
    FrontKinds(pre, Header(Err(e)), post);
    Compose(NonBlank(pre), bad, ma);
    assert bad[0] == Header(Err(e));
  }

  /** The non-blank lines around one line that is not blank. */
  lemma FrontKinds(pre: seq<LineKind>, kind: LineKind, post: seq<LineKind>)
    requires !kind.Blank?
    ensures NonBlank(pre + [kind] + post) == NonBlank(pre) + ([kind] + NonBlank(post))
  {
    SingleKind(kind);
    NonBlankAppend(pre + [kind], post);
    NonBlankAppend(pre, [kind]);
    Regroup(NonBlank(pre), [kind], NonBlank(post));
  }

  /**
   * A line that starts with `--` as it stands is a header however it goes on:
   * with fewer than three colons after the `--` it is the not-enough-parts error.
   */
  lemma FewColonsHeader(line: Text)
    requires IsHeaderLine(line) && !IsBlank(line)
    requires Occurrences(HeaderInput(line), ':', 0) < 3
    ensures Classify(line) == Header(Err(InvalidHeader(NotEnoughParts, line)))
  {
    TooFewColons(line);
  }

  /** The non-blank lines around two headers separated by blank lines: the two headers side by side. */
  lemma PairKinds(pre: seq<LineKind>, h: MigrationProto, gap: seq<LineKind>, next: Result<MigrationProto, Error>, post: seq<LineKind>)
    requires AllBlank(gap)
    ensures NonBlank(pre + [Header(Ok(h))] + gap + [Header(next)] + post) ==
      NonBlank(pre) + ([Header(Ok(h)), Header(next)] + NonBlank(post))
  {
    var x := [Header(Ok(h))];
    var y := [Header(next)];
    SingleKind(Header(Ok(h)));
    SingleKind(Header(next));
    GapKinds(pre, x, gap, y);
    NonBlankAppend(pre + x + gap + y, post);
    assert NonBlank(pre) + x + y + NonBlank(post) == NonBlank(pre) + ([Header(Ok(h)), Header(next)] + NonBlank(post));
  }

  /** A single line that is not blank is kept. */
  lemma SingleKind(kind: LineKind)
    requires !kind.Blank?
    ensures NonBlank([kind]) == [kind]
  {
    assert [kind][1..] == [];
  }

  /** Concatenation of line lists is associative (used to rebracket without unfolding). */
  lemma Regroup(a: seq<LineKind>, x: seq<LineKind>, b: seq<LineKind>)
    ensures a + x + b == a + (x + b)
  {
  }

  /** Two non-blank lines `x` and `y` around the blank lines `gap`, after `pre`. */
  lemma GapKinds(pre: seq<LineKind>, x: seq<LineKind>, gap: seq<LineKind>, y: seq<LineKind>)
    requires AllBlank(gap) && NonBlank(x) == x && NonBlank(y) == y
    ensures NonBlank(pre + x + gap + y) == NonBlank(pre) + x + y
  {
    NonBlankAppend(pre, x);
    NonBlankAppend(pre + x, gap);
    NonBlankOfBlanks(gap);
    NonBlankAppend(pre + x + gap, y);
    assert NonBlank(pre) + x + [] == NonBlank(pre) + x;
  }

  /** Body text before the first header fails the whole parse. */
  lemma BodyBeforeHeader(gap: seq<LineKind>, text: Text, post: seq<LineKind>)
    requires AllBlank(gap)
    ensures Migrations(NonBlank(gap + [Body(text)] + post)) == Err(MissingHeader)
  {
    NonBlankAppend(gap + [Body(text)], post);
    NonBlankAppend(gap, [Body(text)]);
    NonBlankOfBlanks(gap);
    assert NonBlank([Body(text)]) == [Body(text)];
    assert NonBlank(gap + [Body(text)] + post)[0] == Body(text);
  }

  /** Content made of white space only yields no migrations and no error. */
  lemma BlankContent(content: Text)
    requires AllSpace(content)
    ensures Parse(content) == Ok([])
  {
    var lines := SplitLines(content);
    var kinds := Kinds(lines);
    forall k | 0 <= k < |lines|
      ensures kinds[k].Blank?
    {
      assert AllSpace(lines[k]) by {
        forall j | 0 <= j < |lines[k]|
          ensures IsSpace(lines[k][j])
        {
          var c := lines[k][j];
          assert c in content;
          var p :| 0 <= p < |content| && content[p] == c;
        }
      }
    }
    NonBlankOfBlanks(kinds);
  }

  /** The body text collected so far stays at the front of the builder. */
  lemma {:induction false} CollectKeeps(ddl: Text, kinds: seq<LineKind>)
    ensures |Collect(ddl, kinds)| >= |ddl| && Collect(ddl, kinds)[..|ddl|] == ddl
    decreases |kinds|
  {
    if kinds != [] {
      var next := if kinds[0].Body? then WriteLine(ddl, kinds[0].text) else ddl;
      CollectKeeps(next, kinds[1..]);
      assert next[..|ddl|] == ddl;
      assert Collect(ddl, kinds)[..|next|][..|ddl|] == Collect(ddl, kinds)[..|ddl|];
    }
  }

  /** A position of a character that is not white space, in a text that does not trim to nothing. */
  lemma NonSpaceAt(s: Text) returns (p: nat)
    requires TrimSpace(s) != []
    ensures p < |s| && !IsSpace(s[p])
  {
    p :| p < |s| && !IsSpace(s[p]);
  }

  /** Text that starts with `s` keeps the non-space character `s[p]`, so it does not trim to nothing. */
  lemma KeepsNonSpace(s: Text, t: Text, p: nat)
    requires p < |s| <= |t| && t[..|s|] == s && !IsSpace(s[p])
    ensures TrimSpace(t) != []
  {
    assert t[p] == t[..|s|][p];
  }

  /** The builder starts with the first body line of the block. */
  lemma FirstLineKept(body: seq<LineKind>)
    requires body != [] && body[0].Body?
    ensures |body[0].text| <= |Collect([], body)| && Collect([], body)[..|body[0].text|] == body[0].text
  {
    var line := body[0].text;
    var first := WriteLine([], line);
    assert Collect([], body) == Collect(first, body[1..]);
    CollectKeeps(first, body[1..]);
    assert first[..|line|] == line;
    assert Collect([], body)[..|first|][..|line|] == Collect([], body)[..|line|];
  }

  /** A block whose first body line holds more than white space has a non-empty DDL. */
  lemma BodyText(body: seq<LineKind>)
    requires body != [] && body[0].Body? && !IsBlank(body[0].text)
    ensures TrimSpace(Collect([], body)) != []
  {
    var p := NonSpaceAt(body[0].text);
    FirstLineKept(body);
    KeepsNonSpace(body[0].text, Collect([], body), p);
  }

  /** Every body line among `kinds` holds more than white space, as `Classify` makes it. */
  predicate BodiesNonBlank(kinds: seq<LineKind>) {
    forall x :: x in kinds && x.Body? ==> !IsBlank(x.text)
  }

  /**
   * The first block of a part that parses: its header `h`, the lines `t`
   * after the header, and, unless the part is that header alone, the lines
   * `rest` after its body and the migrations `ms` they make.
   */
  lemma OpenFirst(a: seq<LineKind>, ma: seq<MigrationProto>)
    returns (h: MigrationProto, t: seq<LineKind>, rest: seq<LineKind>, ms: seq<MigrationProto>)
    requires Migrations(a) == Ok(ma) && a != []
    ensures a[0] == Header(Ok(h)) && t == a[1..]
    ensures t == [] ==> ma == []
    ensures t != [] ==> BodyLength(t) > 0 && rest == t[BodyLength(t)..] && |rest| < |a|
    ensures t != [] ==> Migrations(rest) == Ok(ms) && ma == [Head(h, t)] + ms
    ensures forall x :: x in rest ==> x in a
  {
    h := a[0].block.value;
    t := a[1..];
    assert Block(h, t) == Ok(ma);
    rest, ms := [], [];
    if t != [] {
      var n := BodyLength(t);
      rest := t[n..];
      assert rest == a[1 + n..];
      SuffixIn(a, 1 + n);
      ms := Migrations(rest).value;
    }
  }

  /** Every line of a suffix of `a` is a line of `a`. */
  lemma SuffixIn(a: seq<LineKind>, k: nat)
    requires k <= |a|
    ensures forall x :: x in a[k..] ==> x in a
  {
    forall x | x in a[k..]
      ensures x in a
    {
      var p :| 0 <= p < |a[k..]| && a[k..][p] == x;
      assert a[k + p] == x;
    }
  }

  /**
   * Every migration the block-wise reading yields is one of the headers
   * among `kinds` with a trimmed DDL filled in.
   */
  lemma {:induction false} MigrationsFromHeaders(kinds: seq<LineKind>, ms: seq<MigrationProto>)
    requires Migrations(kinds) == Ok(ms)
    ensures forall m :: m in ms ==> Trimmed(m.ddl) && exists h :: Header(Ok(h)) in kinds && m == h.(ddl := m.ddl)
    decreases |kinds|
  {
    if kinds != [] {
      var h, t, rest, more := OpenFirst(kinds, ms);
      if t != [] {
        MigrationsFromHeaders(rest, more);
        forall m | m in ms
          ensures Trimmed(m.ddl) && exists h :: Header(Ok(h)) in kinds && m == h.(ddl := m.ddl)
        {
          if m == Head(h, t) {
            assert Header(Ok(h)) in kinds;
          } else {
            assert m in more;
            var g :| Header(Ok(g)) in rest && m == g.(ddl := m.ddl);
          }
        }
      }
    }
  }

  /** When every body line holds more than white space, every migration has a non-empty DDL. */
  lemma {:induction false} DdlNotEmpty(kinds: seq<LineKind>, ms: seq<MigrationProto>)
    requires Migrations(kinds) == Ok(ms) && BodiesNonBlank(kinds)
    ensures forall m :: m in ms ==> m.ddl != []
    decreases |kinds|
  {
    if kinds != [] {
      var h, t, rest, more := OpenFirst(kinds, ms);
      if t != [] {
        BodiesNonBlankWithin(kinds, rest);
        DdlNotEmpty(rest, more);
        FirstDdl(kinds, h, t);
        assert forall m :: m in ms ==> m == Head(h, t) || m in more;
      }
    }
  }

  /** Lines taken from `kinds` keep the property that every body line holds more than white space. */
  lemma BodiesNonBlankWithin(kinds: seq<LineKind>, rest: seq<LineKind>)
    requires BodiesNonBlank(kinds) && forall x :: x in rest ==> x in kinds
    ensures BodiesNonBlank(rest)
  {
  }

  /** The first block's DDL is not empty when its first body line holds more than white space. */
  lemma FirstDdl(kinds: seq<LineKind>, h: MigrationProto, t: seq<LineKind>)
    requires kinds != [] && t == kinds[1..] && BodyLength(t) > 0 && BodiesNonBlank(kinds)
    ensures Head(h, t).ddl != []
  {
    var body := t[..BodyLength(t)];
    assert body[0] == kinds[1];
    assert kinds[1] in kinds;
    BodyText(body);
  }

  /** A header that parses, opened by a header line `line` of the input. */
  predicate OpenedBy(h: MigrationProto, line: Text) {
    IsHeaderLine(line) && OpenBlock(line) == Ok(h)
  }

  /** A scanned line is skipped, a header line or a body line holding more than white space. */
  lemma ClassifyCases(line: Text)
    ensures Classify(line).Body? ==> Classify(line).text == line && !IsBlank(line)
    ensures Classify(line).Header? ==> IsHeaderLine(line) && Classify(line).block == OpenBlock(line)
  {
  }

  /** The lines `NonBlank` keeps are exactly the lines of `kinds` that are not blank. */
  lemma {:induction false} NonBlankMembers(kinds: seq<LineKind>)
    ensures forall x :: x in NonBlank(kinds) <==> x in kinds && !x.Blank?
    decreases |kinds|
  {
    if kinds != [] {
      NonBlankMembers(kinds[1..]);
      assert kinds == [kinds[0]] + kinds[1..];
    }
  }

  /** What the scanned lines turn into when they are not skipped. */
  lemma ScannedKinds(lines: seq<Text>)
    ensures BodiesNonBlank(NonBlank(Kinds(lines)))
    ensures forall h :: Header(Ok(h)) in NonBlank(Kinds(lines)) ==> exists line :: line in lines && OpenedBy(h, line)
  {
    var kinds := Kinds(lines);
    NonBlankMembers(kinds);
    forall x | x in NonBlank(kinds)
      ensures x.Body? ==> !IsBlank(x.text)
      ensures x.Header? && x.block.Ok? ==> lines[IndexIn(kinds, x)] in lines && OpenedBy(x.block.value, lines[IndexIn(kinds, x)])
    {
      var j := IndexIn(kinds, x);
      ClassifyCases(lines[j]);
    }
  }

  /** A position of `x` in `s`. */
  function IndexIn<T(==)>(s: seq<T>, x: T): (j: nat)
    requires x in s
    ensures j < |s| && s[j] == x
  {
    if s[0] == x then 0 else 1 + IndexIn(s[1..], x)
  }

  /** The header fields of a parsed header line, and its signature. */
  lemma OpenedFields(h: MigrationProto, line: Text)
    requires OpenedBy(h, line)
    ensures h.user != [] && h.namespace != [] && h.comment != []
    ensures Trimmed(h.user) && Trimmed(h.namespace) && Trimmed(h.comment)
    ensures h.ddl == [] && h.signature == GenerateSignature(line)
  {
  }

  /**
   * Every migration `ParseSQL` returns comes from a header line of the
   * content: its fields are that line's parsed fields, its signature is the
   * FNV-1a hash of the raw line, and its DDL is non-empty and trimmed.
   */
  lemma ParsedMigrations(content: Text, ms: seq<MigrationProto>)
    requires Parse(content) == Ok(ms)
    ensures forall m :: m in ms ==>
      && m.ddl != [] && Trimmed(m.ddl)
      && m.user != [] && m.namespace != [] && m.comment != []
      && exists line :: line in SplitLines(content) && OpenedBy(m.(ddl := []), line) && m.signature == GenerateSignature(line)
  {
    var lines := SplitLines(content);
    var kinds := NonBlank(Kinds(lines));
    ScannedKinds(lines);
    MigrationsFromHeaders(kinds, ms);
    DdlNotEmpty(kinds, ms);
    forall m | m in ms
      ensures m.user != [] && m.namespace != [] && m.comment != []
      ensures exists line :: line in lines && OpenedBy(m.(ddl := []), line) && m.signature == GenerateSignature(line)
    {
      var h :| Header(Ok(h)) in kinds && m == h.(ddl := m.ddl);
      var line :| line in lines && OpenedBy(h, line);
      OpenedFields(h, line);
      assert m.(ddl := []) == h;
    }
  }

  /** The body lines of `kinds`, each followed by a newline, one after the other. */
  function Joined(kinds: seq<LineKind>): Text
    decreases |kinds|
  {
    if kinds == [] then []
    else if kinds[0].Body? then kinds[0].text + "\n" + Joined(kinds[1..])
    else Joined(kinds[1..])
  }

  /** The builder ends up holding what it held before, then every body line followed by a newline. */
  lemma {:induction false} CollectJoined(ddl: Text, kinds: seq<LineKind>)
    ensures Collect(ddl, kinds) == ddl + Joined(kinds)
    decreases |kinds|
  {
    if kinds == [] {
      assert ddl + [] == ddl;
    } else if kinds[0].Body? {
      var line := kinds[0].text;
      CollectJoined(WriteLine(ddl, line), kinds[1..]);
      assert (ddl + line + "\n") + Joined(kinds[1..]) == ddl + (line + "\n" + Joined(kinds[1..]));
    } else {
      CollectJoined(ddl, kinds[1..]);
    }
  }
}
