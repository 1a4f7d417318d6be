/**
 * Header lines built from their fields: splitting a header written as
 * `-- first:user:namespace:comment` gives those fields back, whatever the
 * comment holds, as long as the first three fields hold no colon.
 */
module HeaderFormat {
  import opened Wrappers
  import opened SqlText
  import opened Api
  import opened HeaderParser

  /** The header line with the fields `first`, `user`, `namespace` and `comment`. */
  function HeaderLine(first: Text, user: Text, namespace: Text, comment: Text): Text {
    "-- " + Fields(first, user, namespace, comment)
  }

  /** The fields joined by colons. */
  function Fields(first: Text, user: Text, namespace: Text, comment: Text): Text {
    first + ":" + user + ":" + namespace + ":" + comment
  }

  /** Where the fields and the colons between them lie. */
  lemma Layout(first: Text, user: Text, namespace: Text, comment: Text, input: Text, i: nat, j: nat, k: nat)
    requires ':' !in first && ':' !in user && ':' !in namespace
    requires input == Fields(first, user, namespace, comment)
    requires i == |first| && j == i + 1 + |user| && k == j + 1 + |namespace|
    ensures ColonsAt(input, i, j, k)
    ensures input[..i] == first && input[i + 1..j] == user && input[j + 1..k] == namespace && input[k + 1..] == comment
  {
    var a := first + ":";
    var b := a + user + ":";
    var c := b + namespace + ":";
    assert input == c + comment;
    assert c[..k] == b + namespace && b[..j] == a + user && a[..i] == first;
    forall p | 0 <= p < k && p != i && p != j
      ensures input[p] != ':'
    {
      if p < i {
        assert input[p] == first[p];
      } else if p < j {
        assert input[p] == user[p - i - 1];
      } else {
        assert input[p] == namespace[p - j - 1];
      }
    }
  }

  /** The text after the marker and one space, already trimmed, is the header input. */
  lemma InputAfterMarker(line: Text, input: Text)
    requires line == "-- " + input && Trimmed(input)
    ensures HeaderInput(line) == input
  {
    assert line == "--" + (" " + input);
    assert TrimPrefix(line, "--") == " " + input;
    TrimOneSpace(" " + input);
    assert (" " + input)[1..] == input;
    TrimAlready(input);
  }

  /** The fields joined by colons hold no surrounding white space when the outer two hold none. */
  lemma FieldsTrimmed(first: Text, user: Text, namespace: Text, comment: Text)
    requires Trimmed(first) && Trimmed(comment)
    ensures Trimmed(Fields(first, user, namespace, comment))
  {
    var input := Fields(first, user, namespace, comment);
    var front := first + ":" + user + ":" + namespace + ":";
    assert input == front + comment;
    if comment == [] {
      assert input[|input| - 1] == ':';
    } else {
      assert input[|input| - 1] == comment[|comment| - 1];
    }
    if first == [] {
      assert input[0] == ':';
    } else {
      assert input[0] == first[0];
    }
  }

  /**
   * Parsing the header line written from its fields yields those fields, as
   * the field checks judge them.
   */
  lemma HeaderRoundTrip(first: Text, user: Text, namespace: Text, comment: Text)
    requires ':' !in first && ':' !in user && ':' !in namespace
    requires Trimmed(first) && Trimmed(comment)
    ensures ParseMigrationHeader(HeaderLine(first, user, namespace, comment)) ==
      FieldsResult(HeaderLine(first, user, namespace, comment), first, user, namespace, comment)
  {
    var line := HeaderLine(first, user, namespace, comment);
    var input := Fields(first, user, namespace, comment);
    FieldsTrimmed(first, user, namespace, comment);
    InputAfterMarker(line, input);
    var i, j := |first|, |first| + 1 + |user|;
    var k := j + 1 + |namespace|;
    Layout(first, user, namespace, comment, input, i, j, k);
    HeaderFields(line, i, j, k);
    FieldsBetween(line, input, i, j, k, first, user, namespace, comment);
  }

  /** `FieldsAt` reads the fields that lie between the colons. */
  lemma FieldsBetween(line: Text, input: Text, i: nat, j: nat, k: nat, first: Text, user: Text, namespace: Text, comment: Text)
    requires i < j < k < |input|
    requires input[..i] == first && input[i + 1..j] == user && input[j + 1..k] == namespace && input[k + 1..] == comment
    ensures FieldsAt(line, input, i, j, k) == FieldsResult(line, first, user, namespace, comment)
  {
  }

  /**
   * A header written from trimmed, non-empty user, namespace and comment
   * parses to a migration holding exactly those three, marked to skip when
   * the first field reads `skip` in any case.
   */
  lemma HeaderParsed(first: Text, user: Text, namespace: Text, comment: Text)
    requires ':' !in first && ':' !in user && ':' !in namespace
    requires Trimmed(first) && Trimmed(user) && Trimmed(namespace) && Trimmed(comment)
    requires user != [] && namespace != [] && comment != []
    ensures ParseMigrationHeader(HeaderLine(first, user, namespace, comment)) ==
      Ok(MigrationProto(namespace, user, comment, [], IsSkipMarker(first), 0))
  {
    HeaderRoundTrip(first, user, namespace, comment);
    TrimAlready(user);
    TrimAlready(namespace);
    TrimAlready(comment);
  }
}
