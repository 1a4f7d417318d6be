/**
 * The byte-string primitives of Go's `strings` and `bufio` packages that the
 * migration parser relies on, restricted to what they do on ASCII input.
 * A Go string is a sequence of bytes; here each byte is a `char` below 256.
 */
module SqlText {

  type Byte = c: char | c as int < 256

  type Text = seq<Byte>

  /** The ASCII white space `strings.TrimSpace` removes: space, \t, \n, \v, \f, \r. */
  predicate IsSpace(c: Byte) {
    c == ' ' || c == '\t' || c == '\n' || c == '\U{B}' || c == '\U{C}' || c == '\r'
  }

  /** Every byte of `s` is white space. */
  predicate AllSpace(s: Text) {
    forall i :: 0 <= i < |s| ==> IsSpace(s[i])
  }

  /** `s` without its leading white space. */
  function TrimLeft(s: Text): (r: Text)
    ensures |r| <= |s| && r == s[|s| - |r|..]
    ensures AllSpace(s[..|s| - |r|])
    ensures r != [] ==> !IsSpace(r[0])
    decreases |s|
  {
    if s != [] && IsSpace(s[0]) then TrimLeft(s[1..]) else s
  }

  /** `s` without its trailing white space. */
  function TrimRight(s: Text): (r: Text)
    ensures |r| <= |s| && r == s[..|r|]
    ensures AllSpace(s[|r|..])
    ensures r != [] ==> !IsSpace(r[|r| - 1])
    decreases |s|
  {
    if s != [] && IsSpace(s[|s| - 1]) then TrimRight(s[..|s| - 1]) else s
  }

  /** Neither starts nor ends with white space. */
  predicate Trimmed(s: Text) {
    s == [] || (!IsSpace(s[0]) && !IsSpace(s[|s| - 1]))
  }

  /** `strings.TrimSpace`: drop leading and trailing white space. */
  function TrimSpace(s: Text): (r: Text)
    ensures r == [] <==> AllSpace(s)
    ensures Trimmed(r)
  {
    var l := TrimLeft(s);
    var r := TrimRight(l);
    assert r == [] ==> AllSpace(s) by {
      if r == [] {
        assert l == [];
        assert s[..|s|] == s;
      }
    }
    r
  }

  /** `strings.HasPrefix`. */
  predicate HasPrefix<T(==)>(s: seq<T>, prefix: seq<T>) {
    |prefix| <= |s| && s[..|prefix|] == prefix
  }

  /** `strings.HasSuffix`. */
  predicate HasSuffix<T(==)>(s: seq<T>, suffix: seq<T>) {
    |suffix| <= |s| && s[|s| - |suffix|..] == suffix
  }

  /** `strings.TrimPrefix`: drop `prefix` once if `s` starts with it. */
  function TrimPrefix(s: Text, prefix: Text): (r: Text)
    ensures HasPrefix(s, prefix) ==> s == prefix + r
    ensures !HasPrefix(s, prefix) ==> r == s
  {
    if HasPrefix(s, prefix) then s[|prefix|..] else s
  }

  /** ASCII lower-casing, byte by byte. */
  function LowerByte(c: Byte): (r: Byte)
    ensures 'A' <= c <= 'Z' ==> r as int == c as int + 32
    ensures !('A' <= c <= 'Z') ==> r == c
  {
    if 'A' <= c <= 'Z' then (c as int + 32) as char else c
  }

  /** `strings.ToLower` on ASCII: every upper-case letter lowered, every other byte kept. */
  function ToLower(s: Text): (r: Text)
    ensures |r| == |s|
    ensures forall i :: 0 <= i < |s| ==> r[i] == LowerByte(s[i])
  {
    seq(|s|, i requires 0 <= i < |s| => LowerByte(s[i]))
  }

  /** `strings.Index` for a single byte: the first position of `c`, or -1. */
  function IndexOf(s: Text, c: Byte): (r: int)
    ensures -1 <= r < |s|
    ensures r >= 0 ==> s[r] == c
    decreases |s|
  {
    if s == [] then -1
    else if s[0] == c then 0
    else
      var k := IndexOf(s[1..], c);
      if k < 0 then -1 else k + 1
  }

  /** A position holding `c` with no `c` before it is the one `IndexOf` finds. */
  lemma IndexOfIs(s: Text, c: Byte, p: nat)
    requires p < |s| && s[p] == c
    requires forall q :: 0 <= q < p ==> s[q] != c
    ensures IndexOf(s, c) == p
    decreases p
  {
    if p > 0 {
      assert s[0] != c;
      IndexOfIs(s[1..], c, p - 1);
    }
  }

  /** No `c` lies before the position `IndexOf` reports, nor anywhere when it reports -1. */
  lemma {:induction false} IndexOfFirst(s: Text, c: Byte)
    ensures forall q :: 0 <= q < |s| && (IndexOf(s, c) < 0 || q < IndexOf(s, c)) ==> s[q] != c
    decreases |s|
  {
    if s != [] && s[0] != c {
      IndexOfFirst(s[1..], c);
      assert forall q :: 1 <= q < |s| ==> s[q] == s[1..][q - 1];
    }
  }

  /** How often `c` occurs in `s` at or after position `from`. */
  function Occurrences(s: Text, c: Byte, from: nat): nat
    decreases |s| - from
  {
    if from >= |s| then 0 else (if s[from] == c then 1 else 0) + Occurrences(s, c, from + 1)
  }

  /** `bufio.ScanLines` drops one trailing carriage return from every line. */
  function DropCR(line: Text): (r: Text)
    ensures HasSuffix(line, "\r") ==> r == line[..|line| - 1]
    ensures !HasSuffix(line, "\r") ==> r == line
  {
    if |line| > 0 && line[|line| - 1] == '\r' then line[..|line| - 1] else line
  }

  /**
   * The lines a `bufio.Scanner` with `ScanLines` yields: the text between
   * newlines, with a final unterminated line if one is left, and no empty
   * line after a final newline.
   */
  function SplitLines(s: Text): (lines: seq<Text>)
    ensures forall k :: 0 <= k < |lines| ==> '\n' !in lines[k]
    ensures forall k, j :: 0 <= k < |lines| && 0 <= j < |lines[k]| ==> lines[k][j] in s
    ensures s == [] <==> lines == []
    decreases |s|
  {
    if s == [] then []
    else
      var i := IndexOf(s, '\n');
      IndexOfFirst(s, '\n');
      if i < 0 then [DropCR(s)]
      else
        var rest := SplitLines(s[i + 1..]);
        SuffixChars(s, i + 1);
        [DropCR(s[..i])] + rest
  }

  /** Every character of a suffix of `s` is a character of `s`. */
  lemma SuffixChars(s: Text, from: nat)
    requires from <= |s|
    ensures forall x :: x in s[from..] ==> x in s
  {
    forall x | x in s[from..]
      ensures x in s
    {
      var t :| 0 <= t < |s[from..]| && s[from..][t] == x;
      assert s[from + t] == x;
    }
  }

  /** Text with no white space at either end is left as it is. */
  lemma TrimAlready(s: Text)
    requires Trimmed(s)
    ensures TrimSpace(s) == s
  {
  }

  /** Leading white space is dropped one character at a time. */
  lemma TrimOneSpace(s: Text)
    requires s != [] && IsSpace(s[0])
    ensures TrimSpace(s) == TrimSpace(s[1..])
  {
  }

  /**
   * `TrimSpace` removes exactly the white space at both ends: `s` is some
   * white space, then the trimmed text, then some more white space.
   */
  lemma TrimBounds(s: Text) returns (a: nat)
    ensures a + |TrimSpace(s)| <= |s|
    ensures s == s[..a] + TrimSpace(s) + s[a + |TrimSpace(s)|..]
    ensures AllSpace(s[..a]) && AllSpace(s[a + |TrimSpace(s)|..])
  {
    a := TrimParts(s, TrimLeft(s), TrimRight(TrimLeft(s)));
  }

  /** `TrimBounds` for the two steps `TrimSpace` takes: `l` without leading, then `r` without trailing white space. */
  lemma TrimParts(s: Text, l: Text, r: Text) returns (a: nat)
    requires l == TrimLeft(s) && r == TrimRight(l)
    ensures a + |r| <= |s| && s == s[..a] + r + s[a + |r|..]
    ensures AllSpace(s[..a]) && AllSpace(s[a + |r|..])
  {
    a := |s| - |l|;
    SplitAround(s, l, r, a);
  }

  /** The pieces of `s` around the text `r` that `TrimRight` leaves of the suffix `l`. */
  lemma SplitAround(s: Text, l: Text, r: Text, a: nat)
    requires a <= |s| && l == s[a..] && |r| <= |l| && r == l[..|r|]
    ensures a + |r| <= |s| && s == s[..a] + r + s[a + |r|..] && s[a + |r|..] == l[|r|..]
  {
    assert s[a..a + |r|] == r;
    assert s == s[..a] + s[a..a + |r|] + s[a + |r|..];
  }

  /** Leading white space is dropped the same way whatever follows text that is not all white space. */
  lemma {:induction false} TrimLeftAppend(x: Text, c: Byte)
    requires !AllSpace(x)
    ensures TrimLeft(x + [c]) == TrimLeft(x) + [c]
    decreases |x|
  {
    if IsSpace(x[0]) {
      assert (x + [c])[1..] == x[1..] + [c];
      TrimLeftAppend(x[1..], c);
    }
  }

  /** A white-space byte at the end, such as the newline after a body line, does not change the trimmed text. */
  lemma TrimSpaceAfter(x: Text, c: Byte)
    requires IsSpace(c)
    ensures TrimSpace(x + [c]) == TrimSpace(x)
  {
    if AllSpace(x) {
      assert AllSpace(x + [c]) by {
        forall i | 0 <= i < |x + [c]|
          ensures IsSpace((x + [c])[i])
        {
          if i < |x| {
            assert (x + [c])[i] == x[i];
          }
        }
      }
    } else {
      TrimLeftAppend(x, c);
      var y := TrimLeft(x);
      assert (y + [c])[..|y|] == y;
    }
  }

  /** `bufio.ScanLines` on a line, its newline and the rest: that line, without a carriage return, then the rest's lines. */
  lemma SplitCons(a: Text, b: Text)
    requires '\n' !in a
    ensures SplitLines(a + "\n" + b) == [DropCR(a)] + SplitLines(b)
  {
    var s := a + "\n" + b;
    forall q | 0 <= q < |a|
      ensures s[q] != '\n'
    {
      assert s[q] == a[q];
    }
    IndexOfIs(s, '\n', |a|);
    assert s[..|a|] == a;
    assert s[|a| + 1..] == b;
  }

  /** A last line without a newline is the only line of its text. */
  lemma SplitOne(a: Text)
    requires a != [] && '\n' !in a
    ensures SplitLines(a) == [DropCR(a)]
  {
  }

  /** `DropCR(b)` is `b` itself or `b` without its final carriage return. */
  lemma CRSplit(b: Text) returns (c: Text)
    ensures c == DropCR(b)
    ensures b == c || b == c + ['\r']
  {
    c := DropCR(b);
    if HasSuffix(b, "\r") {
      assert b == b[..|b| - 1] + [b[|b| - 1]];
    }
  }

  /** Dropping a final carriage return keeps a character that is not white space. */
  lemma SpaceKept(b: Text, c: Text)
    requires !AllSpace(b) && (b == c || b == c + ['\r'])
    ensures !AllSpace(c)
  {
    var k :| 0 <= k < |b| && !IsSpace(b[k]);
    assert k < |c| && c[k] == b[k];
  }

  /** Dropping a final carriage return does not make a line start with `--`. */
  lemma DashKept(b: Text, c: Text)
    requires !HasPrefix(b, "--") && (b == c || b == c + ['\r'])
    ensures !HasPrefix(c, "--")
  {
    if |c| >= 2 && b != c {
      assert c[..2] == b[..2];
    }
  }

  /** Dropping a final carriage return does not change the trimmed text. */
  lemma TrimKept(b: Text, c: Text)
    requires b == c || b == c + ['\r']
    ensures TrimSpace(c) == TrimSpace(b)
  {
    if b != c {
      TrimSpaceAfter(c, '\r');
    }
  }

  /**
   * A line holding more than white space and not starting with `--` keeps
   * both properties, and its trimmed text, when the scanner drops its final
   * carriage return.
   */
  lemma BodyKept(b: Text)
    requires !AllSpace(b) && !HasPrefix(b, "--")
    ensures !AllSpace(DropCR(b)) && !HasPrefix(DropCR(b), "--")
    ensures TrimSpace(DropCR(b)) == TrimSpace(b)
  {
    var c := CRSplit(b);
    SpaceKept(b, c);
    DashKept(b, c);
    TrimKept(b, c);
  }
}
