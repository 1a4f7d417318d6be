/**
 * 64-bit FNV-1a, the hash `generateSignature` takes over a raw header line
 * (Go's `hash/fnv` `New64a`, `Write`, `Sum64`), as section 2 of the IETF
 * draft draft-eastlake-fnv defines it.  The state is a `bv64`, so the
 * multiplication wraps modulo 2^64 exactly as Go's `uint64` does.
 */
module Fnv {
  import opened SqlText

  /** The 64-bit offset basis and FNV prime of draft-eastlake-fnv, section 2. */
  const OffsetBasis: bv64 := 14695981039346656037
  const Prime: bv64 := 1099511628211

  /**
   * The byte behind one character of a Go string (`[]byte(header)`), built
   * bit by bit from the character's code, highest bit first.
   */
  function Octet(c: Byte): (r: bv8)
    ensures r as int == c as int
  {
    var x7 := c as int;
    var x6 := if x7 >= 128 then x7 - 128 else x7;
    var x5 := if x6 >= 64 then x6 - 64 else x6;
    var x4 := if x5 >= 32 then x5 - 32 else x5;
    var x3 := if x4 >= 16 then x4 - 16 else x4;
    var x2 := if x3 >= 8 then x3 - 8 else x3;
    var x1 := if x2 >= 4 then x2 - 4 else x2;
    var x0 := if x1 >= 2 then x1 - 2 else x1;
    (if x7 >= 128 then 0x80 else 0) | (if x6 >= 64 then 0x40 else 0) |
    (if x5 >= 32 then 0x20 else 0) | (if x4 >= 16 then 0x10 else 0) |
    (if x3 >= 8 then 0x08 else 0) | (if x2 >= 4 then 0x04 else 0) |
    (if x1 >= 2 then 0x02 else 0) | (if x0 >= 1 then 0x01 else 0)
  }

  function Octets(s: Text): (r: seq<bv8>)
    ensures |r| == |s|
  {
    seq(|s|, i requires 0 <= i < |s| => Octet(s[i]))
  }

  /** One FNV-1a round: xor the octet into the low bits, then multiply by the prime. */
  function MixOctet(h: bv64, b: bv8): bv64 {
    (h ^ (b as bv64)) * Prime
  }

  /** `Write(data)` on a hash whose running state is `h`. */
  function FnvFrom(h: bv64, data: seq<bv8>): bv64
    decreases |data|
  {
    if data == [] then h else FnvFrom(MixOctet(h, data[0]), data[1..])
  }

  /** `Sum64` of a fresh `New64a` after writing `data`. */
  function Sum64a(data: seq<bv8>): bv64 {
    FnvFrom(OffsetBasis, data)
  }

  /** `generateSignature`: the hash of the header line's raw bytes. */
  function GenerateSignature(header: Text): bv64 {
    Sum64a(Octets(header))
  }

  /**
   * An independent definition of FNV-1a 64, by recursion on the last octet:
   * the hash of the empty string is the offset basis, and each further octet
   * is mixed into the hash of what precedes it.  The draft's reference code is
   * the iterative loop over the octets; this recursion states the same
   * computation from the other end.
   */
  function Fnv1a(data: seq<bv8>): bv64
    decreases |data|
  {
    if data == [] then OffsetBasis else MixOctet(Fnv1a(data[..|data| - 1]), data[|data| - 1])
  }

  /** Writing `a` and then `b` hashes the same as writing `a + b` at once. */
  lemma {:induction false} Streaming(h: bv64, a: seq<bv8>, b: seq<bv8>)
    ensures FnvFrom(h, a + b) == FnvFrom(FnvFrom(h, a), b)
    decreases |a|
  {
    if a != [] {
      assert a + b != [] && (a + b)[0] == a[0];
      assert FnvFrom(h, a) == FnvFrom(MixOctet(h, a[0]), a[1..]);
      assert FnvFrom(h, a + b) == FnvFrom(MixOctet(h, a[0]), (a + b)[1..]);
      assert (a + b)[1..] == a[1..] + b;
      Streaming(MixOctet(h, a[0]), a[1..], b);
    } else {
      assert a + b == b;
    }
  }

  /** The byte-at-a-time fold `Write` performs computes the recursive `Fnv1a`. */
  lemma {:induction false} Sum64aIsFnv1a(data: seq<bv8>)
    ensures Sum64a(data) == Fnv1a(data)
    decreases |data|
  {
    if data != [] {
      var n := |data| - 1;
      Sum64aIsFnv1a(data[..n]);
      assert data == data[..n] + [data[n]];
      Streaming(OffsetBasis, data[..n], [data[n]]);
      assert FnvFrom(Fnv1a(data[..n]), [data[n]]) == FnvFrom(MixOctet(Fnv1a(data[..n]), data[n]), []);
    }
  }

  /** Signatures of a concatenation can be computed incrementally. */
  lemma SignatureAppend(a: Text, b: Text)
    ensures GenerateSignature(a + b) == FnvFrom(GenerateSignature(a), Octets(b))
  {
    assert Octets(a + b) == Octets(a) + Octets(b);
    Streaming(OffsetBasis, Octets(a), Octets(b));
  }

  /** The hash of the empty header is the offset basis. */
  lemma EmptySignature()
    ensures GenerateSignature("") == 14695981039346656037
  {
  }

  /** Hashing a slice of the bytes is hashing the bytes of the slice. */
  lemma OctetsSlice(s: Text, i: nat, j: nat)
    requires i <= j <= |s|
    ensures Octets(s)[i..j] == Octets(s[i..j])
  {
  }

  /** Moves the running hash over the slice `t[i..j]`. */
  lemma Extend(h0: bv64, t: seq<bv8>, i: nat, j: nat, hi: bv64, hj: bv64)
    requires i <= j <= |t| && FnvFrom(h0, t[..i]) == hi && FnvFrom(hi, t[i..j]) == hj
    ensures FnvFrom(h0, t[..j]) == hj
  {
    assert t[..j] == t[..i] + t[i..j];
    Streaming(h0, t[..i], t[i..j]);
  }

  // The concrete signatures below are evaluated nine bytes at a time, each
  // chunk starting from the running hash the previous chunk ends with.

  lemma User1Chunk0(c: Text)
    requires c == "-- :user1"
    ensures FnvFrom(14695981039346656037, Octets(c)) == 512989482995054265
  {
    assert Octets("-- :user1") == [45, 45, 32, 58, 117, 115, 101, 114, 49];
    assert FnvFrom(14695981039346656037, [45, 45, 32, 58, 117, 115, 101, 114, 49]) == 512989482995054265;
  }

  lemma User1Chunk1(c: Text)
    requires c == ":ns1:comm"
    ensures FnvFrom(512989482995054265, Octets(c)) == 14702346069630116565
  {
    assert Octets(":ns1:comm") == [58, 110, 115, 49, 58, 99, 111, 109, 109];
    assert FnvFrom(512989482995054265, [58, 110, 115, 49, 58, 99, 111, 109, 109]) == 14702346069630116565;
  }

  lemma User1Chunk2(c: Text)
    requires c == "ent1"
    ensures FnvFrom(14702346069630116565, Octets(c)) == 4193559969700021025
  {
    assert Octets("ent1") == [101, 110, 116, 49];
    assert FnvFrom(14702346069630116565, [101, 110, 116, 49]) == 4193559969700021025;
  }

  lemma User1Text(s: Text)
    requires s == "-- :user1:ns1:comment1"
    ensures GenerateSignature(s) == 4193559969700021025
  {
    var t := Octets(s);
    assert t[..0] == [];
    assert s[0..9] == "-- :user1";
    OctetsSlice(s, 0, 9);
    User1Chunk0(s[0..9]);
    Extend(OffsetBasis, t, 0, 9, 14695981039346656037, 512989482995054265);
    assert s[9..18] == ":ns1:comm";
    OctetsSlice(s, 9, 18);
    User1Chunk1(s[9..18]);
    Extend(OffsetBasis, t, 9, 18, 512989482995054265, 14702346069630116565);
    assert s[18..22] == "ent1";
    OctetsSlice(s, 18, 22);
    User1Chunk2(s[18..22]);
    Extend(OffsetBasis, t, 18, 22, 14702346069630116565, 4193559969700021025);
    assert t[..22] == t;
  }

  /** The header of the single-migration parser case. */
  lemma User1Signature()
    ensures GenerateSignature("-- :user1:ns1:comment1") == 4193559969700021025
  {
    User1Text("-- :user1:ns1:comment1");
  }

  /** The first nine bytes shared by both skip headers. */
  lemma SkipPrefixChunk(c: Text)
    requires c == "-- skip:u"
    ensures FnvFrom(14695981039346656037, Octets(c)) == 335361505983837775
  {
    assert Octets("-- skip:u") == [45, 45, 32, 115, 107, 105, 112, 58, 117];
    assert FnvFrom(14695981039346656037, [45, 45, 32, 115, 107, 105, 112, 58, 117]) == 335361505983837775;
  }

  lemma User2SkipChunk1(c: Text)
    requires c == "ser2:ns2:"
    ensures FnvFrom(335361505983837775, Octets(c)) == 8067635915673805368
  {
    assert Octets("ser2:ns2:") == [115, 101, 114, 50, 58, 110, 115, 50, 58];
    assert FnvFrom(335361505983837775, [115, 101, 114, 50, 58, 110, 115, 50, 58]) == 8067635915673805368;
  }

  lemma User2SkipChunk2(c: Text)
    requires c == "comment2"
    ensures FnvFrom(8067635915673805368, Octets(c)) == 9442060313613740461
  {
    assert Octets("comment2") == [99, 111, 109, 109, 101, 110, 116, 50];
    assert FnvFrom(8067635915673805368, [99, 111, 109, 109, 101, 110, 116, 50]) == 9442060313613740461;
  }

  lemma User2SkipText(s: Text)
    requires s == "-- skip:user2:ns2:comment2"
    ensures GenerateSignature(s) == 9442060313613740461
  {
    var t := Octets(s);
    assert t[..0] == [];
    assert s[0..9] == "-- skip:u";
    OctetsSlice(s, 0, 9);
    SkipPrefixChunk(s[0..9]);
    Extend(OffsetBasis, t, 0, 9, 14695981039346656037, 335361505983837775);
    assert s[9..18] == "ser2:ns2:";
    OctetsSlice(s, 9, 18);
    User2SkipChunk1(s[9..18]);
    Extend(OffsetBasis, t, 9, 18, 335361505983837775, 8067635915673805368);
    assert s[18..26] == "comment2";
    OctetsSlice(s, 18, 26);
    User2SkipChunk2(s[18..26]);
    Extend(OffsetBasis, t, 18, 26, 8067635915673805368, 9442060313613740461);
    assert t[..26] == t;
  }

  /** The second header of the two-migration parser case. */
  lemma User2SkipSignature()
    ensures GenerateSignature("-- skip:user2:ns2:comment2") == 9442060313613740461
  {
    User2SkipText("-- skip:user2:ns2:comment2");
  }

  lemma SimpleChunk0(c: Text)
    requires c == "-- :user:"
    ensures FnvFrom(14695981039346656037, Octets(c)) == 512994980553195320
  {
    assert Octets("-- :user:") == [45, 45, 32, 58, 117, 115, 101, 114, 58];
    assert FnvFrom(14695981039346656037, [45, 45, 32, 58, 117, 115, 101, 114, 58]) == 512994980553195320;
  }

  lemma SimpleChunk1(c: Text)
    requires c == "ns:commen"
    ensures FnvFrom(512994980553195320, Octets(c)) == 14857240898134627184
  {
    assert Octets("ns:commen") == [110, 115, 58, 99, 111, 109, 109, 101, 110];
    assert FnvFrom(512994980553195320, [110, 115, 58, 99, 111, 109, 109, 101, 110]) == 14857240898134627184;
  }

  lemma SimpleChunk2(c: Text)
    requires c == "t"
    ensures FnvFrom(14857240898134627184, Octets(c)) == 1374584940602396620
  {
    assert Octets("t") == [116];
    assert FnvFrom(14857240898134627184, [116]) == 1374584940602396620;
  }

  lemma SimpleText(s: Text)
    requires s == "-- :user:ns:comment"
    ensures GenerateSignature(s) == 1374584940602396620
  {
    var t := Octets(s);
    assert t[..0] == [];
    assert s[0..9] == "-- :user:";
    OctetsSlice(s, 0, 9);
    SimpleChunk0(s[0..9]);
    Extend(OffsetBasis, t, 0, 9, 14695981039346656037, 512994980553195320);
    assert s[9..18] == "ns:commen";
    OctetsSlice(s, 9, 18);
    SimpleChunk1(s[9..18]);
    Extend(OffsetBasis, t, 9, 18, 512994980553195320, 14857240898134627184);
    assert s[18..19] == "t";
    OctetsSlice(s, 18, 19);
    SimpleChunk2(s[18..19]);
    Extend(OffsetBasis, t, 18, 19, 14857240898134627184, 1374584940602396620);
    assert t[..19] == t;
  }

  /** The header of the simple signature case. */
  lemma SimpleSignature()
    ensures GenerateSignature("-- :user:ns:comment") == 1374584940602396620
  {
    SimpleText("-- :user:ns:comment");
  }

  lemma SkipChunk1(c: Text)
    requires c == "ser:ns:co"
    ensures FnvFrom(335361505983837775, Octets(c)) == 6373763688554290412
  {
    assert Octets("ser:ns:co") == [115, 101, 114, 58, 110, 115, 58, 99, 111];
    assert FnvFrom(335361505983837775, [115, 101, 114, 58, 110, 115, 58, 99, 111]) == 6373763688554290412;
  }

  lemma SkipChunk2(c: Text)
    requires c == "mment"
    ensures FnvFrom(6373763688554290412, Octets(c)) == 15469498398215482039
  {
    assert Octets("mment") == [109, 109, 101, 110, 116];
    assert FnvFrom(6373763688554290412, [109, 109, 101, 110, 116]) == 15469498398215482039;
  }

  lemma SkipText(s: Text)
    requires s == "-- skip:user:ns:comment"
    ensures GenerateSignature(s) == 15469498398215482039
  {
    var t := Octets(s);
    assert t[..0] == [];
    assert s[0..9] == "-- skip:u";
    OctetsSlice(s, 0, 9);
    SkipPrefixChunk(s[0..9]);
    Extend(OffsetBasis, t, 0, 9, 14695981039346656037, 335361505983837775);
    assert s[9..18] == "ser:ns:co";
    OctetsSlice(s, 9, 18);
    SkipChunk1(s[9..18]);
    Extend(OffsetBasis, t, 9, 18, 335361505983837775, 6373763688554290412);
    assert s[18..23] == "mment";
    OctetsSlice(s, 18, 23);
    SkipChunk2(s[18..23]);
    Extend(OffsetBasis, t, 18, 23, 6373763688554290412, 15469498398215482039);
    assert t[..23] == t;
  }

  /** The header of the signature case with skip. */
  lemma SkipSignature()
    ensures GenerateSignature("-- skip:user:ns:comment") == 15469498398215482039
  {
    SkipText("-- skip:user:ns:comment");
  }

}
