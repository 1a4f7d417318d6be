/**
 * The `managers` package's `MigrationManager`: the deduplication filter
 * `filterCompleted` and `ProcessMigrations`, which filters a batch of parsed
 * candidates against the store and bulk-inserts what is new.
 *
 * The store is not modelled as state: its two operations are oracles passed
 * in, `GetFilteredBySignature` as a `Lookup` and `BulkInsert` as an
 * `Inserter`.  Go's map iteration order is unspecified, so the filter's
 * output is specified by `Enumerates`: each surviving candidate exactly once,
 * in some order.
 */
module Managers {
  import opened Wrappers
  import opened Api

  const FetchFailed := "failed to fetch migrations"
  const ProcessFetchFailed := "failed to fetch managers while processing managers"
  const InsertFailed := "failed to bulk insert managers"

  /** `GetFilteredBySignature`: the stored records for some of the given signatures, or an error. */
  type Lookup = seq<bv64> -> Result<seq<Migration>, Error>

  /** `BulkInsert`: an error, or none when the batch was stored. */
  type Inserter = seq<MigrationProto> -> Option<Error>

  /**
   * A key of the signature map: a signature.  It is wrapped so that the
   * verifier's map axioms, which do not go through for bare bit-vector keys,
   * apply.
   */
  datatype Key = Key(signature: bv64)

  /** The key a candidate is stored under. */
  function KeyOf(p: MigrationProto): Key {
    Key(p.signature)
  }

  /**
   * The signature map `filterCompleted` builds: every signature of `ps`
   * mapped to a candidate carrying it, a later candidate replacing an
   * earlier one with the same signature.
   */
  function LastWins(ps: seq<MigrationProto>): map<Key, MigrationProto>
    decreases |ps|
  {
    if ps == [] then map[]
    else LastWins(ps[..|ps| - 1])[KeyOf(ps[|ps| - 1]) := ps[|ps| - 1]]
  }

  /** The signatures of `ps`, in order and with repetitions: the list sent to the store. */
  function Signatures(ps: seq<MigrationProto>): (r: seq<bv64>)
    ensures |r| == |ps| && forall i :: 0 <= i < |ps| ==> r[i] == ps[i].signature
  {
    seq(|ps|, i requires 0 <= i < |ps| => ps[i].signature)
  }

  /** The distinct signatures of `ps`. */
  function SignatureSet(ps: seq<MigrationProto>): set<Key> {
    set p | p in ps :: KeyOf(p)
  }

  /** The ids of the records the store reported. */
  function Ids(existing: seq<Migration>): set<Key> {
    set m | m in existing :: Key(m.id)
  }

  /** The candidates left once every reported id is removed from the signature map. */
  function Survivors(pending: seq<MigrationProto>, existing: seq<Migration>): map<Key, MigrationProto> {
    LastWins(pending) - Ids(existing)
  }

  /** No later candidate of `ps` carries the signature of the one at `j`. */
  predicate LastOccurrence(ps: seq<MigrationProto>, j: nat)
    requires j < |ps|
  {
    forall q :: j < q < |ps| ==> ps[q].signature != ps[j].signature
  }

  /** No two elements of `out` share a signature. */
  predicate DistinctSignatures(out: seq<MigrationProto>) {
    forall i, j :: 0 <= i < j < |out| ==> out[i].signature != out[j].signature
  }

  /**
   * `out` lists the values of the signature map `s`, each exactly once, in
   * some order: what ranging over a Go map and appending produces.
   */
  predicate Enumerates(out: seq<MigrationProto>, s: map<Key, MigrationProto>) {
    && (forall i :: 0 <= i < |out| ==> KeyOf(out[i]) in s && s[KeyOf(out[i])] == out[i])
    && DistinctSignatures(out)
    && (forall k :: k in s ==> exists i :: 0 <= i < |out| && KeyOf(out[i]) == k)
  }

  /**
   * `filterCompleted`: the signature map and the signature list are built in
   * one pass, the store is asked about the list, every id it reports is
   * deleted from the map, and what is left is listed.  A failing lookup is
   * wrapped and returned.
   */
  method FilterCompleted(pending: seq<MigrationProto>, lookup: Lookup) returns (r: Result<seq<MigrationProto>, Error>)
    ensures lookup(Signatures(pending)).Err? ==>
      r == Err(Wrapped(FetchFailed, lookup(Signatures(pending)).error))
    ensures lookup(Signatures(pending)).Ok? ==>
      r.Ok? && Enumerates(r.value, Survivors(pending, lookup(Signatures(pending)).value))
  {
    var sigMap: map<Key, MigrationProto> := map[];
    var signatures: seq<bv64> := [];
    for idx := 0 to |pending|
      invariant sigMap == LastWins(pending[..idx])
      invariant signatures == Signatures(pending[..idx])
    {
      assert pending[..idx + 1][..idx] == pending[..idx];
      sigMap := sigMap[KeyOf(pending[idx]) := pending[idx]];
      signatures := signatures + [pending[idx].signature];
    }
    assert pending[..|pending|] == pending;

    var existing := lookup(signatures);
    if existing.Err? {
      return Err(Wrapped(FetchFailed, existing.error));
    }
    var stored := existing.value;
    for j := 0 to |stored|
      invariant sigMap == LastWins(pending) - Ids(stored[..j])
    {
      IdsStep(stored, j);
      if Key(stored[j].id) in sigMap {
        sigMap := sigMap - {Key(stored[j].id)};
      }
    }
    assert stored[..|stored|] == stored;
    LastWinsValues(pending);

    var out := ListValues(sigMap);
    return Ok(out);
  }

  /** Reporting one more record removes its id too. */
  lemma IdsStep(existing: seq<Migration>, j: nat)
    requires j < |existing|
    ensures Ids(existing[..j + 1]) == Ids(existing[..j]) + {Key(existing[j].id)}
  {
    assert existing[..j + 1] == existing[..j] + [existing[j]];
  }

  /**
   * Part way through the final loop: `rest` is what is left of the map `s`,
   * and `out` lists the values of the keys already visited, each once.
   */
  predicate Listed(s: map<Key, MigrationProto>, rest: map<Key, MigrationProto>, out: seq<MigrationProto>) {
    && (forall k :: k in rest ==> k in s && rest[k] == s[k])
    && (forall i :: 0 <= i < |out| ==> KeyOf(out[i]) in s && KeyOf(out[i]) !in rest && s[KeyOf(out[i])] == out[i])
    && DistinctSignatures(out)
    && (forall k :: k in s && k !in rest ==> exists i :: 0 <= i < |out| && KeyOf(out[i]) == k)
  }

  /** The final loop of `filterCompleted`: ranging over the map and appending each value. */
  method ListValues(s: map<Key, MigrationProto>) returns (out: seq<MigrationProto>)
    requires forall k :: k in s ==> KeyOf(s[k]) == k
    ensures Enumerates(out, s)
  {
    out := [];
    var rest := s;
    while rest.Keys != {}
      invariant Listed(s, rest, out)
      decreases |rest|
    {
      var k :| k in rest.Keys;
      ListStep(s, rest, out, k);
      out := out + [rest[k]];
      rest := rest - {k};
    }
  }

  /** Visiting key `k` and appending its value keeps `Listed`. */
  lemma ListStep(s: map<Key, MigrationProto>, rest: map<Key, MigrationProto>, out: seq<MigrationProto>, k: Key)
    requires forall k :: k in s ==> KeyOf(s[k]) == k
    requires Listed(s, rest, out) && k in rest
    ensures Listed(s, rest - {k}, out + [rest[k]])
  {
    ListKeeps(s, rest, out, k);
    ListDistinct(s, rest, out, k);
    ListCovers(s, rest, out, k);
  }

  /** After the visit of `k`, what is left is still part of the map, and every listed value is visited. */
  lemma ListKeeps(s: map<Key, MigrationProto>, rest: map<Key, MigrationProto>, out: seq<MigrationProto>, k: Key)
    requires forall k :: k in s ==> KeyOf(s[k]) == k
    requires Listed(s, rest, out) && k in rest
    ensures forall k' :: k' in rest - {k} ==> k' in s && (rest - {k})[k'] == s[k']
    ensures forall i :: 0 <= i < |out| + 1 ==>
      var p := (out + [rest[k]])[i]; KeyOf(p) in s && KeyOf(p) !in rest - {k} && s[KeyOf(p)] == p
  {
    var next := out + [rest[k]];
    assert KeyOf(next[|out|]) == k;
    assert forall i :: 0 <= i < |out| ==> next[i] == out[i];
  }

  /** The value appended for `k` has a signature no listed value has. */
  lemma ListDistinct(s: map<Key, MigrationProto>, rest: map<Key, MigrationProto>, out: seq<MigrationProto>, k: Key)
    requires forall k :: k in s ==> KeyOf(s[k]) == k
    requires Listed(s, rest, out) && k in rest
    ensures DistinctSignatures(out + [rest[k]])
  {
    var next := out + [rest[k]];
    forall i, j | 0 <= i < j < |next|
      ensures next[i].signature != next[j].signature
    {
      assert next[i] == out[i];
      if j == |out| {
        assert KeyOf(out[i]) != k;
      } else {
        assert next[j] == out[j];
      }
    }
  }

  /** After the visit of `k`, every visited key has its value listed. */
  lemma ListCovers(s: map<Key, MigrationProto>, rest: map<Key, MigrationProto>, out: seq<MigrationProto>, k: Key)
    requires forall k :: k in s ==> KeyOf(s[k]) == k
    requires Listed(s, rest, out) && k in rest
    ensures forall k' :: k' in s && k' !in rest - {k} ==>
      exists i :: 0 <= i < |out| + 1 && KeyOf((out + [rest[k]])[i]) == k'
  {
    var next := out + [rest[k]];
    forall k' | k' in s && k' !in rest - {k}
      ensures exists i :: 0 <= i < |next| && KeyOf(next[i]) == k'
    {
      if k' == k {
        assert KeyOf(next[|out|]) == k';
      } else {
        var i :| 0 <= i < |out| && KeyOf(out[i]) == k';
        assert next[i] == out[i];
      }
    }
  }

  /**
   * `ProcessMigrations`: the filtered candidates go to the store in one bulk
   * insert unless the lookup failed, in which case nothing is inserted.  The
   * insert's error is wrapped and returned; otherwise there is no error.
   * `inserted` is the batch handed to `BulkInsert`, `None` when it is not
   * called.
   */
  method ProcessMigrations(pending: seq<MigrationProto>, lookup: Lookup, bulkInsert: Inserter)
    returns (err: Option<Error>, inserted: Option<seq<MigrationProto>>)
    ensures lookup(Signatures(pending)).Err? ==>
      && inserted.None?
      && err == Some(Wrapped(ProcessFetchFailed, Wrapped(FetchFailed, lookup(Signatures(pending)).error)))
    ensures lookup(Signatures(pending)).Ok? ==>
      && inserted.Some?
      && Enumerates(inserted.value, Survivors(pending, lookup(Signatures(pending)).value))
      && (bulkInsert(inserted.value).None? ==> err.None?)
      && (bulkInsert(inserted.value).Some? ==> err == Some(Wrapped(InsertFailed, bulkInsert(inserted.value).value)))
  {
    var incomplete := FilterCompleted(pending, lookup);
    if incomplete.Err? {
      return Some(Wrapped(ProcessFetchFailed, incomplete.error)), None;
    }
    inserted := Some(incomplete.value);
    var failure := bulkInsert(incomplete.value);
    if failure.Some? {
      return Some(Wrapped(InsertFailed, failure.value)), inserted;
    }
    return None, inserted;
  }

  // ---- What the signature map holds ----

  /** Cutting off the last candidate. */
  lemma SplitLast(ps: seq<MigrationProto>)
    requires ps != []
    ensures ps == ps[..|ps| - 1] + [ps[|ps| - 1]]
    ensures SignatureSet(ps) == SignatureSet(ps[..|ps| - 1]) + {KeyOf(ps[|ps| - 1])}
  {
    var init := ps[..|ps| - 1];
    assert ps == init + [ps[|ps| - 1]];
    assert forall p :: p in ps <==> p in init || p == ps[|ps| - 1];
  }

  /** The map has a key for each signature of `ps` and no other. */
  lemma {:induction false} LastWinsKeys(ps: seq<MigrationProto>)
    ensures LastWins(ps).Keys == SignatureSet(ps)
    decreases |ps|
  {
    if ps != [] {
      SplitLast(ps);
      LastWinsKeys(ps[..|ps| - 1]);
    }
  }

  /** Each value is a candidate of `ps`, unchanged, stored under its own signature. */
  lemma {:induction false} LastWinsValues(ps: seq<MigrationProto>)
    ensures forall k :: k in LastWins(ps) ==> LastWins(ps)[k] in ps && KeyOf(LastWins(ps)[k]) == k
    decreases |ps|
  {
    if ps != [] {
      SplitLast(ps);
      var init, last := ps[..|ps| - 1], ps[|ps| - 1];
      LastWinsValues(init);
      assert LastWins(ps) == LastWins(init)[KeyOf(last) := last];
      forall k | k in LastWins(ps) ensures LastWins(ps)[k] in ps && KeyOf(LastWins(ps)[k]) == k {
        if k == KeyOf(last) {
          assert LastWins(ps)[k] == last;
        } else {
          assert LastWins(ps)[k] == LastWins(init)[k];
          var i :| 0 <= i < |init| && init[i] == LastWins(init)[k];
          assert ps[i] == init[i];
        }
      }
    }
  }

  /** Of the candidates sharing a signature, the map keeps the last. */
  lemma {:induction false} LastWinsIs(ps: seq<MigrationProto>, j: nat)
    requires j < |ps| && LastOccurrence(ps, j)
    ensures KeyOf(ps[j]) in LastWins(ps) && LastWins(ps)[KeyOf(ps[j])] == ps[j]
    decreases |ps|
  {
    if j < |ps| - 1 {
      var init := ps[..|ps| - 1];
      assert init[j] == ps[j];
      assert LastOccurrence(init, j) by {
        forall q | j < q < |init| ensures init[q].signature != init[j].signature {
          assert init[q] == ps[q];
        }
      }
      LastWinsIs(init, j);
      assert ps[|ps| - 1].signature != ps[j].signature;
    }
  }

  // ---- Counting ----

  /** Distinct signatures: as many as elements. */
  lemma {:induction false} DistinctCount(out: seq<MigrationProto>)
    requires DistinctSignatures(out)
    ensures |SignatureSet(out)| == |out|
    decreases |out|
  {
    if out != [] {
      var init := out[..|out| - 1];
      SplitLast(out);
      assert DistinctSignatures(init) by {
        forall i, j | 0 <= i < j < |init| ensures init[i].signature != init[j].signature {
          assert init[i] == out[i] && init[j] == out[j];
        }
      }
      DistinctCount(init);
      assert forall i :: 0 <= i < |init| ==> KeyOf(init[i]) != KeyOf(out[|out| - 1]);
    }
  }

  /** A list has no more distinct signatures than elements. */
  lemma {:induction false} SignatureSetBound(ps: seq<MigrationProto>)
    ensures |SignatureSet(ps)| <= |ps|
    decreases |ps|
  {
    if ps != [] {
      SplitLast(ps);
      SignatureSetBound(ps[..|ps| - 1]);
    }
  }

  /** An enumeration's signatures are the map's keys. */
  lemma EnumeratedKeys(out: seq<MigrationProto>, s: map<Key, MigrationProto>)
    requires Enumerates(out, s)
    ensures SignatureSet(out) == s.Keys
  {
    forall k | k in s ensures k in SignatureSet(out) {
      var i :| 0 <= i < |out| && KeyOf(out[i]) == k;
      assert out[i] in out;
    }
    forall k | k in SignatureSet(out) ensures k in s {
      var p :| p in out && KeyOf(p) == k;
      var i :| 0 <= i < |out| && out[i] == p;
    }
  }

  // ---- What the filter promises ----

  /** No candidate the filter keeps carries an id the store reported. */
  lemma FilteredNotStored(pending: seq<MigrationProto>, existing: seq<Migration>, out: seq<MigrationProto>)
    requires Enumerates(out, Survivors(pending, existing))
    ensures forall i :: 0 <= i < |out| ==> Key(out[i].signature) !in Ids(existing)
  {
  }

  /** Every kept candidate is an element of the batch, unchanged. */
  lemma FilteredFromPending(pending: seq<MigrationProto>, existing: seq<Migration>, out: seq<MigrationProto>)
    requires Enumerates(out, Survivors(pending, existing))
    ensures forall i :: 0 <= i < |out| ==> out[i] in pending
  {
    LastWinsValues(pending);
    var s := Survivors(pending, existing);
    assert forall i :: 0 <= i < |out| ==> out[i] == LastWins(pending)[KeyOf(out[i])];
  }

  /** Every batch signature the store did not report is kept, exactly once. */
  lemma FilteredCovers(pending: seq<MigrationProto>, existing: seq<Migration>, out: seq<MigrationProto>, j: nat)
    requires Enumerates(out, Survivors(pending, existing))
    requires j < |pending| && Key(pending[j].signature) !in Ids(existing)
    ensures exists i :: 0 <= i < |out| && out[i].signature == pending[j].signature
    ensures forall i, i' ::
      (0 <= i < |out| && 0 <= i' < |out| && out[i].signature == pending[j].signature &&
       out[i'].signature == pending[j].signature) ==> i == i'
  {
    LastWinsKeys(pending);
    assert pending[j] in pending;
    assert KeyOf(pending[j]) in Survivors(pending, existing);
  }

  /** Of several candidates with one signature, the kept one is the last. */
  lemma FilteredLastWins(pending: seq<MigrationProto>, existing: seq<Migration>, out: seq<MigrationProto>, i: nat, j: nat)
    requires Enumerates(out, Survivors(pending, existing))
    requires i < |out| && j < |pending| && LastOccurrence(pending, j)
    requires out[i].signature == pending[j].signature
    ensures out[i] == pending[j]
  {
    LastWinsIs(pending, j);
    assert out[i] == LastWins(pending)[KeyOf(out[i])];
  }

  /** The filter never returns more candidates than it was given. */
  lemma FilteredBound(pending: seq<MigrationProto>, existing: seq<Migration>, out: seq<MigrationProto>)
    requires Enumerates(out, Survivors(pending, existing))
    ensures |out| <= |pending|
  {
    var s := Survivors(pending, existing);
    DistinctCount(out);
    EnumeratedKeys(out, s);
    LastWinsKeys(pending);
    SignatureSetBound(pending);
    assert s.Keys <= LastWins(pending).Keys;
    SubsetCount(s.Keys, SignatureSet(pending));
  }

  /** A subset is no larger than its superset. */
  lemma SubsetCount<T>(a: set<T>, b: set<T>)
    requires a <= b
    ensures |a| <= |b|
  {
    assert b == a + (b - a);
  }

  /** A replayed batch, every signature of which the store reports, leaves nothing to insert. */
  lemma ReplayFiltersAll(pending: seq<MigrationProto>, existing: seq<Migration>, out: seq<MigrationProto>)
    requires forall j :: 0 <= j < |pending| ==> Key(pending[j].signature) in Ids(existing)
    requires Enumerates(out, Survivors(pending, existing))
    ensures out == []
  {
    var s := Survivors(pending, existing);
    LastWinsKeys(pending);
    assert forall p :: p in pending ==> KeyOf(p) in Ids(existing);
    assert s.Keys == {};
    EnumeratedKeys(out, s);
    DistinctCount(out);
  }

  /** Reported records whose ids no batch candidate carries change nothing. */
  lemma UnknownIdsIgnored(pending: seq<MigrationProto>, existing: seq<Migration>, extra: seq<Migration>)
    requires forall m :: m in extra ==> Key(m.id) !in SignatureSet(pending)
    ensures Survivors(pending, existing + extra) == Survivors(pending, existing)
  {
    LastWinsKeys(pending);
    assert Ids(existing + extra) == Ids(existing) + Ids(extra) by {
      assert forall m :: m in existing + extra <==> m in existing || m in extra;
    }
  }
}
