/** At-rest protection of an auth backup: the authenticated stream encryption of the export
    file, the column allowlist, and the reread check after a restore. */
module BackupSecure {
  import opened Wrappers

  type Bytes = seq<bv8>

  /** SHAKE-256 of a seed, cut to a length, and HMAC-SHA-256 under a key. */
  datatype Primitives = Primitives(shake: (Bytes, nat) -> Bytes, hmac: (Bytes, Bytes) -> Bytes)

  const NONCE_LENGTH := 12
  const TAG_LENGTH := 32
  const MAGIC: Bytes := [0x54, 0x4D, 0x31]

  /** All that is assumed of them: how long their results are. */
  ghost predicate Lawful(prims: Primitives) {
    && (forall seed, n :: |prims.shake(seed, n)| == n)
    && (forall key, data :: |prims.hmac(key, data)| == TAG_LENGTH)
  }

  function Xor(a: Bytes, b: Bytes): Bytes
    requires |a| == |b|
  {
    seq(|a|, k requires 0 <= k < |a| => a[k] ^ b[k])
  }

  function EncryptBytes(prims: Primitives, plaintext: Bytes, key: Bytes, nonce: Bytes): Bytes
    requires |prims.shake(key + nonce, |plaintext|)| == |plaintext|
  {
    var ciphertext := Xor(plaintext, prims.shake(key + nonce, |plaintext|));
    MAGIC + nonce + prims.hmac(key, nonce + ciphertext) + ciphertext
  }

  /** None is the BACKUP_INVALID error. */
  function DecryptBytes(prims: Primitives, blob: Bytes, key: Bytes): Option<Bytes>
    requires forall seed, n :: |prims.shake(seed, n)| == n
  {
    if !(MAGIC <= blob) || |blob| < 47 then None
    else
      var nonce, tag, ciphertext := blob[3..15], blob[15..47], blob[47..];
      if prims.hmac(key, nonce + ciphertext) != tag then None
      else Some(Xor(ciphertext, prims.shake(key + nonce, |ciphertext|)))
  }

  lemma XorTwice(a: Bytes, b: Bytes)
    requires |a| == |b|
    ensures Xor(Xor(a, b), b) == a
  {
    forall k | 0 <= k < |a|
      ensures Xor(Xor(a, b), b)[k] == a[k]
    {
      BitsCancel(a[k], b[k]);
    }
  }

  lemma BitsCancel(x: bv8, y: bv8)
    ensures (x ^ y) ^ y == x
  {
  }

  /** Decryption undoes encryption, whatever the nonce. */
  lemma DecryptUndoesEncrypt(prims: Primitives, plaintext: Bytes, key: Bytes, nonce: Bytes)
    requires Lawful(prims) && |nonce| == NONCE_LENGTH
    ensures DecryptBytes(prims, EncryptBytes(prims, plaintext, key, nonce), key) == Some(plaintext)
  {
    var stream := prims.shake(key + nonce, |plaintext|);
    var ciphertext := Xor(plaintext, stream);
    var tag := prims.hmac(key, nonce + ciphertext);
    var blob := EncryptBytes(prims, plaintext, key, nonce);
    assert |tag| == TAG_LENGTH;
    assert blob[3..15] == nonce && blob[15..47] == tag && blob[47..] == ciphertext;
    XorTwice(plaintext, stream);
  }

  /** An encryption byte by byte: the mark `TM1`, the nonce, the tag over nonce and ciphertext, and
      the plaintext under the stream of key and nonce. */
  lemma EncryptionIs(prims: Primitives, plaintext: Bytes, key: Bytes, nonce: Bytes)
    requires Lawful(prims) && |nonce| == 12
    ensures var blob := EncryptBytes(prims, plaintext, key, nonce);
            && |blob| == 47 + |plaintext| && blob[..3] == [0x54, 0x4D, 0x31] && blob[3..15] == nonce
            && blob[15..47] == prims.hmac(key, nonce + blob[47..])
            && forall k :: 0 <= k < |plaintext| ==> blob[47 + k] == plaintext[k] ^ prims.shake(key + nonce, |plaintext|)[k]
  {
    var ciphertext := Xor(plaintext, prims.shake(key + nonce, |plaintext|));
    var tag := prims.hmac(key, nonce + ciphertext);
    assert |tag| == 32;
    assert EncryptBytes(prims, plaintext, key, nonce)[47..] == ciphertext;
  }

  /** Nothing else decrypts: an accepted blob is the encryption of what it decrypts to, under
      this key and the nonce it carries. */
  lemma OnlyEncryptionsDecrypt(prims: Primitives, blob: Bytes, key: Bytes)
    requires Lawful(prims)
    ensures DecryptBytes(prims, blob, key).Some? <==>
            exists plaintext: Bytes, nonce: Bytes :: |nonce| == NONCE_LENGTH && blob == EncryptBytes(prims, plaintext, key, nonce)
  {
    if DecryptBytes(prims, blob, key).Some? {
      var nonce, ciphertext := blob[3..15], blob[47..];
      var stream := prims.shake(key + nonce, |ciphertext|);
      var plaintext := DecryptBytes(prims, blob, key).value;
      XorTwice(ciphertext, stream);
      assert blob == MAGIC + blob[3..15] + blob[15..47] + blob[47..];
      assert blob == EncryptBytes(prims, plaintext, key, nonce);
    }
    if plaintext: Bytes, nonce: Bytes :| |nonce| == NONCE_LENGTH && blob == EncryptBytes(prims, plaintext, key, nonce) {
      DecryptUndoesEncrypt(prims, plaintext, key, nonce);
    }
  }

  lemma PartsDetermineTheBlob(a: Bytes, b: Bytes)
    requires MAGIC <= a && MAGIC <= b && |a| >= 47 && |b| >= 47
    ensures a[3..15] + a[47..] == b[3..15] + b[47..] && a[15..47] == b[15..47] ==> a == b
  {
    var x, y := a[3..15] + a[47..], b[3..15] + b[47..];
    if x == y && a[15..47] == b[15..47] {
      assert x[..12] == a[3..15] && y[..12] == b[3..15] && x[12..] == a[47..] && y[12..] == b[47..];
      assert a == MAGIC + a[3..15] + a[15..47] + a[47..];
      assert b == MAGIC + b[3..15] + b[15..47] + b[47..];
    }
  }

  /** An altered nonce or body under an unaltered tag gets through only by an HMAC collision. */
  lemma TamperingNeedsACollision(prims: Primitives, blob: Bytes, altered: Bytes, key: Bytes)
    requires Lawful(prims) && DecryptBytes(prims, blob, key).Some? && DecryptBytes(prims, altered, key).Some?
    requires altered != blob && altered[15..47] == blob[15..47]
    ensures exists x: Bytes, y: Bytes :: x != y && prims.hmac(key, x) == prims.hmac(key, y)
  {
    PartsDetermineTheBlob(blob, altered);
    var x, y := blob[3..15] + blob[47..], altered[3..15] + altered[47..];
    assert x != y && prims.hmac(key, x) == prims.hmac(key, y);
  }

  // ------------------------------------------------------------------ the reread after a restore

  type Ids = seq<string>

  function IdSet(ids: Ids): set<string> { set k | 0 <= k < |ids| :: ids[k] }

  /** Per table: as many rows, and the same set of ids. Nothing else is compared. */
  predicate RereadAccepted(expected: seq<Ids>, actual: seq<Ids>)
    requires |expected| == |actual|
  {
    forall t :: 0 <= t < |expected| ==> |expected[t]| == |actual[t]| && IdSet(expected[t]) == IdSet(actual[t])
  }

  method ConfirmRestoreMatches(expected: seq<Ids>, actual: seq<Ids>) returns (mismatch: Option<nat>)
    requires |expected| == |actual|
    ensures mismatch.None? <==> RereadAccepted(expected, actual)
    ensures mismatch.Some? ==> mismatch.value < |expected| && RereadAccepted(expected[..mismatch.value], actual[..mismatch.value])
  {
    for t := 0 to |expected|
      invariant RereadAccepted(expected[..t], actual[..t])
    {
      if |expected[t]| != |actual[t]| || IdSet(expected[t]) != IdSet(actual[t]) { return Some(t); }
    }
    assert expected[..|expected|] == expected && actual[..|actual|] == actual;
    mismatch := None;
  }

  predicate Distinct(ids: Ids) {
    forall i, j :: 0 <= i < j < |ids| ==> ids[i] != ids[j]
  }

  lemma {:induction false} DistinctExactlyWhenFull(ids: Ids)
    ensures |IdSet(ids)| <= |ids|
    ensures Distinct(ids) <==> |IdSet(ids)| == |ids|
  {
    if ids != [] {
      var init, last := ids[..|ids| - 1], ids[|ids| - 1];
      DistinctExactlyWhenFull(init);
      assert IdSet(ids) == IdSet(init) + {last};
      if last in IdSet(init) {
        var k :| 0 <= k < |init| && init[k] == last;
        assert ids[k] == ids[|ids| - 1];
        assert IdSet(ids) == IdSet(init);
      } else if Distinct(init) {
        forall i, j | 0 <= i < j < |ids|
          ensures ids[i] != ids[j]
        {
          assert ids[i] == init[i];
          if j == |ids| - 1 { assert init[i] in IdSet(init); } else { assert ids[j] == init[j]; }
        }
      } else {
        var i, j :| 0 <= i < j < |init| && init[i] == init[j];
        assert ids[i] == ids[j];
      }
    }
  }

  lemma {:induction false} CountOfDistinct(ids: Ids, x: string)
    requires Distinct(ids)
    ensures multiset(ids)[x] == if x in IdSet(ids) then 1 else 0
  {
    if ids != [] {
      var init, last := ids[..|ids| - 1], ids[|ids| - 1];
      CountOfDistinct(init, x);
      assert ids == init + [last];
      assert IdSet(ids) == IdSet(init) + {last};
    }
  }

  /** If the payload's ids are distinct, as primary keys are, an accepted reread holds exactly
      the same ids, each as often. */
  lemma AcceptedRereadIsAPermutation(expected: Ids, actual: Ids)
    requires Distinct(expected)
    ensures RereadAccepted([expected], [actual]) <==> multiset(expected) == multiset(actual)
  {
    DistinctExactlyWhenFull(expected);
    DistinctExactlyWhenFull(actual);
    if RereadAccepted([expected], [actual]) {
      assert [expected][0] == expected && [actual][0] == actual;
      forall x
        ensures multiset(expected)[x] == multiset(actual)[x]
      {
        CountOfDistinct(expected, x);
        CountOfDistinct(actual, x);
      }
    }
    if multiset(expected) == multiset(actual) {
      assert |multiset(expected)| == |expected| && |multiset(actual)| == |actual|;
      forall x
        ensures x in IdSet(expected) <==> x in IdSet(actual)
      {
        assert x in IdSet(expected) <==> x in multiset(expected);
        assert x in IdSet(actual) <==> x in multiset(actual);
      }
      assert IdSet(expected) == IdSet(actual);
    }
  }

  /** A copy of the row at `i` is lost, and another row is there twice instead. */
  function Swapped(ids: Ids, i: nat, k: nat): Ids
    requires i < |ids| && k < |ids|
  {
    ids[i := ids[k]]
  }

  lemma RepeatedIdsHideALoss(ids: Ids, i: nat, j: nat, k: nat)
    requires i < |ids| && j < |ids| && k < |ids| && i != j && ids[i] == ids[j] && ids[k] != ids[i]
    ensures RereadAccepted([ids], [Swapped(ids, i, k)]) && multiset(Swapped(ids, i, k)) != multiset(ids)
  {
    var actual := Swapped(ids, i, k);
    assert actual[j] == ids[i] && actual[k] == ids[k];
    forall x
      ensures x in IdSet(ids) <==> x in IdSet(actual)
    {
      if x in IdSet(ids) {
        var m :| 0 <= m < |ids| && ids[m] == x;
        assert actual[if m == i then j else m] == x;
      }
      if x in IdSet(actual) {
        var m :| 0 <= m < |actual| && actual[m] == x;
        assert ids[if m == i then k else m] == x;
      }
    }
    assert IdSet(ids) == IdSet(actual);
    assert multiset(actual)[ids[i]] == multiset(ids)[ids[i]] - 1;
  }

  /** Acceptance means a permutation, whatever is reread. */
  ghost predicate CannotBeFooled(expected: Ids) {
    forall actual :: RereadAccepted([expected], [actual]) ==> multiset(actual) == multiset(expected)
  }

  lemma {:induction false} AllAlike(ids: Ids, x: string)
    requires forall i :: 0 <= i < |ids| ==> ids[i] == x
    ensures multiset(ids) == multiset{}[x := |ids|] && (ids != [] ==> IdSet(ids) == {x}) && |IdSet(ids)| <= 1
  {
    if ids != [] {
      AllAlike(ids[..|ids| - 1], x);
      assert ids == ids[..|ids| - 1] + [ids[|ids| - 1]];
      assert ids[0] == x;
      assert IdSet(ids) == {x};
    }
  }

  /** One id alone, however often, leaves nothing to confuse it with. */
  lemma OneIdCannotBeConfused(expected: Ids, actual: Ids, x: string)
    requires (forall i :: 0 <= i < |expected| ==> expected[i] == x) && RereadAccepted([expected], [actual])
    ensures multiset(actual) == multiset(expected)
  {
    assert [expected][0] == expected && [actual][0] == actual;
    AllAlike(expected, x);
    forall i | 0 <= i < |actual|
      ensures actual[i] == x
    {
      assert actual[i] in IdSet(actual);
    }
    AllAlike(actual, x);
  }

  lemma OneIdOrTwo(ids: Ids)
    ensures |IdSet(ids)| <= 1 <==> ids == [] || forall i :: 0 <= i < |ids| ==> ids[i] == ids[0]
  {
    if ids != [] {
      assert ids[0] in IdSet(ids);
      forall i | 0 <= i < |ids|
        ensures ids[i] == ids[0] || |IdSet(ids)| > 1
      {
        assert {ids[0], ids[i]} <= IdSet(ids);
        SetGrows({ids[0], ids[i]}, IdSet(ids));
      }
      if forall i :: 0 <= i < |ids| ==> ids[i] == ids[0] { AllAlike(ids, ids[0]); }
    }
  }

  lemma SetGrows(a: set<string>, b: set<string>)
    requires a <= b
    ensures |a| <= |b|
  {
    assert b == a + (b - a);
  }

  /** An accepted reread always is a permutation of the payload's ids exactly if they are
      distinct or all the same. */
  lemma PermutationExactlyWhen(expected: Ids)
    ensures CannotBeFooled(expected) <==> Distinct(expected) || |IdSet(expected)| <= 1
  {
    hide RereadAccepted, IdSet;
    OneIdOrTwo(expected);
    if Distinct(expected) {
      forall actual | RereadAccepted([expected], [actual])
        ensures multiset(actual) == multiset(expected)
      {
        AcceptedRereadIsAPermutation(expected, actual);
      }
    } else if |IdSet(expected)| <= 1 {
      forall actual | RereadAccepted([expected], [actual])
        ensures multiset(actual) == multiset(expected)
      {
        OneIdCannotBeConfused(expected, actual, expected[0]);
      }
    } else {
      var i, j :| 0 <= i < j < |expected| && expected[i] == expected[j];
      var m :| 0 <= m < |expected| && expected[m] != expected[0];
      RepeatedIdsHideALoss(expected, i, j, if expected[i] == expected[0] then m else 0);
    }
  }

  /** The same for a whole payload: one table that can hide a loss is enough. */
  lemma PayloadPermutationExactlyWhen(expected: seq<Ids>)
    ensures (forall actual: seq<Ids> | |actual| == |expected| :: RereadAccepted(expected, actual) ==>
               forall t :: 0 <= t < |expected| ==> multiset(actual[t]) == multiset(expected[t])) <==>
            forall t :: 0 <= t < |expected| ==> Distinct(expected[t]) || |IdSet(expected[t])| <= 1
  {
    hide Distinct, IdSet;
    forall actual: seq<Ids>, t | |actual| == |expected| && RereadAccepted(expected, actual) && 0 <= t < |expected| && CannotBeFooled(expected[t])
      ensures multiset(actual[t]) == multiset(expected[t])
    {
      assert RereadAccepted([expected[t]], [actual[t]]);
    }
    forall t | 0 <= t < |expected|
      ensures CannotBeFooled(expected[t]) <==> Distinct(expected[t]) || |IdSet(expected[t])| <= 1
    {
      PermutationExactlyWhen(expected[t]);
    }
    forall t | 0 <= t < |expected| && !CannotBeFooled(expected[t])
      ensures exists actual: seq<Ids> | |actual| == |expected| :: RereadAccepted(expected, actual) && multiset(actual[t]) != multiset(expected[t])
    {
      var other :| RereadAccepted([expected[t]], [other]) && multiset(other) != multiset(expected[t]);
      var actual := expected[t := other];
      assert [expected[t]][0] == expected[t] && [other][0] == other;
      assert RereadAccepted(expected, actual);
    }
  }
}
