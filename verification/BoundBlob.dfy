/** Context-bound blobs over an ideal AEAD (RFC 5116): a ciphertext opens only
    under a key, nonce and associated data it was produced with. The table of past
    encryptions is the AEAD's state; the nonce and ciphertext of a new encryption
    are arguments, chosen by the caller to be new. */
module BoundBlob {
  import opened Prelude
  import opened MediaIdentity

  type Dek = Bytes

  datatype Query = Query(dek: Dek, nonce: Bytes, ciphertext: Bytes)
  datatype Sealed = Sealed(plaintext: Bytes, aad: Bytes)

  datatype Aead = Aead(table: map<Query, Sealed>) {
    function Open(dek: Dek, nonce: Bytes, ciphertext: Bytes, aad: Bytes): Option<Bytes> {
      var q := Query(dek, nonce, ciphertext);
      if q in table && table[q].aad == aad then Some(table[q].plaintext) else None
    }

    function Seal(dek: Dek, nonce: Bytes, ciphertext: Bytes, plaintext: Bytes, aad: Bytes): Aead
      requires Query(dek, nonce, ciphertext) !in table
    {
      Aead(table[Query(dek, nonce, ciphertext) := Sealed(plaintext, aad)])
    }

    /** later knows every encryption this state knows. */
    ghost predicate Before(later: Aead) {
      forall q | q in table :: q in later.table && later.table[q] == table[q]
    }
  }

  const NONCE_LENGTH: nat := 12
  const BOUND_BLOB_MAGIC: Bytes := "KIOKU-BLOB\U{02}"
  const BOUND_BLOB_DOMAIN: Bytes := "kioku-enclave:bound-blob:v2\0"

  function BoundAad(context: Bytes): Bytes {
    BOUND_BLOB_DOMAIN + context
  }

  /** encrypt_bound_blob's output, given the nonce and ciphertext of its encryption. */
  function BoundBlob(nonce: Bytes, ciphertext: Bytes): Bytes {
    BOUND_BLOB_MAGIC + nonce + ciphertext
  }

  function SealBound(aead: Aead, dek: Dek, nonce: Bytes, ciphertext: Bytes, plaintext: Bytes,
                     context: Bytes): (Aead, Bytes)
    requires |nonce| == NONCE_LENGTH && Query(dek, nonce, ciphertext) !in aead.table
  {
    (aead.Seal(dek, nonce, ciphertext, plaintext, BoundAad(context)), BoundBlob(nonce, ciphertext))
  }

  /** decrypt_bound_blob over decrypt_blob_with_aad. */
  function OpenBound(aead: Aead, dek: Dek, blob: Bytes, context: Bytes): Result<Bytes> {
    if !(BOUND_BLOB_MAGIC <= blob) then Err("current media blob is not context-bound v2")
    else
      var encrypted := blob[|BOUND_BLOB_MAGIC|..];
      if |encrypted| < NONCE_LENGTH then Err("blob too short")
      else
        var result := aead.Open(dek, encrypted[..NONCE_LENGTH], encrypted[NONCE_LENGTH..], BoundAad(context));
        if result.Some? then Ok(result.value) else Err("decrypt failed")
  }

  lemma BlobParts(nonce: Bytes, ciphertext: Bytes)
    requires |nonce| == NONCE_LENGTH
    ensures
      var blob := BoundBlob(nonce, ciphertext);
      var encrypted := blob[|BOUND_BLOB_MAGIC|..];
      && BOUND_BLOB_MAGIC <= blob && |encrypted| >= NONCE_LENGTH
      && encrypted[..NONCE_LENGTH] == nonce && encrypted[NONCE_LENGTH..] == ciphertext
  {
    var blob := BoundBlob(nonce, ciphertext);
    assert blob[|BOUND_BLOB_MAGIC|..] == nonce + ciphertext;
  }

  /** A sealed blob opens, now and after any further encryptions, under exactly the
      context it was sealed for, and then to exactly what was sealed; under another key
      it opens only if those very bytes were sealed under that key too. */
  lemma OpensOnlyUnderItsContext(aead: Aead, later: Aead, dek: Dek, nonce: Bytes, ciphertext: Bytes, plaintext: Bytes,
                                 context: Bytes, context': Bytes, dek': Dek)
    requires |nonce| == NONCE_LENGTH && Query(dek, nonce, ciphertext) !in aead.table
    requires SealBound(aead, dek, nonce, ciphertext, plaintext, context).0.Before(later)
    ensures
      var blob := SealBound(aead, dek, nonce, ciphertext, plaintext, context).1;
      && (OpenBound(later, dek, blob, context') == Ok(plaintext) <==> context == context')
      && (OpenBound(later, dek, blob, context').Ok? <==> context == context')
      && (OpenBound(later, dek', blob, context').Ok? ==> Query(dek', nonce, ciphertext) in later.table)
  {
    BlobParts(nonce, ciphertext);
    assert context == BoundAad(context)[|BOUND_BLOB_DOMAIN|..];
    assert context' == BoundAad(context')[|BOUND_BLOB_DOMAIN|..];
    assert Query(dek, nonce, ciphertext) in aead.Seal(dek, nonce, ciphertext, plaintext, BoundAad(context)).table;
  }

  /** Whatever opens was sealed: any byte string that opens under a key and context
      is the blob of a recorded encryption of that plaintext for that context. */
  lemma OpensOnlyWhatWasSealed(aead: Aead, dek: Dek, blob: Bytes, context: Bytes)
    requires OpenBound(aead, dek, blob, context).Ok?
    ensures exists q | q in aead.table ::
              && q.dek == dek && blob == BoundBlob(q.nonce, q.ciphertext)
              && aead.table[q] == Sealed(OpenBound(aead, dek, blob, context).value, BoundAad(context))
  {
    var encrypted := blob[|BOUND_BLOB_MAGIC|..];
    var q := Query(dek, encrypted[..NONCE_LENGTH], encrypted[NONCE_LENGTH..]);
    assert q in aead.table;
    assert blob == BOUND_BLOB_MAGIC + q.nonce + q.ciphertext;
  }

  /** The two layers together: a recording segment sealed for accepted facts opens
      under accepted facts exactly when they are the same facts (the hash up to letter
      case), and never under any ordinary media context. */
  lemma RecordingBlobBoundToFacts(aead: Aead, later: Aead, dek: Dek, nonce: Bytes, ciphertext: Bytes, plaintext: Bytes,
                                  f: Facts, g: Facts, user: Bytes, objectKey: Bytes)
    requires Acceptable(f) && Acceptable(g)
    requires |nonce| == NONCE_LENGTH && Query(dek, nonce, ciphertext) !in aead.table
    requires RecordingContext(f).Ok?
    requires SealBound(aead, dek, nonce, ciphertext, plaintext, RecordingContext(f).value).0.Before(later)
    ensures RecordingContext(g).Ok?
    ensures
      var blob := SealBound(aead, dek, nonce, ciphertext, plaintext, RecordingContext(f).value).1;
      && (OpenBound(later, dek, blob, RecordingContext(g).value) == Ok(plaintext) <==> Canonical(f) == Canonical(g))
      && (OpenBound(later, dek, blob, RecordingContext(g).value).Ok? <==> Canonical(f) == Canonical(g))
      && OpenBound(later, dek, blob, MediaContext(user, objectKey)).Err?
  {
    RecordingContextExact(f, g);
    ContextsDisjoint(f, user, objectKey);
    var context := RecordingContext(f).value;
    OpensOnlyUnderItsContext(
      aead, later, dek, nonce, ciphertext, plaintext, context, RecordingContext(g).value, dek);
    OpensOnlyUnderItsContext(
      aead, later, dek, nonce, ciphertext, plaintext, context, MediaContext(user, objectKey), dek);
  }
}
