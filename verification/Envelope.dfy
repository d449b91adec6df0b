/**
  Tenant secrets under envelope encryption (web/lib/secrets.ts:21-95), with ideal authenticated encryption: a
  sealed box opens only with its own key and its own context.
*/
module Envelope {
  import opened Common

  type Key = nat
  type Nonce = nat
  type Secret = nat

  datatype Column = LlmKeys | Connectors | GmailAccounts | Unregistered(n: nat)

  /** A row; its column and primary key are the context its secret is bound to. */
  datatype Loc = Loc(column: Column, pk: nat)

  datatype Box<T> = Sealed(key: Key, nonce: Nonce, plain: T, context: Loc) | Junk(bytes: nat)

  /** A stored blob: a version 1 envelope and how its JSON is spelled, or anything else. */
  datatype Blob = Envelope(body: Box<Secret>, wrap: Box<Key>, spelling: nat) | Unparseable(bytes: nat)

  function Open<T>(key: Key, box: Box<T>, context: Loc): Option<T> {
    if box.Sealed? && box.key == key && box.context == context then Some(box.plain) else None
  }

  function EncryptSecret(secret: Secret, context: Loc, master: Key, dataKey: Key, bodyNonce: Nonce, wrapNonce: Nonce): Blob {
    Envelope(Sealed(dataKey, bodyNonce, secret, context), Sealed(master, wrapNonce, dataKey, context), 0)
  }

  /** The data key of a blob, under one master key. */
  function DataKey(blob: Blob, context: Loc, master: Key): Option<Key> {
    if blob.Envelope? then Open(master, blob.wrap, context) else None
  }

  function DecryptSecret(blob: Blob, context: Loc, master: Key): Option<Secret> {
    var dataKey := DataKey(blob, context, master);
    if dataKey.Some? then Open(dataKey.value, blob.body, context) else None
  }

  /** The audit's check: the wrap opens; the body is not looked at. */
  predicate VerifyWrap(blob: Blob, context: Loc, master: Key) {
    DataKey(blob, context, master).Some?
  }

  datatype Rewrapped = Rewrapped(out: Blob, changed: bool)

  /** Wraps the data key again under the new master key, the body as it was; nothing when neither key opens it. */
  function RewrapSecret(blob: Blob, context: Loc, fromKey: Key, toKey: Key, nonce: Nonce): Option<Rewrapped> {
    if blob.Unparseable? then None
    else if Open(toKey, blob.wrap, context).Some? then Some(Rewrapped(blob, false))
    else
      var dataKey := Open(fromKey, blob.wrap, context);
      if dataKey.None? then None
      else Some(Rewrapped(Envelope(blob.body, Sealed(toKey, nonce, dataKey.value, context), 0), true))
  }

  /** The secret under whichever of the two keys opens it. */
  function SecretEither(blob: Blob, context: Loc, k: Key, k': Key): Option<Secret> {
    var s := DecryptSecret(blob, context, k);
    if s.Some? then s else DecryptSecret(blob, context, k')
  }

  /** Two blobs of a row with the same body and the same data key under one of the two master keys. */
  predicate SameSecret(a: Blob, b: Blob, context: Loc, k: Key, k': Key) {
    || a == b
    || (&& a.Envelope? && b.Envelope? && a.body == b.body
        && exists dk :: dk in DataKeys(a, context, k, k') && dk in DataKeys(b, context, k, k'))
  }

  function DataKeys(blob: Blob, context: Loc, k: Key, k': Key): set<Key> {
    var a, b := DataKey(blob, context, k), DataKey(blob, context, k');
    (if a.Some? then {a.value} else {}) + (if b.Some? then {b.value} else {})
  }

  lemma SameSecretIsTransitive(a: Blob, b: Blob, c: Blob, context: Loc, k: Key, k': Key)
    requires SameSecret(a, b, context, k, k') && SameSecret(b, c, context, k, k')
    ensures SameSecret(a, c, context, k, k')
  {
  }

  /** Blobs with the same secret read the same under either key, and one opens exactly when the other does. */
  lemma SameSecretReadsTheSame(a: Blob, b: Blob, context: Loc, k: Key, k': Key)
    requires SameSecret(a, b, context, k, k')
    ensures SecretEither(a, context, k, k') == SecretEither(b, context, k, k')
    ensures VerifyWrap(a, context, k) || VerifyWrap(a, context, k') <==> VerifyWrap(b, context, k) || VerifyWrap(b, context, k')
  {
  }

  /**
    Rewrapping succeeds exactly when one of the keys opens the wrap; its result opens under the new key, holds the
    same body and secret, and is the blob itself exactly when the new key opened it already.
  */
  lemma RewrapKeepsTheSecret(blob: Blob, context: Loc, fromKey: Key, toKey: Key, nonce: Nonce)
    ensures
      var r := RewrapSecret(blob, context, fromKey, toKey, nonce);
      && (r.Some? <==> VerifyWrap(blob, context, fromKey) || VerifyWrap(blob, context, toKey))
      && (r.Some? ==>
            && VerifyWrap(r.value.out, context, toKey)
            && SameSecret(blob, r.value.out, context, fromKey, toKey)
            && r.value.out.body == blob.body
            && DecryptSecret(r.value.out, context, toKey) == SecretEither(blob, context, fromKey, toKey)
            && (r.value.changed <==> !VerifyWrap(blob, context, toKey))
            && (!r.value.changed ==> r.value.out == blob))
  {
    var r := RewrapSecret(blob, context, fromKey, toKey, nonce);
    if r.Some? && r.value.changed {
      var dk := DataKey(blob, context, fromKey).value;
      assert dk in DataKeys(blob, context, fromKey, toKey) && dk in DataKeys(r.value.out, context, fromKey, toKey);
    }
  }

  /** What was encrypted is read back under its master key and in its row, and under no other key and in no other row. */
  lemma RoundTrip(secret: Secret, context: Loc, master: Key, dataKey: Key, bodyNonce: Nonce, wrapNonce: Nonce, where': Loc, k: Key)
    ensures
      var blob := EncryptSecret(secret, context, master, dataKey, bodyNonce, wrapNonce);
      DecryptSecret(blob, where', k) == if where' == context && k == master then Some(secret) else None
  {
  }
}
