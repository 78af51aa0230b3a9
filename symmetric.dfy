/**
 * The collaborators of the handshake, kept abstract.
 *
 * The symmetric state is modelled as the append-only transcript of the calls the handshake
 * makes on it (InitializeSymmetric, MixHash, MixKey, MixKeyAndHash, EncryptAndHash) together
 * with the `hasKey` flag that decides whether EncryptAndHash adds a 16-byte tag.  The DH
 * function, the public-key derivation and the AEAD tag are fields of a `Suite`, uninterpreted
 * except for the laws stated as predicates below.
 */
module Symmetric {
  import opened Wrappers

  type byte = x: int | 0 <= x < 256
  type Bytes = seq<byte>

  /** Length of the AEAD authentication tag. */
  const TAGLEN: nat := 16

  function Zeros(n: nat): Bytes
  {
    seq(n, _ => 0)
  }

  /** An authentication tag: exactly TAGLEN bytes. */
  type Tag = t: Bytes | |t| == TAGLEN witness Zeros(TAGLEN)

  /** One call on the symmetric state; the plaintext stands for the ciphertext it determines. */
  datatype Event =
    | Initialized(protocolName: string)
    | Hashed(data: Bytes)
    | KeyMixed(data: Bytes)
    | KeyAndHashMixed(data: Bytes)
    | Encrypted(plaintext: Bytes)

  /** The symmetric state: its transcript and whether a cipher key is established. */
  datatype SymState = SymState(log: seq<Event>, hasKey: bool)

  datatype KeyPair = KeyPair(publicKey: Bytes, secretKey: Bytes)

  /**
   * The DH, cipher and hash collaborators: fixed key lengths, algorithm names for the
   * protocol name, public-key derivation, the DH function and the AEAD tag, which depends
   * on the transcript so far (standing for the cipher key and the handshake hash).
   */
  datatype Suite = Suite(
    pkLen: nat,
    skLen: nat,
    dhAlg: string,
    cipherAlg: string,
    hashAlg: string,
    pub: Bytes -> Bytes,
    dh: (Bytes, Bytes) -> Bytes,
    tag: (seq<Event>, Bytes) -> Tag)

  /** The Diffie-Hellman law: both parties of an exchange compute the same secret. */
  ghost predicate DhCommutes(suite: Suite)
  {
    forall a: Bytes, b: Bytes :: suite.dh(a, suite.pub(b)) == suite.dh(b, suite.pub(a))
  }

  /** A keypair as the DH collaborator generates it. */
  predicate WellFormedKeyPair(suite: Suite, kp: KeyPair)
  {
    |kp.publicKey| == suite.pkLen && |kp.secretKey| == suite.skLen
    && kp.publicKey == suite.pub(kp.secretKey)
  }

  /** A cipher state produced by Split: the transcript it was derived from and which of the two keys it is. */
  datatype CipherState = CipherState(log: seq<Event>, second: bool)

  function InitializeSymmetric(protocolName: string): SymState
  {
    SymState([Initialized(protocolName)], false)
  }

  function MixHash(st: SymState, data: Bytes): SymState
  {
    st.(log := st.log + [Hashed(data)])
  }

  function MixKey(st: SymState, data: Bytes): SymState
  {
    SymState(st.log + [KeyMixed(data)], true)
  }

  function MixKeyAndHash(st: SymState, data: Bytes): SymState
  {
    SymState(st.log + [KeyAndHashMixed(data)], true)
  }

  /** Encrypts (once a key is set) and hashes; yields the ciphertext and the new state. */
  function EncryptAndHash(suite: Suite, st: SymState, plaintext: Bytes): (r: (Bytes, SymState))
    ensures |r.0| == |plaintext| + (if st.hasKey then TAGLEN else 0)
    ensures r.0[..|plaintext|] == plaintext
    ensures r.1.hasKey == st.hasKey && r.1.log == st.log + [Encrypted(plaintext)]
  {
    var ciphertext := if st.hasKey then plaintext + suite.tag(st.log, plaintext) else plaintext;
    (ciphertext, st.(log := st.log + [Encrypted(plaintext)]))
  }

  /** Decrypts (once a key is set, checking the tag) and hashes; None is an authentication failure. */
  function DecryptAndHash(suite: Suite, st: SymState, ciphertext: Bytes): (r: Option<(Bytes, SymState)>)
    ensures !st.hasKey ==> r.Some?
    ensures st.hasKey && |ciphertext| < TAGLEN ==> r.None?
    ensures r.Some? ==> |r.value.0| == |ciphertext| - (if st.hasKey then TAGLEN else 0)
  {
    if !st.hasKey then
      Some((ciphertext, st.(log := st.log + [Encrypted(ciphertext)])))
    else if |ciphertext| < TAGLEN then
      None
    else
      var plaintext := ciphertext[..|ciphertext| - TAGLEN];
      if ciphertext[|ciphertext| - TAGLEN..] == suite.tag(st.log, plaintext) then
        Some((plaintext, st.(log := st.log + [Encrypted(plaintext)])))
      else
        None
  }

  /** Decryption succeeds exactly on the ciphertexts EncryptAndHash produces, and inverts it. */
  lemma DecryptIffEncrypted(suite: Suite, st: SymState, ciphertext: Bytes, plaintext: Bytes, st': SymState)
    ensures DecryptAndHash(suite, st, ciphertext) == Some((plaintext, st'))
        <==> EncryptAndHash(suite, st, plaintext) == (ciphertext, st')
  {
    if st.hasKey && EncryptAndHash(suite, st, plaintext) == (ciphertext, st') {
      var n := |ciphertext| - TAGLEN;
      assert ciphertext[..n] == plaintext;
      assert ciphertext[n..] == suite.tag(st.log, plaintext);
    }
    if st.hasKey && DecryptAndHash(suite, st, ciphertext) == Some((plaintext, st')) {
      var n := |ciphertext| - TAGLEN;
      assert ciphertext == ciphertext[..n] + ciphertext[n..];
    }
  }

  /** The pair of cipher states derived at the end of the handshake, in the order Split yields them. */
  function Split(st: SymState): (r: (CipherState, CipherState))
    ensures r.0 != r.1 && r.0.log == r.1.log == st.log
  {
    (CipherState(st.log, false), CipherState(st.log, true))
  }
}
