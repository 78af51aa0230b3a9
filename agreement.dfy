/**
 * Two parties that run the same handshake agree.  When one party writes a message and the
 * other reads it, the reader recovers the payload, both transcripts stay equal, and after
 * the last message the writer's sending cipher state is the reader's receiving one.  The
 * only assumption about the DH function is that it commutes:
 * dh(a, pub(b)) == dh(b, pub(a)).
 */
module Agreement {
  import opened Wrappers
  import opened Symmetric
  import opened Patterns
  import opened PatternName
  import opened HandshakeSpec

  /** A public key slot and a secret key slot that are both null, or hold a matching keypair. */
  predicate Paired(suite: Suite, pk: Option<Bytes>, sk: Option<Bytes>)
  {
    (pk.Some? <==> sk.Some?) && (sk.Some? ==> pk.value == suite.pub(sk.value))
  }

  /**
   * The two parties of one handshake between messages: same transcript, opposite roles,
   * same psks, own keypairs well formed, and every remote key either unknown (static) or
   * the peer's own public key.
   */
  predicate Mirrored(suite: Suite, a: State, b: State)
  {
    && a.sym.Some? && a.sym == b.sym
    && a.role.Some? && b.role.Some? && a.role != b.role
    && a.psks == b.psks && a.pskCount == b.pskCount
    && Paired(suite, a.epk, a.esk) && Paired(suite, b.epk, b.esk)
    && Paired(suite, a.spk, a.ssk) && Paired(suite, b.spk, b.ssk)
    && a.re == b.epk && b.re == a.epk
    && (a.rs.Some? ==> a.rs == b.spk) && (b.rs.Some? ==> b.rs == a.spk)
  }

  /** Mirrored states that also share the same live queue of message patterns. */
  predicate Synced(suite: Suite, a: State, b: State)
  {
    Valid(a) && Valid(b) && a.queue.Some? && a.queue == b.queue && Mirrored(suite, a, b)
  }

  /**
   * A DH token for which a party in role `role` combines the remote static key: `ss` for
   * both, `es` for the initiator and `se` for the responder.
   */
  predicate NeedsRemoteStatic(t: Token, role: Role)
  {
    t == SS || (t == ES && role == Initiator) || (t == SE && role == Responder)
  }

  /** A DH token needs the remote static key exactly when the key it combines on the remote side is static. */
  lemma NeedsRemoteStaticOperand(t: Token, role: Role)
    requires IsDh(t)
    ensures NeedsRemoteStatic(t, role) <==> DhOperands(t, role).1 == Static
  {
  }

  /**
   * Whether a reader in role `role`, holding a remote static key exactly when `hasRs`, may
   * refuse the tokens `toks` its mirrored peer wrote with the error `e`: at a DH that needs
   * the remote static key while the reader has none, or at an `s` while it already has one.
   * Reading an `s` gives the reader the key for the tokens after it.
   */
  predicate Refusable(hasRs: bool, role: Role, toks: seq<Token>, e: Error)
    decreases |toks|
  {
    && toks != []
    && (|| (e == MissingKey && !hasRs && NeedsRemoteStatic(toks[0], role))
        || (e == RemoteStaticAlreadySet && hasRs && toks[0] == S)
        || Refusable(hasRs || toks[0] == S, role, toks[1..], e))
  }

  /**
   * The same refusals by position: the token at `i` is refused with `e`, given the key the
   * reader started with and the `s` tokens before `i`.
   */
  predicate RefusedAt(hasRs: bool, role: Role, toks: seq<Token>, i: int, e: Error)
  {
    && 0 <= i < |toks|
    && (|| (e == MissingKey && !hasRs && S !in toks[..i] && NeedsRemoteStatic(toks[i], role))
        || (e == RemoteStaticAlreadySet && (hasRs || S in toks[..i]) && toks[i] == S))
  }

  /** A run of tokens may be refused exactly when one of its tokens is refused at its position. */
  lemma {:induction false} RefusableAt(hasRs: bool, role: Role, toks: seq<Token>, e: Error)
    ensures Refusable(hasRs, role, toks, e) <==> exists i :: RefusedAt(hasRs, role, toks, i, e)
    decreases |toks|
  {
    if toks != [] {
      var h := hasRs || toks[0] == S;
      RefusableAt(h, role, toks[1..], e);
      forall i | 0 <= i < |toks| - 1
        ensures RefusedAt(h, role, toks[1..], i, e) <==> RefusedAt(hasRs, role, toks, i + 1, e)
      {
        assert toks[..i + 1] == [toks[0]] + toks[1..][..i];
      }
      if Refusable(hasRs, role, toks, e) {
        if !RefusedAt(hasRs, role, toks, 0, e) {
          var j :| RefusedAt(h, role, toks[1..], j, e);
          assert RefusedAt(hasRs, role, toks, j + 1, e);
        }
      }
      if i :| RefusedAt(hasRs, role, toks, i, e) {
        if i > 0 {
          assert RefusedAt(h, role, toks[1..], i - 1, e);
        }
      }
    }
  }

  /** The failures a reader starting in state `r` may meet on the tokens `toks` its peer wrote. */
  predicate ReaderMayRefuse(r: State, toks: seq<Token>, e: Error)
  {
    r.role.Some? && Refusable(r.rs.Some?, r.role.value, toks, e)
  }

  lemma MirroredSymmetric(suite: Suite, a: State, b: State)
    requires Mirrored(suite, a, b)
    ensures Mirrored(suite, b, a)
  {
  }

  lemma SyncedSymmetric(suite: Suite, a: State, b: State)
    requires Synced(suite, a, b)
    ensures Synced(suite, b, a)
  {
    MirroredSymmetric(suite, a, b);
  }

  /** For every DH token, the responder combines the key kinds the initiator does, swapped. */
  lemma DhOperandsMirror(t: Token)
    requires IsDh(t)
    ensures DhOperands(t, Responder) == (DhOperands(t, Initiator).1, DhOperands(t, Initiator).0)
  {
  }

  /** The DH of a token gives both parties the same shared secret. */
  lemma SharedAgreement(suite: Suite, w: State, r: State, t: Token)
    requires DhCommutes(suite) && Mirrored(suite, w, r)
    requires IsDh(t) || t == PSK
    requires SharedToken(suite, w, t).result.Ok?
    ensures var wr := SharedToken(suite, w, t);
            var rd := SharedToken(suite, r, t);
            || (rd.result.Ok? && Mirrored(suite, wr.state, rd.state))
            || (rd.result == Err(MissingKey) && r.rs.None? && NeedsRemoteStatic(t, r.role.value))
  {
    if t != PSK {
      var (wl, wrk) := DhOperands(t, w.role.value);
      var (rl, rrk) := DhOperands(t, r.role.value);
      DhOperandsMirror(t);
      assert rl == wrk && rrk == wl;
      var wsk, wpk := LocalSecret(w, wl), RemotePublic(w, wrk);
      var rsk, rpk := LocalSecret(r, rl), RemotePublic(r, rrk);
      if rsk.Some? && rpk.Some? {
        // The writer's remote key is the reader's own public key, and the other way round.
        assert wpk.value == suite.pub(rsk.value);
        assert rpk.value == suite.pub(wsk.value);
        assert suite.dh(wsk.value, wpk.value) == suite.dh(rsk.value, rpk.value);
      }
    }
  }

  /** An E token written by one party and read by the other. */
  lemma EphemeralAgreement(suite: Suite, w: State, r: State, eph: KeyPair, message: Bytes, offset: nat)
    requires WellFormedKeyPair(suite, eph) && Mirrored(suite, w, r)
    requires WriteToken(suite, w, E, eph).result.Ok?
    requires offset + suite.pkLen <= |message| && message[offset..offset + suite.pkLen] == eph.publicKey
    ensures var wr := WriteToken(suite, w, E, eph);
            var rd := ReadToken(suite, r, message, offset, E);
            rd.result == Ok(offset + |wr.result.value|) && Mirrored(suite, wr.state, rd.state)
  {
  }

  /** An S token written by one party and read by the other. */
  lemma StaticAgreement(suite: Suite, w: State, r: State, eph: KeyPair, message: Bytes, offset: nat)
    requires FitsPair(suite, Some(eph)) && Mirrored(suite, w, r)
    requires WriteToken(suite, w, S, eph).result.Ok?
    requires var b := WriteToken(suite, w, S, eph).result.value;
             offset + |b| <= |message| && message[offset..offset + |b|] == b
    ensures var wr := WriteToken(suite, w, S, eph);
            var rd := ReadToken(suite, r, message, offset, S);
            (rd.result == Ok(offset + |wr.result.value|) && Mirrored(suite, wr.state, rd.state))
            || (rd.result == Err(RemoteStaticAlreadySet) && r.rs.Some?)
  {
    var wr := WriteToken(suite, w, S, eph);
    var b := wr.result.value;
    var st := w.sym.value;
    if r.rs.None? {
      var (ciphertext, st') := EncryptAndHash(suite, st, w.spk.value);
      assert b == ciphertext && wr.state.sym == Some(st');
      DecryptIffEncrypted(suite, st, ciphertext, w.spk.value, st');
      assert message[offset..offset + |b|] == ciphertext;
    }
  }

  /** The bytes `b` sit in `message` at `offset`. */
  predicate At(message: Bytes, offset: nat, b: Bytes)
  {
    offset + |b| <= |message| && message[offset..offset + |b|] == b
  }

  lemma AtSplit(message: Bytes, offset: nat, b1: Bytes, b2: Bytes)
    requires At(message, offset, b1 + b2)
    ensures At(message, offset, b1) && At(message, offset + |b1|, b2)
  {
    var n := |b1|;
    assert message[offset..offset + n] == (b1 + b2)[..n];
    assert message[offset + n..offset + n + |b2|] == (b1 + b2)[n..];
  }

  /**
   * The reader, starting in state `r` on the tokens `toks`, ended where the writer did,
   * mirrored, or refused for a reason above.
   */
  predicate ReadMatches(suite: Suite, wr: Step<Bytes>, rd: Step<nat>, offset: nat, r: State, toks: seq<Token>)
    requires wr.result.Ok?
  {
    || (rd.result == Ok(offset + |wr.result.value|) && Mirrored(suite, wr.state, rd.state))
    || (rd.result.Err? && ReaderMayRefuse(r, toks, rd.result.error))
  }

  /** A run of write tokens stops at its first failure, or puts the first token's bytes in front of the rest's. */
  lemma WriteTokensCons(suite: Suite, s: State, toks: seq<Token>, eph: KeyPair)
    requires s.sym.Some? && s.role.Some? && FitsPair(suite, Some(eph)) && toks != []
    ensures var first := WriteToken(suite, s, toks[0], eph);
            WriteTokens(suite, s, toks, eph) ==
              if first.result.Err? then Step(first.state, Err(first.result.error))
              else Prefixed(first.result.value, WriteTokens(suite, first.state, toks[1..], eph))
  {
  }

  /** A run of read tokens stops at its first failure, or goes on from the first token's offset. */
  lemma ReadTokensCons(suite: Suite, s: State, message: Bytes, offset: nat, toks: seq<Token>)
    requires s.sym.Some? && s.role.Some? && offset <= |message| && toks != []
    ensures var first := ReadToken(suite, s, message, offset, toks[0]);
            ReadTokens(suite, s, message, offset, toks) ==
              if first.result.Err? then Step(first.state, Err(first.result.error))
              else ReadTokens(suite, first.state, message, first.result.value, toks[1..])
  {
  }

  /** One token written by one party and read by the other. */
  lemma TokenAgreement(suite: Suite, w: State, r: State, t: Token, eph: KeyPair, message: Bytes, offset: nat)
    requires DhCommutes(suite) && WellFormedKeyPair(suite, eph) && Mirrored(suite, w, r)
    requires WriteToken(suite, w, t, eph).result.Ok?
    requires At(message, offset, WriteToken(suite, w, t, eph).result.value)
    ensures ReadMatches(suite, WriteToken(suite, w, t, eph), ReadToken(suite, r, message, offset, t), offset, r, [t])
  {
    match t
    case E => EphemeralAgreement(suite, w, r, eph, message, offset);
    case S => StaticAgreement(suite, w, r, eph, message, offset);
    case _ => SharedAgreement(suite, w, r, t);
  }

  /** A first step and a rest that each match compose into a run that matches. */
  lemma ComposeMatches(suite: Suite, wfirst: Step<Bytes>, wrest: Step<Bytes>, rfirst: Step<nat>, rrest: Step<nat>,
                       offset: nat, r: State, t: Token, toks: seq<Token>)
    requires wfirst.result.Ok? && wrest.result.Ok?
    requires ReadMatches(suite, wfirst, rfirst, offset, r, [t])
    requires rfirst.result.Ok? ==> ReadMatches(suite, wrest, rrest, rfirst.result.value, rfirst.state, toks)
    requires rfirst.state.role == r.role && (rfirst.state.rs.Some? <==> r.rs.Some? || t == S)
    ensures ReadMatches(suite, Prefixed(wfirst.result.value, wrest),
                        if rfirst.result.Err? then Step(rfirst.state, Err(rfirst.result.error)) else rrest, offset,
                        r, [t] + toks)
  {
    var all := [t] + toks;
    assert all[0] == t && all[1..] == toks && [t][1..] == [];
    if rfirst.result.Err? {
      var e := rfirst.result.error;
      assert Refusable(r.rs.Some?, r.role.value, [t], e);
      assert !Refusable(r.rs.Some? || t == S, r.role.value, [], e);
      assert Refusable(r.rs.Some?, r.role.value, all, e);
    } else if rrest.result.Err? {
      var e := rrest.result.error;
      assert Refusable(r.rs.Some? || t == S, r.role.value, toks, e);
      assert Refusable(r.rs.Some?, r.role.value, all, e);
    }
  }

  /** The first token of a run written by one party and read by the other; the rest is written at the next offset. */
  lemma FirstTokenAgreement(suite: Suite, w: State, r: State, toks: seq<Token>, eph: KeyPair, message: Bytes, offset: nat)
    requires DhCommutes(suite) && WellFormedKeyPair(suite, eph) && Mirrored(suite, w, r) && toks != []
    requires WriteTokens(suite, w, toks, eph).result.Ok?
    requires At(message, offset, WriteTokens(suite, w, toks, eph).result.value)
    ensures var first := WriteToken(suite, w, toks[0], eph);
            && first.result.Ok?
            && WriteTokens(suite, first.state, toks[1..], eph).result.Ok?
            && At(message, offset + |first.result.value|, WriteTokens(suite, first.state, toks[1..], eph).result.value)
            && ReadMatches(suite, first, ReadToken(suite, r, message, offset, toks[0]), offset, r, [toks[0]])
  {
    var first := WriteToken(suite, w, toks[0], eph);
    var rest := WriteTokens(suite, first.state, toks[1..], eph);
    WriteTokensCons(suite, w, toks, eph);
    assert first.result.Ok? && rest.result.Ok?;
    AtSplit(message, offset, first.result.value, rest.result.value);
    TokenAgreement(suite, w, r, toks[0], eph, message, offset);
  }

  /** A first token and a rest that each match make a run that matches. */
  lemma ConsMatches(suite: Suite, w: State, r: State, toks: seq<Token>, eph: KeyPair, message: Bytes, offset: nat)
    requires w.sym.Some? && w.role.Some? && r.sym.Some? && r.role.Some? && FitsPair(suite, Some(eph))
    requires toks != [] && offset <= |message|
    requires var first := WriteToken(suite, w, toks[0], eph);
             var rfirst := ReadToken(suite, r, message, offset, toks[0]);
             && first.result.Ok?
             && WriteTokens(suite, first.state, toks[1..], eph).result.Ok?
             && ReadMatches(suite, first, rfirst, offset, r, [toks[0]])
             && (rfirst.result.Ok? ==>
                   ReadMatches(suite, WriteTokens(suite, first.state, toks[1..], eph),
                               ReadTokens(suite, rfirst.state, message, rfirst.result.value, toks[1..]),
                               rfirst.result.value, rfirst.state, toks[1..]))
    ensures WriteTokens(suite, w, toks, eph).result.Ok?
    ensures ReadMatches(suite, WriteTokens(suite, w, toks, eph), ReadTokens(suite, r, message, offset, toks), offset,
                        r, toks)
  {
    var first := WriteToken(suite, w, toks[0], eph);
    var rest := WriteTokens(suite, first.state, toks[1..], eph);
    var rfirst := ReadToken(suite, r, message, offset, toks[0]);
    WriteTokensCons(suite, w, toks, eph);
    ReadTokensCons(suite, r, message, offset, toks);
    var rrest := if rfirst.result.Ok? then ReadTokens(suite, rfirst.state, message, rfirst.result.value, toks[1..])
                 else rfirst;
    ComposeMatches(suite, first, rest, rfirst, rrest, offset, r, toks[0], toks[1..]);
    assert [toks[0]] + toks[1..] == toks;
  }

  /** The tokens of one message pattern, written by one party and read by the other. */
  lemma {:induction false} TokensAgreement(suite: Suite, w: State, r: State, toks: seq<Token>, eph: KeyPair,
                                           message: Bytes, offset: nat)
    requires DhCommutes(suite) && WellFormedKeyPair(suite, eph) && Mirrored(suite, w, r)
    requires WriteTokens(suite, w, toks, eph).result.Ok?
    requires At(message, offset, WriteTokens(suite, w, toks, eph).result.value)
    ensures ReadMatches(suite, WriteTokens(suite, w, toks, eph), ReadTokens(suite, r, message, offset, toks), offset,
                        r, toks)
    decreases |toks|
  {
    if toks != [] {
      FirstTokenAgreement(suite, w, r, toks, eph, message, offset);
      var first := WriteToken(suite, w, toks[0], eph);
      var rfirst := ReadToken(suite, r, message, offset, toks[0]);
      if rfirst.result.Ok? {
        TokensAgreement(suite, first.state, rfirst.state, toks[1..], eph, message, rfirst.result.value);
      }
      ConsMatches(suite, w, r, toks, eph, message, offset);
    }
  }

  /**
   * A message written by one party and read by its synced peer: either the reader refuses
   * it for a reason above, or it recovers the payload, both parties pop the same pattern and
   * stay synced, and at the end of the handshake each party's sending cipher state is the
   * other's receiving one.
   */
  lemma WriteThenRead(suite: Suite, w: State, r: State, payload: Bytes, eph: KeyPair)
    requires DhCommutes(suite) && WellFormedKeyPair(suite, eph) && Synced(suite, w, r)
    requires Write(suite, w, payload, eph).result.Ok?
    ensures var wr := Write(suite, w, payload, eph);
            var rd := Read(suite, r, wr.result.value.message);
            rd.result.Err? ==> ReaderMayRefuse(r, w.queue.value[0].tokens, rd.result.error)
    ensures var wr := Write(suite, w, payload, eph);
            var rd := Read(suite, r, wr.result.value.message);
            rd.result.Ok? ==> rd.result.value.payload == payload && Synced(suite, wr.state, rd.state)
    ensures var wr := Write(suite, w, payload, eph);
            var rd := Read(suite, r, wr.result.value.message);
            rd.result.Ok? ==> (rd.result.value.split.Some? <==> wr.result.value.split.Some?)
    ensures var wr := Write(suite, w, payload, eph);
            var rd := Read(suite, r, wr.result.value.message);
            rd.result.Ok? && rd.result.value.split.Some? ==>
              wr.result.value.split.value.tx == rd.result.value.split.value.rx &&
              wr.result.value.split.value.rx == rd.result.value.split.value.tx
  {
    var mpat := w.queue.value[0];
    var wpopped := w.(queue := Some(w.queue.value[1..]));
    var rpopped := r.(queue := Some(r.queue.value[1..]));
    var wbody := WriteTokens(suite, wpopped, mpat.tokens, eph);
    var message := Write(suite, w, payload, eph).result.value.message;
    var tokenBytes := wbody.result.value;
    var (ciphertext, st) := EncryptAndHash(suite, wbody.state.sym.value, payload);
    assert message == tokenBytes + ciphertext;
    AtSplit(message, 0, tokenBytes, ciphertext);
    TokensAgreement(suite, wpopped, rpopped, mpat.tokens, eph, message, 0);
    var rbody := ReadTokens(suite, rpopped, message, 0, mpat.tokens);
    if rbody.result.Ok? {
      assert message[rbody.result.value..] == ciphertext;
      DecryptIffEncrypted(suite, wbody.state.sym.value, ciphertext, payload, st);
    }
  }

  /** Both parties set the same psks: they stay synced. */
  lemma SetPsksAgreement(suite: Suite, a: State, b: State, psks: seq<Bytes>)
    requires Synced(suite, a, b)
    ensures SetPsks(a, psks).result == SetPsks(b, psks).result
    ensures Synced(suite, SetPsks(a, psks).state, SetPsks(b, psks).state)
  {
  }
}
