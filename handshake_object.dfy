/**
 * The HandshakeState object and the operations that edit it in place: initialize, setPsks,
 * writeMessage, readMessage and destroy.  Each method follows the source statement by
 * statement (queue shifts, null checks, the token switch and the running offset) and is
 * proved to compute the corresponding function of HandshakeSpec.
 */
module HandshakeObject {
  import opened Wrappers
  import opened Symmetric
  import opened Patterns
  import opened PatternName
  import opened HandshakeSpec

  class HandshakeState {
    /** The collaborators the handshake was created with. */
    const suite: Suite

    var symmetricState: Option<SymState>
    var role: Option<Role>
    var spk: Option<Bytes>
    var ssk: Option<Bytes>
    var epk: Option<Bytes>
    var esk: Option<Bytes>
    var rs: Option<Bytes>
    var re: Option<Bytes>
    var psks: seq<Bytes>
    var messagePatterns: Option<seq<MessagePattern>>
    var pskCount: Option<nat>

    /** The value of the object. */
    function Snapshot(): State
      reads this
    {
      State(symmetricState, role, spk, ssk, epk, esk, rs, re, psks, messagePatterns, pskCount)
    }

    predicate Valid()
      reads this
    {
      HandshakeSpec.Valid(Snapshot())
    }

    /** `new HandshakeState()`: a blank symmetric state, no role, no keys, no queue. */
    constructor (suite: Suite)
      ensures this.suite == suite && Valid()
      ensures Snapshot() == State(Some(SymState([], false)), None, None, None, None, None, None, None, [], None, None)
    {
      this.suite := suite;
      symmetricState := Some(SymState([], false));
      role := None;
      spk, ssk := None, None;
      epk, esk := None, None;
      rs, re := None, None;
      psks := [];
      messagePatterns := None;
      pskCount := None;
    }

    /** `setPsks`: stores the psks when there are exactly pskCount of them. */
    method SetPsks(psks: seq<Bytes>) returns (r: Result<(), Error>)
      modifies this
      ensures old(Valid()) ==> Valid()
      ensures Snapshot() == HandshakeSpec.SetPsks(old(Snapshot()), psks).state
      ensures r == HandshakeSpec.SetPsks(old(Snapshot()), psks).result
    {
      if pskCount != Some(|psks|) {
        return Err(PskCountMismatch);
      }
      this.psks := psks;
      r := Ok(());
    }

    /** A DH token or PSK, handled alike by writeMessage and readMessage. */
    method MixToken(t: Token) returns (r: Result<(), Error>)
      requires symmetricState.Some? && role.Some? && (IsDh(t) || t == PSK)
      modifies this
      ensures Snapshot() == SharedToken(suite, old(Snapshot()), t).state
      ensures r == SharedToken(suite, old(Snapshot()), t).result
    {
      match t {
        case EE =>
          if esk.None? || re.None? {
            return Err(MissingKey);
          }
          symmetricState := Some(MixKey(symmetricState.value, suite.dh(esk.value, re.value)));
        case ES =>
          var sk, pk := ssk, re;
          if role == Some(Initiator) {
            sk, pk := esk, rs;
          }
          if sk.None? || pk.None? {
            return Err(MissingKey);
          }
          symmetricState := Some(MixKey(symmetricState.value, suite.dh(sk.value, pk.value)));
        case SE =>
          var sk, pk := esk, rs;
          if role == Some(Initiator) {
            sk, pk := ssk, re;
          }
          if sk.None? || pk.None? {
            return Err(MissingKey);
          }
          symmetricState := Some(MixKey(symmetricState.value, suite.dh(sk.value, pk.value)));
        case SS =>
          if ssk.None? || rs.None? {
            return Err(MissingKey);
          }
          symmetricState := Some(MixKey(symmetricState.value, suite.dh(ssk.value, rs.value)));
        case PSK =>
          if psks == [] {
            return Err(MissingPsk);
          }
          var psk := psks[0];
          psks := psks[1..];
          symmetricState := Some(MixKeyAndHash(symmetricState.value, psk));
      }
      r := Ok(());
    }

    /** One token of writeMessage; returns the bytes it writes at the current offset. */
    method WriteOneToken(t: Token, eph: KeyPair) returns (r: Result<Bytes, Error>)
      requires symmetricState.Some? && role.Some? && FitsPair(suite, Some(eph))
      modifies this
      ensures Snapshot() == WriteToken(suite, old(Snapshot()), t, eph).state
      ensures r == WriteToken(suite, old(Snapshot()), t, eph).result
    {
      match t {
        case E =>
          if epk.Some? || esk.Some? {
            return Err(EphemeralAlreadySet);
          }
          epk, esk := Some(eph.publicKey), Some(eph.secretKey);
          symmetricState := Some(MixHash(symmetricState.value, eph.publicKey));
          if pskCount.Some? && pskCount.value > 0 {
            symmetricState := Some(MixKey(symmetricState.value, eph.publicKey));
          }
          r := Ok(eph.publicKey);
        case S =>
          if spk.None? {
            return Err(MissingKey);
          }
          if |spk.value| != suite.pkLen {
            return Err(BadKeyLength);
          }
          var (ciphertext, st) := EncryptAndHash(suite, symmetricState.value, spk.value);
          symmetricState := Some(st);
          r := Ok(ciphertext);
        case _ =>
          var mixed := MixToken(t);
          r := if mixed.Ok? then Ok([]) else Err(mixed.error);
      }
    }

    /** The token loop of writeMessage: the bytes the tokens write, in order. */
    method WriteTokensInPlace(tokens: seq<Token>, eph: KeyPair) returns (r: Result<Bytes, Error>)
      requires symmetricState.Some? && role.Some? && FitsPair(suite, Some(eph))
      modifies this
      ensures Snapshot() == WriteTokens(suite, old(Snapshot()), tokens, eph).state
      ensures r == WriteTokens(suite, old(Snapshot()), tokens, eph).result
    {
      ghost var body := WriteTokens(suite, Snapshot(), tokens, eph);
      var message: Bytes := [];
      var i := 0;
      assert tokens[i..] == tokens;
      if body.result.Ok? {
        assert [] + body.result.value == body.result.value;
      }
      while i < |tokens|
        invariant 0 <= i <= |tokens|
        invariant symmetricState.Some? && role.Some?
        invariant Prefixed(message, WriteTokens(suite, Snapshot(), tokens[i..], eph)) == body
      {
        ghost var before := Snapshot();
        assert tokens[i..] == [tokens[i]] + tokens[i + 1..];
        var written := WriteOneToken(tokens[i], eph);
        if written.Err? {
          assert WriteTokens(suite, before, tokens[i..], eph) == Step(Snapshot(), Err(written.error));
          return Err(written.error);
        }
        ghost var rest := WriteTokens(suite, Snapshot(), tokens[i + 1..], eph);
        assert WriteTokens(suite, before, tokens[i..], eph) == Prefixed(written.value, rest);
        PrefixedTwice(message, written.value, rest);
        message := message + written.value;
        i := i + 1;
      }
      assert message + [] == message;
      r := Ok(message);
    }

    /** `writeMessage`: `eph` is the keypair the DH collaborator generates for an E token. */
    method WriteMessage(payload: Bytes, eph: KeyPair) returns (r: Result<Written, Error>)
      requires Valid() && FitsPair(suite, Some(eph))
      modifies this
      ensures Valid()
      ensures Snapshot() == Write(suite, old(Snapshot()), payload, eph).state
      ensures r == Write(suite, old(Snapshot()), payload, eph).result
    {
      if messagePatterns.None? {
        return Err(Destroyed);
      }
      var queue := messagePatterns.value;
      if queue == [] {
        return Err(NoMessagePattern);
      }
      var mpat := queue[0];
      messagePatterns := Some(queue[1..]);
      if role != Some(mpat.role) {
        return Err(WrongRole);
      }
      r := WritePattern(mpat.tokens, payload, eph);
    }

    /** writeMessage after the pop and the role check: the token loop, the payload, the split. */
    method WritePattern(tokens: seq<Token>, payload: Bytes, eph: KeyPair) returns (r: Result<Written, Error>)
      requires symmetricState.Some? && role.Some? && messagePatterns.Some? && FitsPair(suite, Some(eph))
      modifies this
      ensures Snapshot() == WriteBody(suite, old(Snapshot()), tokens, payload, eph).state
      ensures r == WriteBody(suite, old(Snapshot()), tokens, payload, eph).result
    {
      var tokenBytes := WriteTokensInPlace(tokens, eph);
      if tokenBytes.Err? {
        return Err(tokenBytes.error);
      }
      var (ciphertext, st) := EncryptAndHash(suite, symmetricState.value, payload);
      symmetricState := Some(st);
      var moffset := |tokenBytes.value| + |ciphertext|;
      var split := None;
      if messagePatterns.value == [] {
        split := Some(WriterSplit(st));
      }
      r := Ok(Written(tokenBytes.value + ciphertext, moffset, split));
    }

    /** One token of readMessage; returns the offset after the bytes it consumes. */
    method ReadOneToken(message: Bytes, moffset: nat, t: Token) returns (r: Result<nat, Error>)
      requires symmetricState.Some? && role.Some? && moffset <= |message|
      modifies this
      ensures Snapshot() == ReadToken(suite, old(Snapshot()), message, moffset, t).state
      ensures r == ReadToken(suite, old(Snapshot()), message, moffset, t).result
    {
      match t {
        case E =>
          if re.Some? {
            return Err(RemoteEphemeralAlreadySet);
          }
          if |message| - moffset < suite.pkLen {
            return Err(Truncated);
          }
          re := Some(message[moffset..moffset + suite.pkLen]);
          symmetricState := Some(MixHash(symmetricState.value, re.value));
          if pskCount.Some? && pskCount.value > 0 {
            symmetricState := Some(MixKey(symmetricState.value, re.value));
          }
          r := Ok(moffset + suite.pkLen);
        case S =>
          if rs.Some? {
            return Err(RemoteStaticAlreadySet);
          }
          rs := Some(Zeros(suite.pkLen));
          var bytes := 0;
          if symmetricState.value.hasKey {
            bytes := suite.pkLen + TAGLEN;
          } else {
            bytes := suite.pkLen;
          }
          if |message| - moffset < bytes {
            return Err(Truncated);
          }
          var decrypted := DecryptAndHash(suite, symmetricState.value, message[moffset..moffset + bytes]);
          if decrypted.None? {
            return Err(AuthenticationFailed);
          }
          rs := Some(decrypted.value.0);
          symmetricState := Some(decrypted.value.1);
          r := Ok(moffset + bytes);
        case _ =>
          var mixed := MixToken(t);
          r := if mixed.Ok? then Ok(moffset) else Err(mixed.error);
      }
    }

    /** The token loop of readMessage: the offset after the bytes the tokens consume. */
    method ReadTokensInPlace(message: Bytes, offset: nat, tokens: seq<Token>) returns (r: Result<nat, Error>)
      requires symmetricState.Some? && role.Some? && offset <= |message|
      modifies this
      ensures Snapshot() == ReadTokens(suite, old(Snapshot()), message, offset, tokens).state
      ensures r == ReadTokens(suite, old(Snapshot()), message, offset, tokens).result
    {
      ghost var body := ReadTokens(suite, Snapshot(), message, offset, tokens);
      var moffset: nat := offset;
      var i := 0;
      assert tokens[i..] == tokens;
      while i < |tokens|
        invariant 0 <= i <= |tokens| && moffset <= |message|
        invariant symmetricState.Some? && role.Some?
        invariant ReadTokens(suite, Snapshot(), message, moffset, tokens[i..]) == body
      {
        assert tokens[i..] == [tokens[i]] + tokens[i + 1..];
        var next := ReadOneToken(message, moffset, tokens[i]);
        if next.Err? {
          return Err(next.error);
        }
        moffset := next.value;
        i := i + 1;
      }
      r := Ok(moffset);
    }

    /** `readMessage`: the payload it decrypts, and the cipher pair after the last message. */
    method ReadMessage(message: Bytes) returns (r: Result<ReadOut, Error>)
      requires Valid()
      modifies this
      ensures Valid()
      ensures Snapshot() == Read(suite, old(Snapshot()), message).state
      ensures r == Read(suite, old(Snapshot()), message).result
    {
      if messagePatterns.None? {
        return Err(Destroyed);
      }
      var queue := messagePatterns.value;
      if queue == [] {
        return Err(NoMessagePattern);
      }
      var mpat := queue[0];
      messagePatterns := Some(queue[1..]);
      if role == Some(mpat.role) {
        return Err(WrongRole);
      }
      r := ReadPattern(message, mpat.tokens);
    }

    /** readMessage after the pop and the role check: the token loop, the payload, the split. */
    method ReadPattern(message: Bytes, tokens: seq<Token>) returns (r: Result<ReadOut, Error>)
      requires symmetricState.Some? && role.Some? && messagePatterns.Some?
      modifies this
      ensures Snapshot() == ReadBody(suite, old(Snapshot()), message, tokens).state
      ensures r == ReadBody(suite, old(Snapshot()), message, tokens).result
    {
      var moffset := ReadTokensInPlace(message, 0, tokens);
      if moffset.Err? {
        return Err(moffset.error);
      }
      var decrypted := DecryptAndHash(suite, symmetricState.value, message[moffset.value..]);
      if decrypted.None? {
        return Err(AuthenticationFailed);
      }
      symmetricState := Some(decrypted.value.1);
      var payload := decrypted.value.0;
      var split := None;
      if messagePatterns.value == [] {
        split := Some(ReaderSplit(decrypted.value.1));
      }
      r := Ok(ReadOut(payload, |payload|, split));
    }

    /** One premessage of initialize: mixes the key each of its tokens names. */
    method MixPremessage(pattern: MessagePattern, ghost keyed: State) returns (r: Result<(), Error>)
      requires symmetricState.Some? && Snapshot() == keyed.(sym := symmetricState)
      modifies this
      ensures symmetricState.Some? && Snapshot() == keyed.(sym := symmetricState)
      ensures var spec := MixPremessageTokens(old(symmetricState.value), keyed.role == Some(pattern.role), keyed, pattern.tokens);
        if r.Ok? then spec == Ok(symmetricState.value) else spec == Err(r.error)
    {
      var patternRole := pattern.role;
      ghost var local := role == Some(patternRole);
      ghost var spec := MixPremessageTokens(symmetricState.value, local, keyed, pattern.tokens);
      var k := 0;
      assert pattern.tokens[k..] == pattern.tokens;
      while k < |pattern.tokens|
        invariant 0 <= k <= |pattern.tokens|
        invariant symmetricState.Some? && Snapshot() == keyed.(sym := symmetricState)
        invariant MixPremessageTokens(symmetricState.value, local, keyed, pattern.tokens[k..]) == spec
      {
        assert pattern.tokens[k..] == [pattern.tokens[k]] + pattern.tokens[k + 1..];
        var token := pattern.tokens[k];
        match token {
          case E =>
            var key := if role == Some(patternRole) then epk else re;
            if key.None? {
              return Err(MissingPremessageKey);
            }
            symmetricState := Some(MixHash(symmetricState.value, key.value));
          case S =>
            var key := if role == Some(patternRole) then spk else rs;
            if key.None? {
              return Err(MissingPremessageKey);
            }
            symmetricState := Some(MixHash(symmetricState.value, key.value));
          case _ =>
            return Err(InvalidPremessageToken);
        }
        k := k + 1;
      }
      r := Ok(());
    }

    /** The premessage loop of initialize, in declared order. */
    method MixPremessageList(premessages: seq<MessagePattern>, ghost keyed: State) returns (r: Result<(), Error>)
      requires symmetricState.Some? && Snapshot() == keyed.(sym := symmetricState)
      modifies this
      ensures symmetricState.Some? && Snapshot() == keyed.(sym := symmetricState)
      ensures var spec := MixPremessages(old(symmetricState.value), keyed, premessages);
        if r.Ok? then spec == Ok(symmetricState.value) else spec == Err(r.error)
    {
      ghost var spec := MixPremessages(symmetricState.value, keyed, premessages);
      var j := 0;
      assert premessages[j..] == premessages;
      while j < |premessages|
        invariant 0 <= j <= |premessages|
        invariant symmetricState.Some? && Snapshot() == keyed.(sym := symmetricState)
        invariant MixPremessages(symmetricState.value, keyed, premessages[j..]) == spec
      {
        assert premessages[j..] == [premessages[j]] + premessages[j + 1..];
        var mixedOne := MixPremessage(premessages[j], keyed);
        if mixedOne.Err? {
          return Err(mixedOne.error);
        }
        j := j + 1;
      }
      assert premessages[j..] == [];
      r := Ok(());
    }

    /** The modifier loop of initialize: rewrites the queue for each psk modifier and counts them. */
    method ApplyPskModifiers(modifiers: seq<string>) returns (r: Result<(), Error>)
      requires messagePatterns.Some?
      modifies this
      ensures messagePatterns.Some?
      ensures Snapshot() == old(Snapshot()).(queue := messagePatterns, pskCount := pskCount)
      ensures var spec := ApplyModifiers(old(messagePatterns.value), modifiers, old(pskCount));
        if r.Ok? then spec == Ok((messagePatterns.value, pskCount)) else spec == Err(r.error)
    {
      ghost var spec := ApplyModifiers(messagePatterns.value, modifiers, pskCount);
      ghost var before := Snapshot();
      var m := 0;
      assert modifiers[m..] == modifiers;
      while m < |modifiers|
        invariant 0 <= m <= |modifiers| && messagePatterns.Some?
        invariant Snapshot() == before.(queue := messagePatterns, pskCount := pskCount)
        invariant ApplyModifiers(messagePatterns.value, modifiers[m..], pskCount) == spec
      {
        assert modifiers[m..] == [modifiers[m]] + modifiers[m + 1..];
        r := ApplyPskModifier(modifiers[m], modifiers[m + 1..]);
        if r.Err? {
          return;
        }
        m := m + 1;
      }
      r := Ok(());
    }

    /** One modifier of the loop in initialize: the bound check, the edit, the count. */
    method ApplyPskModifier(modifier: string, ghost rest: seq<string>) returns (r: Result<(), Error>)
      requires messagePatterns.Some?
      modifies this
      ensures messagePatterns.Some?
      ensures Snapshot() == old(Snapshot()).(queue := messagePatterns, pskCount := pskCount)
      ensures var spec := ApplyModifiers(old(messagePatterns.value), [modifier] + rest, old(pskCount));
        if r.Ok? then spec == ApplyModifiers(messagePatterns.value, rest, pskCount) else spec == Err(r.error)
    {
      assert ([modifier] + rest)[1..] == rest;
      var psk := PskIndex(modifier);
      if psk.None? {
        return Err(UnsupportedModifier);
      }
      var q := messagePatterns.value;
      if |q| < psk.value / 2 {
        return Err(BadPskModifier);
      }
      if psk.value == 0 {
        if |q| == 0 {
          return Err(NoSuchMessagePattern);
        }
        messagePatterns := Some(q[0 := InsertPsk0(q[0])]);
      } else {
        if psk.value - 1 >= |q| {
          return Err(NoSuchMessagePattern);
        }
        messagePatterns := Some(q[psk.value - 1 := AppendPsk(q[psk.value - 1])]);
      }
      pskCount := Some(if pskCount.None? then 1 else pskCount.value + 1);
      r := Ok(());
    }

    /** The key copies of initialize: each slot is set only when its key is given. */
    method StoreKeys(s: Option<KeyPair>, e: Option<KeyPair>, rs: Option<Bytes>, re: Option<Bytes>)
      requires spk.None? && ssk.None? && epk.None? && esk.None? && this.rs.None? && this.re.None?
      modifies this
      ensures Snapshot() == old(Snapshot()).(spk := PublicOf(s), ssk := SecretOf(s), epk := PublicOf(e),
                                            esk := SecretOf(e), rs := rs, re := re)
    {
      if s.Some? {
        spk, ssk := Some(s.value.publicKey), Some(s.value.secretKey);
      }
      if e.Some? {
        epk, esk := Some(e.value.publicKey), Some(e.value.secretKey);
      }
      if rs.Some? {
        this.rs := rs;
      }
      if re.Some? {
        this.re := re;
      }
    }

    /** The second half of initialize: premessages, psk modifiers and the static keypair check. */
    method ApplyPattern(pat: HandshakePattern, modifiers: seq<string>, ghost keyed: State) returns (r: Result<(), Error>)
      requires keyed.sym.Some? && Snapshot() == keyed
      requires keyed.role.Some? && keyed.queue.None? && keyed.pskCount.None?
      modifies this
      ensures r.Err? ==> InitWithPattern(keyed, pat, modifiers) == Err(r.error)
      ensures r.Ok? ==> InitWithPattern(keyed, pat, modifiers) == Ok(Snapshot()) && Valid()
    {
      var mixed := MixPremessageList(pat.premessages, keyed);
      if mixed.Err? {
        return Err(mixed.error);
      }
      messagePatterns := Some(pat.messagePatterns);
      var modified := ApplyPskModifiers(modifiers);
      if modified.Err? {
        return Err(modified.error);
      }
      if InitiatorSendsStatic(messagePatterns.value) && (spk.None? || ssk.None?) {
        return Err(MissingStaticKeypair);
      }
      r := Ok(());
    }

    /** Releases the local static keypair, each half only when it is set. */
    method ReleaseStatic()
      modifies this
      ensures Snapshot() == old(Snapshot()).(spk := None, ssk := None)
    {
      if spk.Some? {
        spk := None;
      }
      if ssk.Some? {
        ssk := None;
      }
    }

    /** Releases the local ephemeral keypair, each half only when it is set. */
    method ReleaseEphemeral()
      modifies this
      ensures Snapshot() == old(Snapshot()).(epk := None, esk := None)
    {
      if epk.Some? {
        epk := None;
      }
      if esk.Some? {
        esk := None;
      }
    }

    /** Releases the remote public keys, each only when it is set. */
    method ReleaseRemote()
      modifies this
      ensures Snapshot() == old(Snapshot()).(rs := None, re := None)
    {
      if rs.Some? {
        rs := None;
      }
      if re.Some? {
        re := None;
      }
    }

    /** `destroy`: null-guarded release of every slot; the queue becomes null. */
    method Destroy()
      modifies this
      ensures old(Valid()) ==> Valid()
      ensures Snapshot() == HandshakeSpec.Destroy(old(Snapshot()))
    {
      if symmetricState.Some? {
        symmetricState := None;
      }
      role := None;
      ReleaseStatic();
      ReleaseEphemeral();
      ReleaseRemote();
      messagePatterns := None;
    }
  }

  /** The first half of initialize: a fresh state with the transcript started, the role set and the keys stored. */
  method NewKeyedState(suite: Suite, handshakePattern: string, initiator: bool, prologue: Bytes,
                       s: Option<KeyPair>, e: Option<KeyPair>, rs: Option<Bytes>, re: Option<Bytes>)
    returns (state: HandshakeState)
    ensures fresh(state) && state.suite == suite
    ensures state.Snapshot() == Keyed(suite, handshakePattern, initiator, prologue, s, e, rs, re)
  {
    state := new HandshakeState(suite);
    var protocolName := ProtocolName(suite, handshakePattern);
    state.symmetricState := Some(MixHash(InitializeSymmetric(protocolName), prologue));
    state.role := Some(if initiator then Initiator else Responder);
    state.StoreKeys(s, e, rs, re);
  }

  /**
   * `initialize`: parses the pattern name, stores the keys, mixes the protocol name, the
   * prologue and the premessage keys, applies the psk modifiers and checks that a pattern
   * in which the initiator sends S has a static keypair.
   */
  method Initialize(suite: Suite, handshakePattern: string, initiator: bool, prologue: Bytes,
                    s: Option<KeyPair>, e: Option<KeyPair>, rs: Option<Bytes>, re: Option<Bytes>)
    returns (r: Result<HandshakeState, Error>)
    ensures r.Err? ==> InitSpec(suite, handshakePattern, initiator, prologue, s, e, rs, re) == Err(r.error)
    ensures r.Ok? ==> fresh(r.value) && r.value.suite == suite && r.value.Valid()
    ensures r.Ok? ==> InitSpec(suite, handshakePattern, initiator, prologue, s, e, rs, re) == Ok(r.value.Snapshot())
  {
    var checked := CheckArguments(suite, handshakePattern, s, e, rs, re);
    if checked.Err? {
      return Err(checked.error);
    }
    var (patternModifier, pat) := checked.value;
    var state := NewKeyedState(suite, handshakePattern, initiator, prologue, s, e, rs, re);
    ghost var keyed := state.Snapshot();

    var applied := state.ApplyPattern(pat, patternModifier.modifiers, keyed);
    if applied.Err? {
      return Err(applied.error);
    }
    r := Ok(state);
  }
}
