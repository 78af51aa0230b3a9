/**
 * What `initialize`, `setPsks` and `destroy` promise about the states they leave, the
 * agreement of the two parties right after they initialize the same handshake, and a
 * complete NN handshake between two correctly keyed parties.
 */
module Properties {
  import opened Wrappers
  import opened Symmetric
  import opened Patterns
  import opened PatternName
  import opened HandshakeSpec
  import opened Modifiers
  import opened Agreement

  // ---------------------------------------------------------------------------------------
  // initialize

  /**
   * A state `initialize` returns: the given role and keys, no psks yet, the named pattern's
   * message queue (alternating from the initiator), a transcript that starts with the
   * protocol name and the prologue and holds no key yet, a psk count that is undefined
   * without modifiers and the number of modifiers otherwise, and a static keypair whenever
   * an initiator message sends S.
   */
  lemma InitSucceeds(suite: Suite, name: string, initiator: bool, prologue: Bytes,
                     s: Option<KeyPair>, e: Option<KeyPair>, rs: Option<Bytes>, re: Option<Bytes>)
    requires InitSpec(suite, name, initiator, prologue, s, e, rs, re).Ok?
    ensures GetPatternAndModifiers(name).Some? && GetPatternAndModifiers(name).value.pattern in PATTERNS
    ensures var st := InitSpec(suite, name, initiator, prologue, s, e, rs, re).value;
            st.role == Some(RoleOf(initiator)) && st.psks == [] &&
            st.spk == PublicOf(s) && st.ssk == SecretOf(s) && st.epk == PublicOf(e) && st.esk == SecretOf(e) &&
            st.rs == rs && st.re == re
    ensures var st := InitSpec(suite, name, initiator, prologue, s, e, rs, re).value;
            var pat := PATTERNS[GetPatternAndModifiers(name).value.pattern];
            st.queue.Some? && |st.queue.value| == |pat.messagePatterns| && Alternates(st.queue.value)
    ensures var st := InitSpec(suite, name, initiator, prologue, s, e, rs, re).value;
            st.sym.Some? && !st.sym.value.hasKey && |st.sym.value.log| >= 2 &&
            st.sym.value.log[..2] == [Initialized(ProtocolName(suite, name)), Hashed(prologue)]
    ensures var st := InitSpec(suite, name, initiator, prologue, s, e, rs, re).value;
            var mods := GetPatternAndModifiers(name).value.modifiers;
            st.pskCount == if mods == [] then None else Some(|mods|)
    ensures var st := InitSpec(suite, name, initiator, prologue, s, e, rs, re).value;
            InitiatorSendsStatic(st.queue.value) ==> st.spk.Some? && st.ssk.Some?
    ensures Valid(InitSpec(suite, name, initiator, prologue, s, e, rs, re).value)
  {
    var parsed := GetPatternAndModifiers(name).value;
    var pat := PATTERNS[parsed.pattern];
    var keyed := Keyed(suite, name, initiator, prologue, s, e, rs, re);
    var st := MixPremessages(keyed.sym.value, keyed, pat.premessages).value;
    var rewritten := ApplyModifiers(pat.messagePatterns, parsed.modifiers, None).value;
    PatternsAlternate();
    assert Alternates(pat.messagePatterns);
    assert st.log[..2] == st.log[..|keyed.sym.value.log|];
  }

  /**
   * Each message pattern of the queue `initialize` builds is the table's, with one PSK
   * token added for every modifier that targets it and nothing else changed.
   */
  lemma InitQueue(suite: Suite, name: string, initiator: bool, prologue: Bytes,
                  s: Option<KeyPair>, e: Option<KeyPair>, rs: Option<Bytes>, re: Option<Bytes>, i: nat)
    requires InitSpec(suite, name, initiator, prologue, s, e, rs, re).Ok?
    requires GetPatternAndModifiers(name).Some? && GetPatternAndModifiers(name).value.pattern in PATTERNS
    requires i < |PATTERNS[GetPatternAndModifiers(name).value.pattern].messagePatterns|
    ensures var st := InitSpec(suite, name, initiator, prologue, s, e, rs, re).value;
            var parsed := GetPatternAndModifiers(name).value;
            var mp := PATTERNS[parsed.pattern].messagePatterns[i];
            st.queue.Some? && i < |st.queue.value| &&
            st.queue.value[i].role == mp.role && Strip(st.queue.value[i].tokens) == mp.tokens &&
            CountPsk(st.queue.value[i].tokens) == TargetCount(parsed.modifiers, i)
  {
    var parsed := GetPatternAndModifiers(name).value;
    var pat := PATTERNS[parsed.pattern];
    PatternsNoPsk();
    assert PSK !in pat.messagePatterns[i].tokens;
    NoPskStrip(pat.messagePatterns[i].tokens);
    ModifiersOnlyAddPsks(pat.messagePatterns, parsed.modifiers, None, i);
  }

  /** A token sequence without PSK strips to itself and counts no PSK. */
  lemma {:induction false} NoPskStrip(toks: seq<Token>)
    requires PSK !in toks
    ensures Strip(toks) == toks && CountPsk(toks) == 0
  {
    if toks != [] {
      assert toks == [toks[0]] + toks[1..];
      NoPskStrip(toks[1..]);
    }
  }

  /**
   * The errors of `initialize`: a name that does not parse, a pattern not in the table, a
   * key of the wrong length, in that order of checking; a premessage token other than E or
   * S never occurs, since every premessage of the table is made of E and S.
   */
  lemma InitFailures(suite: Suite, name: string, initiator: bool, prologue: Bytes,
                     s: Option<KeyPair>, e: Option<KeyPair>, rs: Option<Bytes>, re: Option<Bytes>)
    ensures var r := InitSpec(suite, name, initiator, prologue, s, e, rs, re);
            r == Err(MalformedName) <==> GetPatternAndModifiers(name).None?
    ensures var r := InitSpec(suite, name, initiator, prologue, s, e, rs, re);
            r == Err(UnsupportedPattern) <==>
              GetPatternAndModifiers(name).Some? && GetPatternAndModifiers(name).value.pattern !in PATTERNS
    ensures var r := InitSpec(suite, name, initiator, prologue, s, e, rs, re);
            r == Err(BadKeyLength) <==>
              GetPatternAndModifiers(name).Some? && GetPatternAndModifiers(name).value.pattern in PATTERNS &&
              !(FitsPair(suite, s) && FitsPair(suite, e) && FitsPublic(suite, rs) && FitsPublic(suite, re))
    ensures InitSpec(suite, name, initiator, prologue, s, e, rs, re) != Err(InvalidPremessageToken)
  {
    var check := CheckArguments(suite, name, s, e, rs, re);
    if check.Ok? {
      var (parsed, pat) := check.value;
      PatternsPremessageTokens();
      assert PremessageTokensOnly(pat.premessages);
    }
  }

  /**
   * The static keypair check looks only at the initiator's message patterns, whichever
   * role the state has: a responder of XN, which never sends S, is refused without a static
   * keypair, and a responder of NX, which does send S, is accepted without one.
   */
  lemma StaticCheckIgnoresRole(keyed: State)
    requires keyed.sym.Some? && keyed.spk.None?
    ensures InitWithPattern(keyed, PATTERNS["XN"], []) == Err(MissingStaticKeypair)
    ensures InitWithPattern(keyed, PATTERNS["NX"], []).Ok?
  {
    var xn := PATTERNS["XN"].messagePatterns;
    assert xn[2].role == Initiator && S in xn[2].tokens;
    var nx := PATTERNS["NX"].messagePatterns;
    assert !InitiatorSendsStatic(nx) by {
      forall i | 0 <= i < |nx| && nx[i].role == Initiator
        ensures S !in nx[i].tokens
      {
        assert i == 0;
      }
    }
  }

  // ---------------------------------------------------------------------------------------
  // setPsks

  /**
   * After `initialize`, `setPsks` accepts exactly as many psks as the name has modifiers,
   * and nothing at all when it has none (the count stays undefined).
   */
  lemma SetPsksAfterInit(suite: Suite, name: string, initiator: bool, prologue: Bytes,
                         s: Option<KeyPair>, e: Option<KeyPair>, rs: Option<Bytes>, re: Option<Bytes>,
                         psks: seq<Bytes>)
    requires InitSpec(suite, name, initiator, prologue, s, e, rs, re).Ok?
    ensures GetPatternAndModifiers(name).Some?
    ensures var st := InitSpec(suite, name, initiator, prologue, s, e, rs, re).value;
            var mods := GetPatternAndModifiers(name).value.modifiers;
            SetPsks(st, psks).result.Ok? <==> mods != [] && |psks| == |mods|
  {
    InitSucceeds(suite, name, initiator, prologue, s, e, rs, re);
  }

  /** A reachable state never accepts an empty list of psks. */
  lemma SetPsksNeverEmpty(st: State)
    requires Valid(st)
    ensures SetPsks(st, []).result == Err(PskCountMismatch)
    ensures SetPsks(st, []).state == st
  {
  }

  // ---------------------------------------------------------------------------------------
  // destroy

  /**
   * `destroy` keeps a state reachable, a second call changes nothing, and it leaves the
   * psks and the psk count as they were.
   */
  lemma DestroyFacts(st: State)
    requires Valid(st)
    ensures Valid(Destroy(st))
    ensures Destroy(Destroy(st)) == Destroy(st)
    ensures Destroy(st).psks == st.psks && Destroy(st).pskCount == st.pskCount
    ensures Destroy(st).queue.None? && Destroy(st).sym.None? && Destroy(st).role.None?
  {
  }

  /** Once destroyed, a state refuses to write or read and stays as it is. */
  lemma NoMessagesAfterDestroy(suite: Suite, st: State, payload: Bytes, eph: KeyPair, message: Bytes)
    requires st.pskCount != Some(0) && FitsPair(suite, Some(eph))
    ensures Write(suite, Destroy(st), payload, eph) == Step(Destroy(st), Err(Destroyed))
    ensures Read(suite, Destroy(st), message) == Step(Destroy(st), Err(Destroyed))
  {
  }

  /** After the message that splits, neither side has a message left to write or read. */
  lemma NoMessagesAfterSplit(suite: Suite, st: State, payload: Bytes, eph: KeyPair, payload2: Bytes, message: Bytes)
    requires Valid(st) && FitsPair(suite, Some(eph)) && Write(suite, st, payload, eph).result.Ok?
    requires Write(suite, st, payload, eph).result.value.split.Some?
    ensures var next := Write(suite, st, payload, eph).state;
            Write(suite, next, payload2, eph).result == Err(NoMessagePattern) &&
            Read(suite, next, message).result == Err(NoMessagePattern)
  {
  }

  // ---------------------------------------------------------------------------------------
  // both parties after initialize

  /** A supplied keypair, if any, whose public key is derived from its secret key. */
  predicate Owned(suite: Suite, kp: Option<KeyPair>)
  {
    kp.None? || kp.value.publicKey == suite.pub(kp.value.secretKey)
  }

  /**
   * The arguments two parties give `initialize` for one handshake: each one's remote
   * ephemeral key is the other's ephemeral public key (or both absent), and a remote static
   * key, when given, is the other's static public key.
   */
  predicate Corresponding(suite: Suite, sI: Option<KeyPair>, eI: Option<KeyPair>, rsI: Option<Bytes>, reI: Option<Bytes>,
                          sR: Option<KeyPair>, eR: Option<KeyPair>, rsR: Option<Bytes>, reR: Option<Bytes>)
  {
    && Owned(suite, sI) && Owned(suite, eI) && Owned(suite, sR) && Owned(suite, eR)
    && reI == PublicOf(eR) && reR == PublicOf(eI)
    && (rsI.Some? ==> rsI == PublicOf(sR)) && (rsR.Some? ==> rsR == PublicOf(sI))
  }

  /** The two states right after the keys are stored mirror each other. */
  lemma KeyedMirrored(suite: Suite, name: string, prologue: Bytes,
                      sI: Option<KeyPair>, eI: Option<KeyPair>, rsI: Option<Bytes>, reI: Option<Bytes>,
                      sR: Option<KeyPair>, eR: Option<KeyPair>, rsR: Option<Bytes>, reR: Option<Bytes>)
    requires Corresponding(suite, sI, eI, rsI, reI, sR, eR, rsR, reR)
    ensures Mirrored(suite, Keyed(suite, name, true, prologue, sI, eI, rsI, reI),
                            Keyed(suite, name, false, prologue, sR, eR, rsR, reR))
  {
  }

  /** When both parties find a key for a premessage token, it is the same key. */
  lemma PremessageKeysAgree(suite: Suite, a: State, b: State, local: bool, t: Token)
    requires Mirrored(suite, a, b)
    requires PremessageKey(a, local, t).Some? && PremessageKey(b, !local, t).Some?
    ensures PremessageKey(a, local, t) == PremessageKey(b, !local, t)
  {
  }

  /** Mixing one premessage on both sides, one owning it and the other not, gives the same transcript. */
  lemma {:induction false} PremessageTokensAgree(suite: Suite, st: SymState, a: State, b: State, local: bool, toks: seq<Token>)
    requires Mirrored(suite, a, b)
    requires MixPremessageTokens(st, local, a, toks).Ok? && MixPremessageTokens(st, !local, b, toks).Ok?
    ensures MixPremessageTokens(st, local, a, toks) == MixPremessageTokens(st, !local, b, toks)
    decreases |toks|
  {
    if toks != [] {
      PremessageKeysAgree(suite, a, b, local, toks[0]);
      var key := PremessageKey(a, local, toks[0]).value;
      PremessageTokensAgree(suite, MixHash(st, key), a, b, local, toks[1..]);
    }
  }

  /** Mixing all premessages on both sides of a handshake gives the same transcript. */
  lemma {:induction false} PremessagesAgree(suite: Suite, st: SymState, a: State, b: State, pms: seq<MessagePattern>)
    requires Mirrored(suite, a, b)
    requires MixPremessages(st, a, pms).Ok? && MixPremessages(st, b, pms).Ok?
    ensures MixPremessages(st, a, pms) == MixPremessages(st, b, pms)
    decreases |pms|
  {
    if pms != [] {
      var owner := pms[0].role;
      var local := a.role == Some(owner);
      if local {
        assert b.role != Some(owner);
      } else {
        match owner
        case Initiator => assert a.role.value.Responder? && b.role.value.Initiator?;
        case Responder => assert a.role.value.Initiator? && b.role.value.Responder?;
      }
      PremessageTokensAgree(suite, st, a, b, local, pms[0].tokens);
      var st1 := MixPremessageTokens(st, local, a, pms[0].tokens).value;
      PremessagesAgree(suite, st1, a, b, pms[1..]);
    }
  }

  /**
   * Two parties that initialize the same handshake name and prologue, one as initiator and
   * one as responder, with corresponding keys, start in step: same transcript, same queue,
   * same psk count, each remote key the other's own.
   */
  lemma InitAgreement(suite: Suite, name: string, prologue: Bytes,
                      sI: Option<KeyPair>, eI: Option<KeyPair>, rsI: Option<Bytes>, reI: Option<Bytes>,
                      sR: Option<KeyPair>, eR: Option<KeyPair>, rsR: Option<Bytes>, reR: Option<Bytes>)
    requires Corresponding(suite, sI, eI, rsI, reI, sR, eR, rsR, reR)
    requires InitSpec(suite, name, true, prologue, sI, eI, rsI, reI).Ok?
    requires InitSpec(suite, name, false, prologue, sR, eR, rsR, reR).Ok?
    ensures Synced(suite, InitSpec(suite, name, true, prologue, sI, eI, rsI, reI).value,
                          InitSpec(suite, name, false, prologue, sR, eR, rsR, reR).value)
  {
    var a := Keyed(suite, name, true, prologue, sI, eI, rsI, reI);
    var b := Keyed(suite, name, false, prologue, sR, eR, rsR, reR);
    KeyedMirrored(suite, name, prologue, sI, eI, rsI, reI, sR, eR, rsR, reR);
    var pat := PATTERNS[GetPatternAndModifiers(name).value.pattern];
    PremessagesAgree(suite, a.sym.value, a, b, pat.premessages);
    InitSucceeds(suite, name, true, prologue, sI, eI, rsI, reI);
    InitSucceeds(suite, name, false, prologue, sR, eR, rsR, reR);
  }

  // ---------------------------------------------------------------------------------------
  // a complete NN handshake

  /** The two messages of NN: the initiator sends `e`, the responder answers `e, ee`. */
  const NN_MESSAGES := [MessagePattern(Initiator, [E]), MessagePattern(Responder, [E, EE])]

  /** `initialize` for NN without keys succeeds and queues NN's two messages. */
  lemma NNInit(suite: Suite, initiator: bool, prologue: Bytes)
    ensures var st := InitSpec(suite, "NN", initiator, prologue, None, None, None, None);
            && st.Ok? && Valid(st.value)
            && st.value.queue == Some(NN_MESSAGES) && st.value.role == Some(RoleOf(initiator))
            && st.value.epk.None? && st.value.esk.None? && st.value.rs.None? && st.value.re.None?
  {
    var name := "NN";
    assert IsUpper(name[0]) && IsUpper(name[1]);
    assert UpperRun(name) == 2;
    assert name[..2] == name;
    assert GetPatternAndModifiers(name).Some?;
    assert GetPatternAndModifiers(name) == Some(ParsedName("NN", []));
    assert PATTERNS["NN"].messagePatterns == NN_MESSAGES;
    assert !InitiatorSendsStatic(NN_MESSAGES) by {
      forall i | 0 <= i < |NN_MESSAGES| ensures !(NN_MESSAGES[i].role == Initiator && S in NN_MESSAGES[i].tokens) {
        assert i == 0 || i == 1;
      }
    }
    InitSucceeds(suite, name, initiator, prologue, None, None, None, None);
  }

  /** NN has neither an S token nor a static DH, so a reader has no reason above to refuse it. */
  lemma NNNeverRefused(r: State)
    ensures forall e :: !ReaderMayRefuse(r, NN_MESSAGES[0].tokens, e) && !ReaderMayRefuse(r, NN_MESSAGES[1].tokens, e)
  {
    assert NN_MESSAGES[0].tokens == [E] && NN_MESSAGES[1].tokens == [E, EE];
  }

  /**
   * An initiator whose first message pattern is `e`, with more to follow, can write it:
   * the message sets its ephemeral key and does not end the handshake.
   */
  lemma InitiatorOpensWithE(suite: Suite, i0: State, payload: Bytes, eI: KeyPair)
    requires Valid(i0) && FitsPair(suite, Some(eI))
    requires i0.queue.Some? && |i0.queue.value| >= 2 && i0.queue.value[0] == MessagePattern(Initiator, [E])
    requires i0.role == Some(Initiator) && i0.epk.None? && i0.esk.None?
    ensures var w := Write(suite, i0, payload, eI);
            w.result.Ok? && w.result.value.split.None? && w.state.epk == Some(eI.publicKey)
  {
    var popped := i0.(queue := Some(i0.queue.value[1..]));
    WriteTokensCons(suite, popped, [E], eI);
    assert [E][1..] == [];
  }

  /**
   * The initiator's opening `e`: the responder reads it, recovers the payload, keeps its
   * remote static key as it was, and the two stay synced.
   */
  lemma OpeningMessage(suite: Suite, i0: State, r0: State, payload: Bytes, eI: KeyPair)
    requires DhCommutes(suite) && WellFormedKeyPair(suite, eI) && Synced(suite, i0, r0)
    requires |i0.queue.value| >= 2 && i0.queue.value[0] == MessagePattern(Initiator, [E])
    requires i0.role == Some(Initiator) && i0.epk.None? && i0.esk.None?
    ensures var w := Write(suite, i0, payload, eI);
            && w.result.Ok? && w.result.value.split.None? && w.state.epk == Some(eI.publicKey)
            && var rd := Read(suite, r0, w.result.value.message);
            && rd.result.Ok? && rd.result.value.payload == payload && rd.result.value.split.None?
            && Synced(suite, rd.state, w.state) && rd.state.rs == r0.rs
  {
    InitiatorOpensWithE(suite, i0, payload, eI);
    var w := Write(suite, i0, payload, eI);
    WriteThenRead(suite, i0, r0, payload, eI);
    var rd := Read(suite, r0, w.result.value.message);
    assert forall e :: !Refusable(r0.rs.Some?, r0.role.value, [E], e);
    SyncedSymmetric(suite, w.state, rd.state);
  }

  /** The responder, holding the initiator's ephemeral key, can write `e, ee`, the last message. */
  lemma NNResponderWrites(suite: Suite, r1: State, payload: Bytes, eR: KeyPair)
    requires Valid(r1) && FitsPair(suite, Some(eR))
    requires r1.queue == Some(NN_MESSAGES[1..]) && r1.role == Some(Responder)
    requires r1.epk.None? && r1.esk.None? && r1.re.Some?
    ensures Write(suite, r1, payload, eR).result.Ok?
    ensures Write(suite, r1, payload, eR).result.value.split.Some?
  {
    assert NN_MESSAGES[1..] == [MessagePattern(Responder, [E, EE])];
    var popped := r1.(queue := Some([]));
    WriteTokensCons(suite, popped, [E, EE], eR);
    var first := WriteToken(suite, popped, E, eR);
    assert first.result.Ok?;
    WriteTokensCons(suite, first.state, [EE], eR);
    assert [E, EE][1..] == [EE] && [EE][1..] == [];
    assert WriteToken(suite, first.state, EE, eR).result.Ok?;
    assert Popped(r1.queue.value) == [];
  }

  /** The responder's `e, ee`: the initiator reads it, recovers the payload, and both split. */
  lemma NNSecondMessage(suite: Suite, r1: State, i1: State, payload: Bytes, eR: KeyPair)
    requires DhCommutes(suite) && WellFormedKeyPair(suite, eR) && Synced(suite, r1, i1)
    requires r1.queue == Some(NN_MESSAGES[1..]) && r1.role == Some(Responder)
    requires r1.epk.None? && r1.esk.None? && r1.re.Some?
    ensures var w := Write(suite, r1, payload, eR);
            && w.result.Ok? && w.result.value.split.Some?
            && var rd := Read(suite, i1, w.result.value.message);
            && rd.result.Ok? && rd.result.value.payload == payload && rd.result.value.split.Some?
            && w.result.value.split.value.tx == rd.result.value.split.value.rx
            && w.result.value.split.value.rx == rd.result.value.split.value.tx
  {
    NNResponderWrites(suite, r1, payload, eR);
    var w := Write(suite, r1, payload, eR);
    var rd := Read(suite, i1, w.result.value.message);
    WriteThenRead(suite, r1, i1, payload, eR);
    assert r1.queue.value[0].tokens == [E, EE];
    NNNeverRefused(i1);
    assert rd.result.Ok?;
  }

  /**
   * Two parties that initialize NN without keys and each use a well-formed ephemeral
   * keypair complete the handshake: each reads the other's message and recovers its
   * payload, and after the second message each side's sending cipher state is the other's
   * receiving one.
   */
  lemma NNCompletes(suite: Suite, prologue: Bytes, eI: KeyPair, eR: KeyPair, payload1: Bytes, payload2: Bytes)
    requires DhCommutes(suite) && WellFormedKeyPair(suite, eI) && WellFormedKeyPair(suite, eR)
    ensures var init := InitSpec(suite, "NN", true, prologue, None, None, None, None);
            var resp := InitSpec(suite, "NN", false, prologue, None, None, None, None);
            && init.Ok? && resp.Ok? && Valid(init.value) && Valid(resp.value)
            && var w1 := Write(suite, init.value, payload1, eI);
            && w1.result.Ok? && w1.result.value.split.None?
            && var rd1 := Read(suite, resp.value, w1.result.value.message);
            && rd1.result.Ok? && rd1.result.value.payload == payload1 && rd1.result.value.split.None?
            && var w2 := Write(suite, rd1.state, payload2, eR);
            && w2.result.Ok? && w2.result.value.split.Some?
            && var rd2 := Read(suite, w1.state, w2.result.value.message);
            && rd2.result.Ok? && rd2.result.value.payload == payload2 && rd2.result.value.split.Some?
            && w2.result.value.split.value.tx == rd2.result.value.split.value.rx
            && w2.result.value.split.value.rx == rd2.result.value.split.value.tx
  {
    NNInit(suite, true, prologue);
    NNInit(suite, false, prologue);
    var i0 := InitSpec(suite, "NN", true, prologue, None, None, None, None).value;
    var r0 := InitSpec(suite, "NN", false, prologue, None, None, None, None).value;
    InitAgreement(suite, "NN", prologue, None, None, None, None, None, None, None, None);
    OpeningMessage(suite, i0, r0, payload1, eI);
    var w1 := Write(suite, i0, payload1, eI);
    var rd1 := Read(suite, r0, w1.result.value.message);
    assert rd1.state.queue == Some(NN_MESSAGES[1..]);
    NNSecondMessage(suite, rd1.state, w1.state, payload2, eR);
  }

  // ---------------------------------------------------------------------------------------
  // a complete XX handshake

  /**
   * The three messages of XX: the initiator sends `e`; the responder answers `e, ee, s, es`;
   * the initiator ends with `s, se`.
   */
  const XX_MESSAGES := [MessagePattern(Initiator, [E]), MessagePattern(Responder, [E, EE, S, ES]),
                        MessagePattern(Initiator, [S, SE])]

  /** `initialize` for XX with a static keypair only succeeds and queues XX's three messages. */
  lemma XXInit(suite: Suite, initiator: bool, prologue: Bytes, st: KeyPair)
    requires FitsPair(suite, Some(st))
    ensures var r := InitSpec(suite, "XX", initiator, prologue, Some(st), None, None, None);
            && r.Ok? && Valid(r.value)
            && r.value.queue == Some(XX_MESSAGES) && r.value.role == Some(RoleOf(initiator))
            && r.value.spk == Some(st.publicKey) && r.value.ssk == Some(st.secretKey)
            && r.value.epk.None? && r.value.esk.None? && r.value.rs.None? && r.value.re.None?
  {
    var name := "XX";
    assert IsUpper(name[0]) && IsUpper(name[1]);
    assert UpperRun(name) == 2;
    assert name[..2] == name;
    assert GetPatternAndModifiers(name).Some?;
    assert GetPatternAndModifiers(name) == Some(ParsedName("XX", []));
    assert PATTERNS["XX"].messagePatterns == XX_MESSAGES;
    InitSucceeds(suite, name, initiator, prologue, Some(st), None, None, None);
  }

  /**
   * Neither reply of XX is refused by a reader that starts without a remote static key:
   * the `s` comes before the DH that needs it.
   */
  lemma XXNeverRefused(hasRs: bool)
    requires !hasRs
    ensures forall e :: !Refusable(hasRs, Initiator, XX_MESSAGES[1].tokens, e)
    ensures forall e :: !Refusable(hasRs, Responder, XX_MESSAGES[2].tokens, e)
  {
    var m2, m3 := XX_MESSAGES[1].tokens, XX_MESSAGES[2].tokens;
    assert m2 == [E, EE, S, ES] && m3 == [S, SE];
    assert m2[1..] == [EE, S, ES] && m2[1..][1..] == [S, ES] && m2[1..][1..][1..] == [ES];
    assert m3[1..] == [SE] && [SE][1..] == [] && [ES][1..] == [];
    forall e ensures !Refusable(false, Initiator, m2, e) && !Refusable(false, Responder, m3, e) {
      assert !Refusable(true, Initiator, [ES], e);
      assert !Refusable(false, Initiator, [S, ES], e);
      assert !Refusable(true, Responder, [SE], e);
    }
  }

  /** The responder, holding its static keypair and the initiator's `e`, can write `e, ee, s, es`. */
  lemma XXResponderWrites(suite: Suite, r1: State, payload: Bytes, eR: KeyPair)
    requires Valid(r1) && FitsPair(suite, Some(eR))
    requires r1.queue == Some(XX_MESSAGES[1..]) && r1.role == Some(Responder)
    requires r1.epk.None? && r1.esk.None? && r1.re.Some?
    requires r1.spk.Some? && |r1.spk.value| == suite.pkLen && r1.ssk.Some?
    ensures var w := Write(suite, r1, payload, eR);
            w.result.Ok? && w.result.value.split.None? && w.state.epk == Some(eR.publicKey)
  {
    var toks := [E, EE, S, ES];
    assert XX_MESSAGES[1..][0].tokens == toks;
    var popped := r1.(queue := Some(XX_MESSAGES[2..]));
    var f1 := WriteToken(suite, popped, E, eR);
    var f2 := WriteToken(suite, f1.state, EE, eR);
    var f3 := WriteToken(suite, f2.state, S, eR);
    var f4 := WriteToken(suite, f3.state, ES, eR);
    assert f1.result.Ok? && f2.result.Ok? && f3.result.Ok? && f4.result.Ok?;
    assert toks[1..] == [EE, S, ES] && toks[1..][1..] == [S, ES] && toks[1..][1..][1..] == [ES] && [ES][1..] == [];
    WriteTokensCons(suite, f3.state, [ES], eR);
    WriteTokensCons(suite, f2.state, [S, ES], eR);
    WriteTokensCons(suite, f1.state, [EE, S, ES], eR);
    WriteTokensCons(suite, popped, toks, eR);
    assert WriteTokens(suite, popped, toks, eR).state.epk == Some(eR.publicKey);
  }

  /**
   * The responder's `e, ee, s, es`: the initiator reads it, learns the responder's static
   * public key, recovers the payload, and the two stay synced.
   */
  lemma XXSecondMessage(suite: Suite, r1: State, i1: State, payload: Bytes, eR: KeyPair)
    requires DhCommutes(suite) && WellFormedKeyPair(suite, eR) && Synced(suite, r1, i1)
    requires r1.queue == Some(XX_MESSAGES[1..]) && r1.role == Some(Responder)
    requires r1.epk.None? && r1.esk.None? && r1.re.Some?
    requires r1.spk.Some? && |r1.spk.value| == suite.pkLen && r1.ssk.Some? && i1.rs.None?
    ensures var w := Write(suite, r1, payload, eR);
            && w.result.Ok? && w.result.value.split.None? && w.state.rs == r1.rs
            && w.state.epk == Some(eR.publicKey)
            && var rd := Read(suite, i1, w.result.value.message);
            && rd.result.Ok? && rd.result.value.payload == payload && rd.result.value.split.None?
            && rd.state.rs == r1.spk && Synced(suite, rd.state, w.state)
            && rd.state.queue == Some(XX_MESSAGES[2..]) && rd.state.role == Some(Initiator)
            && rd.state.re == Some(eR.publicKey) && rd.state.spk == i1.spk && rd.state.ssk == i1.ssk
  {
    assert i1.role.value != Responder;
    assert r1.queue.value[0].tokens == XX_MESSAGES[1].tokens;
    XXNeverRefused(i1.rs.Some?);
    assert forall e :: !ReaderMayRefuse(i1, r1.queue.value[0].tokens, e);
    XXResponderWrites(suite, r1, payload, eR);
    var w := Write(suite, r1, payload, eR);
    WriteThenRead(suite, r1, i1, payload, eR);
    var rd := Read(suite, i1, w.result.value.message);
    assert rd.result.Ok?;
    assert S in XX_MESSAGES[1].tokens;
    SyncedSymmetric(suite, w.state, rd.state);
  }

  /** The initiator, holding its static keypair and the responder's `e`, can write `s, se`, the last message. */
  lemma XXInitiatorWrites(suite: Suite, i2: State, payload: Bytes, eph: KeyPair)
    requires Valid(i2) && FitsPair(suite, Some(eph))
    requires i2.queue == Some(XX_MESSAGES[2..]) && i2.role == Some(Initiator) && i2.re.Some?
    requires i2.spk.Some? && |i2.spk.value| == suite.pkLen && i2.ssk.Some?
    ensures Write(suite, i2, payload, eph).result.Ok?
    ensures Write(suite, i2, payload, eph).result.value.split.Some?
  {
    var toks := [S, SE];
    assert XX_MESSAGES[2..] == [MessagePattern(Initiator, toks)];
    var popped := i2.(queue := Some([]));
    var f1 := WriteToken(suite, popped, S, eph);
    assert f1.result.Ok? && WriteToken(suite, f1.state, SE, eph).result.Ok?;
    assert toks[1..] == [SE] && [SE][1..] == [];
    WriteTokensCons(suite, f1.state, [SE], eph);
    WriteTokensCons(suite, popped, toks, eph);
    assert Popped(i2.queue.value) == [];
  }

  /**
   * The initiator's `s, se`: the responder reads it, learns the initiator's static public
   * key, recovers the payload, and both split with each sending key the other's receiving key.
   */
  lemma XXThirdMessage(suite: Suite, i2: State, r2: State, payload: Bytes, eph: KeyPair)
    requires DhCommutes(suite) && WellFormedKeyPair(suite, eph) && Synced(suite, i2, r2)
    requires i2.queue == Some(XX_MESSAGES[2..]) && i2.role == Some(Initiator) && i2.re.Some?
    requires i2.spk.Some? && |i2.spk.value| == suite.pkLen && i2.ssk.Some? && r2.rs.None?
    ensures var w := Write(suite, i2, payload, eph);
            && w.result.Ok? && w.result.value.split.Some?
            && var rd := Read(suite, r2, w.result.value.message);
            && rd.result.Ok? && rd.result.value.payload == payload && rd.result.value.split.Some?
            && rd.state.rs == i2.spk
            && w.result.value.split.value.tx == rd.result.value.split.value.rx
            && w.result.value.split.value.rx == rd.result.value.split.value.tx
  {
    assert r2.role.value != Initiator;
    assert i2.queue.value[0].tokens == XX_MESSAGES[2].tokens;
    XXNeverRefused(r2.rs.Some?);
    assert forall e :: !ReaderMayRefuse(r2, i2.queue.value[0].tokens, e);
    XXInitiatorWrites(suite, i2, payload, eph);
    var w := Write(suite, i2, payload, eph);
    WriteThenRead(suite, i2, r2, payload, eph);
    var rd := Read(suite, r2, w.result.value.message);
    assert rd.result.Ok?;
    assert S in XX_MESSAGES[2].tokens;
  }

  /**
   * XX's opening `e` between freshly initialized parties: the read succeeds and recovers
   * the payload, and the two end synced, ready for the responder's `e, ee, s, es`.
   */
  lemma XXOpening(suite: Suite, prologue: Bytes, sI: KeyPair, sR: KeyPair, eI: KeyPair, payload1: Bytes)
    requires DhCommutes(suite) && WellFormedKeyPair(suite, sI) && WellFormedKeyPair(suite, sR)
    requires WellFormedKeyPair(suite, eI)
    ensures var init := InitSpec(suite, "XX", true, prologue, Some(sI), None, None, None);
            var resp := InitSpec(suite, "XX", false, prologue, Some(sR), None, None, None);
            && init.Ok? && resp.Ok? && Valid(init.value) && Valid(resp.value)
            && var w1 := Write(suite, init.value, payload1, eI);
            && w1.result.Ok? && w1.result.value.split.None?
            && var rd1 := Read(suite, resp.value, w1.result.value.message);
            && rd1.result.Ok? && rd1.result.value.payload == payload1 && rd1.result.value.split.None?
            && Synced(suite, rd1.state, w1.state) && rd1.state.queue == Some(XX_MESSAGES[1..])
            && rd1.state.role == Some(Responder) && rd1.state.epk.None? && rd1.state.esk.None?
            && rd1.state.re.Some? && rd1.state.rs.None? && w1.state.rs.None?
            && rd1.state.spk == Some(sR.publicKey) && rd1.state.ssk == Some(sR.secretKey)
            && w1.state.spk == Some(sI.publicKey) && w1.state.ssk == Some(sI.secretKey)
  {
    XXInit(suite, true, prologue, sI);
    XXInit(suite, false, prologue, sR);
    var i0 := InitSpec(suite, "XX", true, prologue, Some(sI), None, None, None).value;
    var r0 := InitSpec(suite, "XX", false, prologue, Some(sR), None, None, None).value;
    InitAgreement(suite, "XX", prologue, Some(sI), None, None, None, Some(sR), None, None, None);
    OpeningMessage(suite, i0, r0, payload1, eI);
    var w1 := Write(suite, i0, payload1, eI);
    var rd1 := Read(suite, r0, w1.result.value.message);
    assert rd1.state.queue == Some(XX_MESSAGES[1..]);
  }

  /**
   * Two parties that initialize XX, each with a well-formed static keypair and nothing
   * else, and that use well-formed ephemeral keypairs, complete the handshake: every read
   * succeeds and recovers its payload, each party ends up holding the other's static public
   * key, and after the third message each side's sending cipher state is the other's
   * receiving one.  The last message has no `e`, so the keypair given to it is not used.
   */
  lemma XXCompletes(suite: Suite, prologue: Bytes, sI: KeyPair, sR: KeyPair, eI: KeyPair, eR: KeyPair,
                    payload1: Bytes, payload2: Bytes, payload3: Bytes)
    requires DhCommutes(suite) && WellFormedKeyPair(suite, sI) && WellFormedKeyPair(suite, sR)
    requires WellFormedKeyPair(suite, eI) && WellFormedKeyPair(suite, eR)
    ensures var init := InitSpec(suite, "XX", true, prologue, Some(sI), None, None, None);
            var resp := InitSpec(suite, "XX", false, prologue, Some(sR), None, None, None);
            && init.Ok? && resp.Ok? && Valid(init.value) && Valid(resp.value)
            && var w1 := Write(suite, init.value, payload1, eI);
            && w1.result.Ok? && w1.result.value.split.None?
            && var rd1 := Read(suite, resp.value, w1.result.value.message);
            && rd1.result.Ok? && rd1.result.value.payload == payload1 && rd1.result.value.split.None?
            && var w2 := Write(suite, rd1.state, payload2, eR);
            && w2.result.Ok? && w2.result.value.split.None?
            && var rd2 := Read(suite, w1.state, w2.result.value.message);
            && rd2.result.Ok? && rd2.result.value.payload == payload2 && rd2.result.value.split.None?
            && rd2.state.rs == Some(sR.publicKey)
            && var w3 := Write(suite, rd2.state, payload3, eI);
            && w3.result.Ok? && w3.result.value.split.Some?
            && var rd3 := Read(suite, w2.state, w3.result.value.message);
            && rd3.result.Ok? && rd3.result.value.payload == payload3 && rd3.result.value.split.Some?
            && rd3.state.rs == Some(sI.publicKey)
            && w3.result.value.split.value.tx == rd3.result.value.split.value.rx
            && w3.result.value.split.value.rx == rd3.result.value.split.value.tx
  {
    XXOpening(suite, prologue, sI, sR, eI, payload1);
    var i0 := InitSpec(suite, "XX", true, prologue, Some(sI), None, None, None).value;
    var r0 := InitSpec(suite, "XX", false, prologue, Some(sR), None, None, None).value;
    var w1 := Write(suite, i0, payload1, eI);
    var rd1 := Read(suite, r0, w1.result.value.message);
    var w2 := Write(suite, rd1.state, payload2, eR);
    XXSecondMessage(suite, rd1.state, w1.state, payload2, eR);
    var rd2 := Read(suite, w1.state, w2.result.value.message);
    XXThirdMessage(suite, rd2.state, w2.state, payload3, eI);
  }
}
