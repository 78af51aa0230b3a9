/**
 * The handshake state machine as functions on values.  `State` is the value of a
 * HandshakeState object (None standing for `null`); each operation yields a `Step`: the
 * state afterwards and either a result or the error thrown.  Because the source edits the
 * object in place before it throws, a failed step still carries the partly updated state.
 * The class in HandshakeObject is proved to compute exactly these functions.
 */
module HandshakeSpec {
  import opened Wrappers
  import opened Symmetric
  import opened Patterns
  import opened PatternName

  /** The failures the source raises (failed asserts, TypeErrors on `null`, collaborator failures). */
  datatype Error =
    | MalformedName              // the name regular expression did not match
    | UnsupportedPattern         // base pattern not in PATTERNS
    | BadKeyLength               // a supplied key of the wrong length
    | MissingPremessageKey       // a premessage key that was not supplied
    | InvalidPremessageToken     // a premessage token other than E or S
    | UnsupportedModifier        // a modifier other than psk<digit>
    | BadPskModifier             // the psk index bound check failed
    | NoSuchMessagePattern       // a psk index past the message patterns
    | MissingStaticKeypair       // initiator patterns send S but no static keypair
    | PskCountMismatch           // setPsks with a number of psks other than pskCount
    | Destroyed                  // the message pattern queue is null
    | NoMessagePattern           // the message pattern queue is empty
    | WrongRole                  // the popped pattern belongs to the other role
    | EphemeralAlreadySet        // write E with epk or esk already set
    | RemoteEphemeralAlreadySet  // read E with re already set
    | RemoteStaticAlreadySet     // read S with rs already set
    | MissingKey                 // a null key given to DH or to EncryptAndHash
    | MissingPsk                 // PSK token with no psk left
    | Truncated                  // fewer message bytes than a token needs
    | AuthenticationFailed       // DecryptAndHash rejected the ciphertext

  /** The value of a HandshakeState object. */
  datatype State = State(
    sym: Option<SymState>,
    role: Option<Role>,
    spk: Option<Bytes>,
    ssk: Option<Bytes>,
    epk: Option<Bytes>,
    esk: Option<Bytes>,
    rs: Option<Bytes>,
    re: Option<Bytes>,
    psks: seq<Bytes>,
    queue: Option<seq<MessagePattern>>,
    pskCount: Option<nat>)

  /** What every reachable state satisfies: a live queue comes with a symmetric state and a role; pskCount is undefined or positive. */
  predicate Valid(s: State)
  {
    (s.queue.Some? ==> s.sym.Some? && s.role.Some?) && s.pskCount != Some(0)
  }

  /** `state.pskCount > 0`, which is false while pskCount is undefined. */
  predicate PskActive(s: State)
  {
    s.pskCount.Some? && s.pskCount.value > 0
  }

  datatype Step<T> = Step(state: State, result: Result<T, Error>)

  function RoleOf(initiator: bool): Role
  {
    if initiator then Initiator else Responder
  }

  // ---------------------------------------------------------------------------------------
  // psk modifiers

  /** The net effect of the psk0 edit: PSK becomes the first token. */
  function InsertPsk0(mp: MessagePattern): MessagePattern
  {
    mp.(tokens := [PSK] + mp.tokens)
  }

  function AppendPsk(mp: MessagePattern): MessagePattern
  {
    mp.(tokens := mp.tokens + [PSK])
  }

  /** `(state.pskCount || 0) + 1`. */
  function IncCount(count: Option<nat>): nat
  {
    if count.None? then 1 else count.value + 1
  }

  /** Rewrites the message patterns for each modifier in turn and counts the modifiers. */
  function ApplyModifiers(q: seq<MessagePattern>, mods: seq<string>, count: Option<nat>)
    : (r: Result<(seq<MessagePattern>, Option<nat>), Error>)
    ensures r.Ok? ==> |r.value.0| == |q|
    ensures r.Ok? ==> forall i :: 0 <= i < |q| ==> r.value.0[i].role == q[i].role
    ensures r.Ok? ==> r.value.1 == if mods == [] then count else Some((if count.None? then 0 else count.value) + |mods|)
    ensures r.Ok? ==> forall i :: 0 <= i < |mods| ==> PskIndex(mods[i]).Some?
    ensures r.Err? ==> r.error == UnsupportedModifier || r.error == BadPskModifier || r.error == NoSuchMessagePattern
    decreases |mods|
  {
    if mods == [] then Ok((q, count))
    else
      match PskIndex(mods[0])
      case None => Err(UnsupportedModifier)
      case Some(k) =>
        if |q| < k / 2 then Err(BadPskModifier)
        else if k == 0 && |q| == 0 then Err(NoSuchMessagePattern)
        else if k != 0 && k - 1 >= |q| then Err(NoSuchMessagePattern)
        else
          var r := ApplyModifiers(PskEdit(q, k), mods[1..], Some(IncCount(count)));
          assert mods == [mods[0]] + mods[1..];
          r
  }

  /** The edit one `psk<k>` modifier makes: psk0 inserts into the first pattern, pskK appends to the K-th. */
  function PskEdit(q: seq<MessagePattern>, k: nat): (r: seq<MessagePattern>)
    requires if k == 0 then |q| > 0 else k <= |q|
    ensures |r| == |q|
    ensures forall i :: 0 <= i < |q| ==> r[i].role == q[i].role
    ensures forall i :: 0 <= i < |q| && !(k == 0 && i == 0) && k != i + 1 ==> r[i] == q[i]
  {
    if k == 0 then q[0 := InsertPsk0(q[0])] else q[k - 1 := AppendPsk(q[k - 1])]
  }

  /** In the source's array form, a message pattern is its role followed by its tokens. */
  datatype Item = RoleItem(role: Role) | TokenItem(token: Token)

  function AsArray(mp: MessagePattern): seq<Item>
  {
    [RoleItem(mp.role)] + seq(|mp.tokens|, i requires 0 <= i < |mp.tokens| => TokenItem(mp.tokens[i]))
  }

  /** The literal psk0 edit on the array: `value = a[0]; a.unshift(value); a[1] = PSK`. */
  function LiteralPsk0Edit(a: seq<Item>): seq<Item>
    requires |a| >= 1
  {
    var value := a[0];
    var shifted := [value] + a;
    shifted[1 := TokenItem(PSK)]
  }

  // ---------------------------------------------------------------------------------------
  // initialize

  /**
   * The protocol name `Noise_<pattern>_<dh>_<cipher>_<hash>` of section 8 of the Noise
   * Protocol Framework: the pattern name as given, then the three algorithm names.
   */
  function ProtocolName(suite: Suite, handshakePattern: string): (n: string)
    ensures |n| == 9 + |handshakePattern| + |suite.dhAlg| + |suite.cipherAlg| + |suite.hashAlg|
    ensures n[..6] == "Noise_" && n[6..6 + |handshakePattern|] == handshakePattern
    ensures n[6 + |handshakePattern|] == '_' && n[|n| - |suite.hashAlg|..] == suite.hashAlg
  {
    "Noise_" + handshakePattern + "_" + suite.dhAlg + "_" + suite.cipherAlg + "_" + suite.hashAlg
  }

  /** The key a premessage token mixes: the party's own when it owns the premessage, else the peer's. */
  function PremessageKey(s: State, local: bool, t: Token): (k: Option<Bytes>)
    ensures !local ==> k == RemotePublic(s, if t == E then Ephemeral else Static)
    ensures local ==> k == (if t == E then s.epk else s.spk)
  {
    if t == E then (if local then s.epk else s.re) else (if local then s.spk else s.rs)
  }

  /** Mixes the keys of one premessage's tokens into the hash, in order. */
  function MixPremessageTokens(st: SymState, local: bool, s: State, toks: seq<Token>): (r: Result<SymState, Error>)
    ensures r.Ok? ==> r.value.hasKey == st.hasKey
    ensures r.Ok? ==> |r.value.log| == |st.log| + |toks| && r.value.log[..|st.log|] == st.log
    ensures r.Ok? ==> forall i :: 0 <= i < |toks| ==> toks[i] in {E, S}
    ensures r.Err? ==> r.error == MissingPremessageKey || r.error == InvalidPremessageToken
    ensures (forall i :: 0 <= i < |toks| ==> toks[i] in {E, S}) ==> r != Err(InvalidPremessageToken)
    decreases |toks|
  {
    if toks == [] then Ok(st)
    else if toks[0] != E && toks[0] != S then Err(InvalidPremessageToken)
    else
      var key := PremessageKey(s, local, toks[0]);
      if key.None? then Err(MissingPremessageKey)
      else
        var r := MixPremessageTokens(MixHash(st, key.value), local, s, toks[1..]);
        assert toks == [toks[0]] + toks[1..];
        r
  }

  /** Processes the premessages in declared order. */
  function MixPremessages(st: SymState, s: State, pms: seq<MessagePattern>): (r: Result<SymState, Error>)
    ensures r.Ok? ==> r.value.hasKey == st.hasKey && |st.log| <= |r.value.log| && r.value.log[..|st.log|] == st.log
    ensures r.Err? ==> r.error == MissingPremessageKey || r.error == InvalidPremessageToken
    ensures PremessageTokensOnly(pms) ==> r != Err(InvalidPremessageToken)
    decreases |pms|
  {
    if pms == [] then Ok(st)
    else
      match MixPremessageTokens(st, s.role == Some(pms[0].role), s, pms[0].tokens)
      case Err(e) => Err(e)
      case Ok(st1) =>
        var r := MixPremessages(st1, s, pms[1..]);
        assert r.Ok? ==> r.value.log[..|st.log|] == r.value.log[..|st1.log|][..|st.log|];
        r
  }

  /** Some initiator-owned message pattern sends S (the check at the end of initialize). */
  predicate InitiatorSendsStatic(q: seq<MessagePattern>)
  {
    exists i :: 0 <= i < |q| && q[i].role == Initiator && S in q[i].tokens
  }

  predicate FitsPublic(suite: Suite, k: Option<Bytes>)
  {
    k.None? || |k.value| == suite.pkLen
  }

  predicate FitsPair(suite: Suite, kp: Option<KeyPair>)
  {
    kp.None? || (|kp.value.publicKey| == suite.pkLen && |kp.value.secretKey| == suite.skLen)
  }

  function PublicOf(kp: Option<KeyPair>): Option<Bytes>
  {
    if kp.None? then None else Some(kp.value.publicKey)
  }

  function SecretOf(kp: Option<KeyPair>): Option<Bytes>
  {
    if kp.None? then None else Some(kp.value.secretKey)
  }

  /** The state after the keys are stored and the protocol name and prologue are mixed. */
  function Keyed(suite: Suite, name: string, initiator: bool, prologue: Bytes,
                 s: Option<KeyPair>, e: Option<KeyPair>, rs: Option<Bytes>, re: Option<Bytes>): (k: State)
    ensures Valid(k) && k.queue.None? && k.psks == [] && k.pskCount.None?
    ensures k.sym == Some(SymState([Initialized(ProtocolName(suite, name)), Hashed(prologue)], false))
    ensures k.role == Some(if initiator then Initiator else Responder)
    ensures s.Some? ==> k.spk == Some(s.value.publicKey) && k.ssk == Some(s.value.secretKey)
    ensures e.Some? ==> k.epk == Some(e.value.publicKey) && k.esk == Some(e.value.secretKey)
    ensures s.None? ==> k.spk.None? && k.ssk.None?
    ensures e.None? ==> k.epk.None? && k.esk.None?
    ensures k.rs == rs && k.re == re
  {
    assert [Initialized(ProtocolName(suite, name))] + [Hashed(prologue)] == [Initialized(ProtocolName(suite, name)), Hashed(prologue)];
    State(Some(MixHash(InitializeSymmetric(ProtocolName(suite, name)), prologue)), Some(RoleOf(initiator)),
          PublicOf(s), SecretOf(s), PublicOf(e), SecretOf(e), rs, re, [], None, None)
  }

  /**
   * The argument checks of `initialize`: the name parses, names a known pattern, and every
   * key given has the DH lengths.  On success, the parsed name and the pattern it names.
   */
  function CheckArguments(suite: Suite, name: string, s: Option<KeyPair>, e: Option<KeyPair>,
                          rs: Option<Bytes>, re: Option<Bytes>): (r: Result<(ParsedName, HandshakePattern), Error>)
    ensures r.Ok? <==> (GetPatternAndModifiers(name).Some? && GetPatternAndModifiers(name).value.pattern in PATTERNS &&
                        FitsPair(suite, s) && FitsPair(suite, e) && FitsPublic(suite, rs) && FitsPublic(suite, re))
    ensures r.Ok? ==> Some(r.value.0) == GetPatternAndModifiers(name) && r.value.1 == PATTERNS[r.value.0.pattern]
    ensures GetPatternAndModifiers(name).None? <==> r == Err(MalformedName)
  {
    match GetPatternAndModifiers(name)
    case None => Err(MalformedName)
    case Some(parsed) =>
      if parsed.pattern !in PATTERNS then Err(UnsupportedPattern)
      else if !FitsPair(suite, e) || !FitsPublic(suite, rs) || !FitsPublic(suite, re) || !FitsPair(suite, s) then
        Err(BadKeyLength)
      else
        Ok((parsed, PATTERNS[parsed.pattern]))
  }

  /** `initialize`: the state it returns, or the error it throws. */
  function InitSpec(suite: Suite, name: string, initiator: bool, prologue: Bytes,
                    s: Option<KeyPair>, e: Option<KeyPair>, rs: Option<Bytes>, re: Option<Bytes>)
    : (r: Result<State, Error>)
    ensures CheckArguments(suite, name, s, e, rs, re).Err? ==> r == Err(CheckArguments(suite, name, s, e, rs, re).error)
    ensures r.Ok? ==> Valid(r.value) && r.value.queue.Some? && r.value.role == Some(RoleOf(initiator))
    ensures r.Ok? ==> |r.value.queue.value| == |PATTERNS[GetPatternAndModifiers(name).value.pattern].messagePatterns|
    ensures r.Ok? ==> r.value.sym.Some? && [Initialized(ProtocolName(suite, name)), Hashed(prologue)] <= r.value.sym.value.log
    ensures r.Err? ==> r.error in {MalformedName, UnsupportedPattern, BadKeyLength, MissingPremessageKey,
                                   InvalidPremessageToken, UnsupportedModifier, BadPskModifier,
                                   NoSuchMessagePattern, MissingStaticKeypair}
  {
    match CheckArguments(suite, name, s, e, rs, re)
    case Err(err) => Err(err)
    case Ok((parsed, pat)) => InitWithPattern(Keyed(suite, name, initiator, prologue, s, e, rs, re), pat, parsed.modifiers)
  }

  /** The rest of `initialize` once the keys are stored: premessages, modifiers, static check. */
  function InitWithPattern(keyed: State, pat: HandshakePattern, modifiers: seq<string>): (r: Result<State, Error>)
    requires keyed.sym.Some?
    ensures r.Ok? ==> r.value == keyed.(sym := r.value.sym, queue := r.value.queue, pskCount := r.value.pskCount)
    ensures r.Ok? ==> r.value.queue.Some? && |r.value.queue.value| == |pat.messagePatterns|
    ensures r.Ok? ==> forall i :: 0 <= i < |pat.messagePatterns| ==> r.value.queue.value[i].role == pat.messagePatterns[i].role
    ensures r.Ok? ==> r.value.sym.Some? && r.value.sym.value.hasKey == keyed.sym.value.hasKey
    ensures r.Ok? ==> keyed.sym.value.log <= r.value.sym.value.log
    ensures r.Ok? && InitiatorSendsStatic(r.value.queue.value) ==> r.value.spk.Some? && r.value.ssk.Some?
    ensures r.Ok? ==> r.value.pskCount == (if modifiers == [] then None else Some(|modifiers|))
    ensures r.Err? ==> r.error in {MissingPremessageKey, InvalidPremessageToken, UnsupportedModifier, BadPskModifier,
                                   NoSuchMessagePattern, MissingStaticKeypair}
  {
    match MixPremessages(keyed.sym.value, keyed, pat.premessages)
    case Err(err) => Err(err)
    case Ok(st) =>
      match ApplyModifiers(pat.messagePatterns, modifiers, None)
      case Err(err) => Err(err)
      case Ok(rewritten) =>
        if InitiatorSendsStatic(rewritten.0) && (keyed.spk.None? || keyed.ssk.None?) then
          Err(MissingStaticKeypair)
        else
          Ok(keyed.(sym := Some(st), queue := Some(rewritten.0), pskCount := rewritten.1))
  }

  // ---------------------------------------------------------------------------------------
  // setPsks and destroy

  /** `setPsks`: accepted exactly when the number of psks equals pskCount. */
  function SetPsks(s: State, psks: seq<Bytes>): (r: Step<()>)
    ensures r.result.Ok? <==> s.pskCount == Some(|psks|)
    ensures r.result.Ok? ==> r.state.psks == psks
    ensures r.state.(psks := s.psks) == s
  {
    if s.pskCount == Some(|psks|) then Step(s.(psks := psks), Ok(())) else Step(s, Err(PskCountMismatch))
  }

  /** `destroy`: every slot, the role and the message pattern queue become null. */
  function Destroy(s: State): (d: State)
    ensures d.sym.None? && d.role.None? && d.queue.None?
    ensures d.spk.None? && d.ssk.None? && d.epk.None? && d.esk.None? && d.rs.None? && d.re.None?
    ensures d.psks == s.psks && d.pskCount == s.pskCount
    ensures Valid(s) ==> Valid(d)
  {
    s.(sym := None, role := None, spk := None, ssk := None, epk := None, esk := None,
       rs := None, re := None, queue := None)
  }

  // ---------------------------------------------------------------------------------------
  // the token interpreter

  datatype KeyKind = Ephemeral | Static

  /** A token as the Noise pattern notation spells it. */
  function Spelling(t: Token): string
  {
    match t
    case E => "e"
    case S => "s"
    case EE => "ee"
    case ES => "es"
    case SE => "se"
    case SS => "ss"
    case PSK => "psk"
  }

  /**
   * The key kind a letter of a DH token names.  The first letter of a DH token is the
   * initiator's key and the second the responder's, as the token rules of section 5.3 of
   * the Noise Protocol Framework have it.
   */
  function LetterKind(c: char): KeyKind
  {
    if c == 'e' then Ephemeral else Static
  }

  predicate IsDh(t: Token)
  {
    t == EE || t == ES || t == SE || t == SS
  }

  /** For a DH token and the party's role: which secret key and which remote public key it combines. */
  function DhOperands(t: Token, role: Role): (r: (KeyKind, KeyKind))
    requires IsDh(t)
    ensures |Spelling(t)| == 2
    ensures r.0 == LetterKind(Spelling(t)[if role == Initiator then 0 else 1])
    ensures r.1 == LetterKind(Spelling(t)[if role == Initiator then 1 else 0])
  {
    match t
    case EE => (Ephemeral, Ephemeral)
    case ES => if role == Initiator then (Ephemeral, Static) else (Static, Ephemeral)
    case SE => if role == Initiator then (Static, Ephemeral) else (Ephemeral, Static)
    case SS => (Static, Static)
  }

  function LocalSecret(s: State, k: KeyKind): Option<Bytes>
  {
    if k == Ephemeral then s.esk else s.ssk
  }

  function RemotePublic(s: State, k: KeyKind): Option<Bytes>
  {
    if k == Ephemeral then s.re else s.rs
  }

  /** The tokens handled alike by write and read: the four DH tokens and PSK. */
  function SharedToken(suite: Suite, s: State, t: Token): (r: Step<()>)
    requires s.sym.Some? && s.role.Some? && (IsDh(t) || t == PSK)
    ensures r.state.sym.Some?
    ensures r.result.Ok? ==> r.state.sym.value.hasKey && |r.state.sym.value.log| == |s.sym.value.log| + 1
    ensures r.result.Err? ==> r.state == s
    ensures t == PSK ==> (r.result.Err? <==> s.psks == [])
    ensures t == PSK && r.result.Ok? ==> r.state.psks == s.psks[1..]
    ensures t != PSK ==> r.state.psks == s.psks
    ensures r.state.(sym := s.sym, psks := s.psks) == s
  {
    if t == PSK then
      if s.psks == [] then Step(s, Err(MissingPsk))
      else Step(s.(sym := Some(MixKeyAndHash(s.sym.value, s.psks[0])), psks := s.psks[1..]), Ok(()))
    else
      var (local, remote) := DhOperands(t, s.role.value);
      var sk := LocalSecret(s, local);
      var pk := RemotePublic(s, remote);
      if sk.None? || pk.None? then Step(s, Err(MissingKey))
      else Step(s.(sym := Some(MixKey(s.sym.value, suite.dh(sk.value, pk.value)))), Ok(()))
  }

  /** The bytes a successful write token appends (E: the ephemeral public key; S: the encrypted static key). */
  function WriteLen(suite: Suite, s: State, t: Token): nat
    requires s.sym.Some?
  {
    match t
    case E => suite.pkLen
    case S => suite.pkLen + (if s.sym.value.hasKey then TAGLEN else 0)
    case _ => 0
  }

  /** One token of writeMessage: the bytes it appends to the message. */
  function WriteToken(suite: Suite, s: State, t: Token, eph: KeyPair): (r: Step<Bytes>)
    requires s.sym.Some? && s.role.Some? && FitsPair(suite, Some(eph))
    ensures r.state.sym.Some? && r.state.role == s.role && r.state.queue == s.queue && r.state.pskCount == s.pskCount
    ensures r.state.spk == s.spk && r.state.ssk == s.ssk && r.state.rs == s.rs && r.state.re == s.re
    ensures r.result.Ok? ==> |r.result.value| == WriteLen(suite, s, t)
    ensures t == E ==> (r.result.Err? <==> s.epk.Some? || s.esk.Some?)
    ensures t == E ==> (r.result == Err(EphemeralAlreadySet) <==> s.epk.Some? || s.esk.Some?)
    ensures t == E && r.result.Ok? ==> r.state.epk == Some(eph.publicKey) && r.state.esk == Some(eph.secretKey)
    ensures t != E || r.result.Err? ==> r.state.epk == s.epk && r.state.esk == s.esk
  {
    var st := s.sym.value;
    match t
    case E =>
      if s.epk.Some? || s.esk.Some? then Step(s, Err(EphemeralAlreadySet))
      else
        var hashed := MixHash(st, eph.publicKey);
        var mixed := if PskActive(s) then MixKey(hashed, eph.publicKey) else hashed;
        Step(s.(epk := Some(eph.publicKey), esk := Some(eph.secretKey), sym := Some(mixed)), Ok(eph.publicKey))
    case S =>
      if s.spk.None? then Step(s, Err(MissingKey))
      else if |s.spk.value| != suite.pkLen then Step(s, Err(BadKeyLength))
      else
        var (ciphertext, st') := EncryptAndHash(suite, st, s.spk.value);
        Step(s.(sym := Some(st')), Ok(ciphertext))
    case _ =>
      var shared := SharedToken(suite, s, t);
      Step(shared.state, if shared.result.Ok? then Ok([]) else Err(shared.result.error))
  }

  /** The tokens of one message pattern, left to right; the bytes they append, or the first failure. */
  function WriteTokens(suite: Suite, s: State, toks: seq<Token>, eph: KeyPair): (r: Step<Bytes>)
    requires s.sym.Some? && s.role.Some? && FitsPair(suite, Some(eph))
    ensures r.state.sym.Some? && r.state.role == s.role && r.state.queue == s.queue && r.state.pskCount == s.pskCount
    ensures r.state.spk == s.spk && r.state.ssk == s.ssk && r.state.rs == s.rs && r.state.re == s.re
    ensures s.epk.Some? || s.esk.Some? ==> r.state.epk == s.epk && r.state.esk == s.esk
    ensures E !in toks ==> r.state.epk == s.epk && r.state.esk == s.esk
    decreases |toks|
  {
    if toks == [] then Step(s, Ok([]))
    else
      var first := WriteToken(suite, s, toks[0], eph);
      if first.result.Err? then Step(first.state, Err(first.result.error))
      else
        assert toks == [toks[0]] + toks[1..];
        var rest := WriteTokens(suite, first.state, toks[1..], eph);
        if rest.result.Err? then rest
        else Step(rest.state, Ok(first.result.value + rest.result.value))
  }

  /** Adds the bytes already written in front of what a run of tokens appends. */
  function Prefixed(written: Bytes, r: Step<Bytes>): Step<Bytes>
  {
    if r.result.Ok? then Step(r.state, Ok(written + r.result.value)) else r
  }

  /** Bytes written in two steps prefix like the bytes written at once. */
  lemma PrefixedTwice(a: Bytes, b: Bytes, r: Step<Bytes>)
    ensures Prefixed(a, Prefixed(b, r)) == Prefixed(a + b, r)
  {
    if r.result.Ok? {
      assert a + (b + r.result.value) == (a + b) + r.result.value;
    }
  }

  /** The two cipher states, in the order each side receives them. */
  datatype CipherPair = CipherPair(tx: CipherState, rx: CipherState)

  /** `split(state, tx, rx)`: the writer sends with the first key. */
  function WriterSplit(st: SymState): CipherPair
  {
    CipherPair(Split(st).0, Split(st).1)
  }

  /** `split(state, rx, tx)`: the reader receives with the first key. */
  function ReaderSplit(st: SymState): CipherPair
  {
    CipherPair(Split(st).1, Split(st).0)
  }

  /** The message written, the byte count reported, and the cipher pair after the last message. */
  datatype Written = Written(message: Bytes, bytes: nat, split: Option<CipherPair>)

  /** The queue after `shift()`: one pattern fewer, or still empty. */
  function Popped(q: seq<MessagePattern>): seq<MessagePattern>
  {
    if q == [] then [] else q[1..]
  }

  /** `writeMessage`. */
  function Write(suite: Suite, s: State, payload: Bytes, eph: KeyPair): (r: Step<Written>)
    requires Valid(s) && FitsPair(suite, Some(eph))
    ensures Valid(r.state)
    ensures s.queue.None? ==> r == Step(s, Err(Destroyed))
    ensures s.queue == Some([]) ==> r == Step(s, Err(NoMessagePattern))
    ensures s.queue.Some? ==> r.state.queue == Some(Popped(s.queue.value))
    ensures s.queue.Some? && s.queue.value != [] && s.role != Some(s.queue.value[0].role) ==>
      r.result == Err(WrongRole)
    ensures r.result.Ok? ==> s.queue.Some? && s.queue.value != [] && s.role == Some(s.queue.value[0].role)
    ensures r.result.Ok? ==> r.result.value.bytes == |r.result.value.message|
    ensures r.result.Ok? ==> (r.result.value.split.Some? <==> r.state.queue == Some([]))
    ensures r.result.Ok? && r.result.value.split.Some? ==> r.result.value.split.value == WriterSplit(r.state.sym.value)
    ensures r.state.role == s.role && r.state.pskCount == s.pskCount
    ensures r.state.spk == s.spk && r.state.ssk == s.ssk && r.state.rs == s.rs && r.state.re == s.re
    ensures s.epk.Some? || s.esk.Some? ==> r.state.epk == s.epk && r.state.esk == s.esk
  {
    if s.queue.None? then Step(s, Err(Destroyed))
    else if s.queue.value == [] then Step(s, Err(NoMessagePattern))
    else
      var mpat := s.queue.value[0];
      var popped := s.(queue := Some(s.queue.value[1..]));
      if s.role != Some(mpat.role) then Step(popped, Err(WrongRole))
      else
        WriteBody(suite, popped, mpat.tokens, payload, eph)
  }

  /** writeMessage after the pop and the role check: the tokens, the payload, the split. */
  function WriteBody(suite: Suite, s: State, tokens: seq<Token>, payload: Bytes, eph: KeyPair): (r: Step<Written>)
    requires s.sym.Some? && s.role.Some? && s.queue.Some? && FitsPair(suite, Some(eph))
    ensures r.state.sym.Some? && r.state.role == s.role && r.state.queue == s.queue && r.state.pskCount == s.pskCount
    ensures r.result.Err? <==> WriteTokens(suite, s, tokens, eph).result.Err?
    ensures r.result.Err? ==> r == Step(WriteTokens(suite, s, tokens, eph).state, Err(WriteTokens(suite, s, tokens, eph).result.error))
    ensures r.result.Ok? ==>
              var toks := WriteTokens(suite, s, tokens, eph).result.value;
              && |toks| <= |r.result.value.message| && r.result.value.message[..|toks|] == toks
              && |r.result.value.message| == |toks| + |payload| + (if r.state.sym.value.hasKey then TAGLEN else 0)
              && r.result.value.bytes == |r.result.value.message|
              && (r.result.value.split.Some? <==> s.queue == Some([]))
  {
    var body := WriteTokens(suite, s, tokens, eph);
    if body.result.Err? then Step(body.state, Err(body.result.error))
    else
      var (ciphertext, st) := EncryptAndHash(suite, body.state.sym.value, payload);
      var done := body.state.(sym := Some(st));
      var message := body.result.value + ciphertext;
      Step(done, Ok(Written(message, |message|, if done.queue == Some([]) then Some(WriterSplit(st)) else None)))
  }

  /** One token of readMessage: the offset after the bytes it consumes. */
  function ReadToken(suite: Suite, s: State, message: Bytes, offset: nat, t: Token): (r: Step<nat>)
    requires s.sym.Some? && s.role.Some? && offset <= |message|
    ensures r.state.sym.Some? && r.state.role == s.role && r.state.queue == s.queue && r.state.pskCount == s.pskCount
    ensures r.state.spk == s.spk && r.state.ssk == s.ssk && r.state.epk == s.epk && r.state.esk == s.esk
    ensures r.result.Ok? ==> r.result.value <= |message|
    ensures r.result.Ok? ==> r.result.value == offset + ReadLen(suite, s, t)
    ensures t == E ==> (r.result.Err? <==> s.re.Some? || |message| - offset < suite.pkLen)
    ensures t == E ==> (r.result == Err(RemoteEphemeralAlreadySet) <==> s.re.Some?)
    ensures t == E && s.re.None? ==> (r.result == Err(Truncated) <==> |message| - offset < suite.pkLen)
    ensures t == S ==> (r.result == Err(RemoteStaticAlreadySet) <==> s.rs.Some?)
    ensures t == S && s.rs.None? ==> (r.result == Err(Truncated) <==> |message| - offset < ReadLen(suite, s, S))
    ensures t == S && s.rs.None? && r.result.Err? ==> r.state.rs == Some(Zeros(suite.pkLen))
    ensures t == S ==> r.state.rs.Some?
    ensures s.re.Some? || t != E ==> r.state.re == s.re
    ensures s.rs.Some? || t != S ==> r.state.rs == s.rs
  {
    var st := s.sym.value;
    match t
    case E =>
      if s.re.Some? then Step(s, Err(RemoteEphemeralAlreadySet))
      else if |message| - offset < suite.pkLen then Step(s, Err(Truncated))
      else
        var re := message[offset..offset + suite.pkLen];
        var hashed := MixHash(st, re);
        var mixed := if PskActive(s) then MixKey(hashed, re) else hashed;
        Step(s.(re := Some(re), sym := Some(mixed)), Ok(offset + suite.pkLen))
    case S =>
      if s.rs.Some? then Step(s, Err(RemoteStaticAlreadySet))
      else
        var withBlankRs := s.(rs := Some(Zeros(suite.pkLen)));
        var bytes := suite.pkLen + (if st.hasKey then TAGLEN else 0);
        if |message| - offset < bytes then Step(withBlankRs, Err(Truncated))
        else
          (match DecryptAndHash(suite, st, message[offset..offset + bytes])
           case None => Step(withBlankRs, Err(AuthenticationFailed))
           case Some(decrypted) => Step(withBlankRs.(rs := Some(decrypted.0), sym := Some(decrypted.1)), Ok(offset + bytes)))
    case _ =>
      var shared := SharedToken(suite, s, t);
      Step(shared.state, if shared.result.Ok? then Ok(offset) else Err(shared.result.error))
  }

  /** The bytes a read token needs (E: a public key; S: a public key, plus a tag once a key is set). */
  function ReadLen(suite: Suite, s: State, t: Token): nat
    requires s.sym.Some?
  {
    match t
    case E => suite.pkLen
    case S => suite.pkLen + (if s.sym.value.hasKey then TAGLEN else 0)
    case _ => 0
  }

  /** The tokens of one message pattern, read from the given offset; the offset reached, or the first failure. */
  function ReadTokens(suite: Suite, s: State, message: Bytes, offset: nat, toks: seq<Token>): (r: Step<nat>)
    requires s.sym.Some? && s.role.Some? && offset <= |message|
    ensures r.state.sym.Some? && r.state.role == s.role && r.state.queue == s.queue && r.state.pskCount == s.pskCount
    ensures r.state.spk == s.spk && r.state.ssk == s.ssk && r.state.epk == s.epk && r.state.esk == s.esk
    ensures r.result.Ok? ==> offset <= r.result.value <= |message|
    ensures s.re.Some? ==> r.state.re == s.re
    ensures s.rs.Some? ==> r.state.rs == s.rs
    ensures S !in toks ==> r.state.rs == s.rs
    ensures r.result.Ok? && S in toks ==> r.state.rs.Some?
    decreases |toks|
  {
    if toks == [] then Step(s, Ok(offset))
    else
      var first := ReadToken(suite, s, message, offset, toks[0]);
      assert toks == [toks[0]] + toks[1..];
      if first.result.Err? then Step(first.state, Err(first.result.error))
      else ReadTokens(suite, first.state, message, first.result.value, toks[1..])
  }

  /** The payload read, the byte count reported (the payload length), and the cipher pair after the last message. */
  datatype ReadOut = ReadOut(payload: Bytes, bytes: nat, split: Option<CipherPair>)

  /** `readMessage`. */
  function Read(suite: Suite, s: State, message: Bytes): (r: Step<ReadOut>)
    requires Valid(s)
    ensures Valid(r.state)
    ensures s.queue.None? ==> r == Step(s, Err(Destroyed))
    ensures s.queue == Some([]) ==> r == Step(s, Err(NoMessagePattern))
    ensures s.queue.Some? ==> r.state.queue == Some(Popped(s.queue.value))
    ensures s.queue.Some? && s.queue.value != [] && s.role == Some(s.queue.value[0].role) ==>
      r.result == Err(WrongRole)
    ensures r.result.Ok? ==> s.queue.Some? && s.queue.value != [] && s.role != Some(s.queue.value[0].role)
    ensures r.result.Ok? ==> r.result.value.bytes == |r.result.value.payload| <= |message|
    ensures r.result.Ok? ==> (r.result.value.split.Some? <==> r.state.queue == Some([]))
    ensures r.result.Ok? && r.result.value.split.Some? ==> r.result.value.split.value == ReaderSplit(r.state.sym.value)
    ensures r.state.role == s.role && r.state.pskCount == s.pskCount
    ensures r.state.spk == s.spk && r.state.ssk == s.ssk && r.state.epk == s.epk && r.state.esk == s.esk
    ensures s.re.Some? ==> r.state.re == s.re
    ensures s.rs.Some? ==> r.state.rs == s.rs
    ensures s.queue.Some? && s.queue.value != [] && S !in s.queue.value[0].tokens ==> r.state.rs == s.rs
    ensures r.result.Ok? && s.queue.Some? && s.queue.value != [] && S in s.queue.value[0].tokens ==> r.state.rs.Some?
  {
    if s.queue.None? then Step(s, Err(Destroyed))
    else if s.queue.value == [] then Step(s, Err(NoMessagePattern))
    else
      var mpat := s.queue.value[0];
      var popped := s.(queue := Some(s.queue.value[1..]));
      if s.role == Some(mpat.role) then Step(popped, Err(WrongRole))
      else
        ReadBody(suite, popped, message, mpat.tokens)
  }

  /** readMessage after the pop and the role check: the tokens, the payload, the split. */
  function ReadBody(suite: Suite, s: State, message: Bytes, tokens: seq<Token>): (r: Step<ReadOut>)
    requires s.sym.Some? && s.role.Some? && s.queue.Some?
    ensures r.state.role == s.role && r.state.queue == s.queue && r.state.pskCount == s.pskCount
    ensures ReadTokens(suite, s, message, 0, tokens).result.Err? ==>
              r == Step(ReadTokens(suite, s, message, 0, tokens).state, Err(ReadTokens(suite, s, message, 0, tokens).result.error))
    ensures ReadTokens(suite, s, message, 0, tokens).result.Ok? && r.result.Err? ==>
              r.result == Err(AuthenticationFailed) && ReadTokens(suite, s, message, 0, tokens).state.sym.value.hasKey
    ensures r.result.Ok? ==>
              && ReadTokens(suite, s, message, 0, tokens).result.Ok?
              && |r.result.value.payload| <= |message| - ReadTokens(suite, s, message, 0, tokens).result.value
              && r.result.value.bytes == |r.result.value.payload|
              && (r.result.value.split.Some? <==> s.queue == Some([]))
  {
    var body := ReadTokens(suite, s, message, 0, tokens);
    if body.result.Err? then Step(body.state, Err(body.result.error))
    else
      match DecryptAndHash(suite, body.state.sym.value, message[body.result.value..])
      case None => Step(body.state, Err(AuthenticationFailed))
      case Some(decrypted) =>
        var done := body.state.(sym := Some(decrypted.1));
        var payload := decrypted.0;
        Step(done, Ok(ReadOut(payload, |payload|, if done.queue == Some([]) then Some(ReaderSplit(decrypted.1)) else None)))
  }
}
