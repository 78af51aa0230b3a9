# Noise handshake state, modelled in Dafny

This project models `handshake-state.js` from the `noise-protocol` JavaScript package. That
file implements the HandshakeState object of the Noise Protocol Framework (revision 34):
- `initialize` parses a handshake name such as `XX` or `NNpsk0+psk2`, stores the supplied
  keys, starts the transcript with the protocol name and the prologue, mixes the premessage
  keys, applies the psk modifiers to a copy of the message patterns and checks that a static
  keypair is present when an initiator message sends `s`;
- `setPsks` installs the pre-shared keys;
- `writeMessage` and `readMessage` interpret one message pattern token by token, encrypt or
  decrypt the payload and split into two cipher states after the last message;
- `destroy` releases every key slot.

The model has three layers.

- `Patterns` and `PatternName` are pure. They hold the roles, the tokens, the registry of the
  fifteen canonical patterns, and the parser of handshake names and `psk<digit>` modifiers.
- `HandshakeSpec` describes every operation as a function on a `State` value. `None` stands for
  JavaScript `null`. An operation yields the state afterwards together with its result or the
  error thrown. Because the source edits the object before some of its asserts fail, an error
  still carries the partly updated state, for example the popped queue or the blank remote
  static key buffer.
- `HandshakeObject` holds the class `HandshakeState`. Its fields are the object's slots. Its
  methods follow the source's loops and null-guarded updates. Each method is proved to leave
  exactly the state, and return exactly the result, of the corresponding `HandshakeSpec`
  function.

The lemmas live in three more modules.

- `Modifiers`: what the psk modifiers do to the message patterns.
- `Agreement`: a message written by one party and read by its peer.
- `Properties`: what `initialize`, `setPsks` and `destroy` leave behind, the agreement of
  two freshly initialised parties, and complete `NN` and `XX` handshakes between them.

The cryptographic collaborators (`dh`, `cipher`, `hash` and the symmetric state) are
parameters. A `Suite` value carries the DH function, the public-key derivation, the AEAD tag
function, the key lengths and the algorithm names. The symmetric state is a transcript of
events plus the `hasKey` flag. The agreement lemmas assume two things. DH commutes
(`dh(a, pub(b)) == dh(b, pub(a))`). Every keypair they use is well formed
(`WellFormedKeyPair`): its keys have the DH lengths and its public key is `pub` of its
secret key.

Behaviour of the code the model reproduces. Most items are choices the code makes where the
framework leaves room, or quirks of the code. The first two agree with the framework's psk
modifier rule (section 9 of the Noise Protocol Framework): `psk0` puts a psk token at the
start of the first message, `pskN` at the end of the N-th.
- The `psk0` edit (`handshake-state.js:109-112`) works on the array form, whose first element
  is the role. It puts PSK first among the tokens of the first message pattern and keeps the
  role in front.
- The bound check on a `psk<k>` modifier (`handshake-state.js:108`) only demands
  `floor(k/2)` message patterns. An index past the end gets past it and then fails on the
  array lookup. `Modifiers.SinglePskModifier` says which error each index gets.
- Without modifiers `pskCount` stays undefined, so `setPsks` accepts no call at all, not
  even one with no psks.
- The static keypair check (`handshake-state.js:117-120`) looks at the initiator's message
  patterns whatever the local role is.
- `destroy` nulls the key slots, the role and the queue. It leaves `psks` and `pskCount`
  as they were.
- `TOK_SS` is created as `Symbol('es')`, but it is still a symbol of its own and never equal
  to `TOK_ES`. The model keeps the two tokens distinct.
- `readMessage` allocates the remote static key buffer before it checks the message length.
  A truncated or unauthenticated S token therefore leaves a blank `rs` behind.

## Model

| member | source | states |
|---|---|---|
| Patterns.PATTERNS | handshake-state.js:377-503 | the registry itself, a constant with no contract of its own; the four lemmas below state its shape |
| Patterns.PatternNames | handshake-state.js:377-503 | the registry holds exactly the fifteen canonical pattern names |
| Patterns.PatternsAlternate | handshake-state.js:377-503 | every pattern has at least one message, and its messages alternate starting with the initiator |
| Patterns.PatternsPremessageTokens | handshake-state.js:377-503 | every premessage of the registry is made of `e` and `s` tokens |
| Patterns.PatternsNoPsk | handshake-state.js:377-503 | no message pattern of the registry carries PSK; PSK tokens come only from modifiers |
| Patterns.PatternsWellFormed | handshake-state.js:377-503 | every registry entry has all three shapes above |
| PatternName.UpperRun | handshake-state.js:28-29 | the `[A-Z]*` group is the longest all-upper-case prefix |
| PatternName.SplitOn | handshake-state.js:31 | `split('+')` gives at least one piece and no piece contains `+` |
| PatternName.JoinSplit | handshake-state.js:31 | joining the pieces of a split with `+` gives the string back |
| PatternName.SplitJoin | handshake-state.js:31 | splitting a join of `+`-free pieces gives the pieces back |
| PatternName.GetPatternAndModifiers | handshake-state.js:27-32 | the name matches exactly when no line terminator follows the upper-case prefix; the pattern is that prefix; the modifiers are empty exactly when nothing follows it |
| PatternName.ParsedNameRoundTrip | handshake-state.js:27-32 | the pattern followed by the `+`-joined modifiers is the name that was parsed |
| PatternName.PskIndex | handshake-state.js:105-107 | a modifier gets an index exactly when it is `psk` followed by one ASCII digit, and that digit is the index |
| PatternName.PskIndexOfDigit | handshake-state.js:105-107 | every digit 0-9 gives a modifier that is recognised with that index |
| HandshakeSpec.CheckArguments | handshake-state.js:35-58 | the arguments pass exactly when the name parses, names a registry entry and every key given has the DH lengths; a name that does not parse, and nothing else, gives the malformed-name error |
| HandshakeSpec.ProtocolName | handshake-state.js:48 | the protocol name is `Noise_`, the handshake name as given, `_`, and the DH, cipher and hash names separated by `_`: its length, its prefix and its last component |
| HandshakeSpec.Keyed | handshake-state.js:46-78 | the state before the premessages: transcript of the protocol name then the prologue, no key yet, the role, each key slot set exactly when its key is given, no queue, no psks, pskCount undefined; it is valid |
| HandshakeSpec.PremessageKey | handshake-state.js:89-94 | the owner of a premessage mixes its own public key of the token's kind; the other party mixes the remote key of that kind, the same slot a DH token reads |
| HandshakeSpec.InitWithPattern | handshake-state.js:81-122 | after the keys are stored: success changes only the transcript, the queue and pskCount; the queue keeps the pattern's length and roles; the transcript only grows and gets no key; pskCount is undefined without modifiers and their number otherwise; an initiator message that sends `s` implies the static keypair; the errors are the premessage, modifier and static-keypair ones |
| HandshakeSpec.InitSpec | handshake-state.js:34-123 | `initialize`: an argument error is passed through unchanged; success gives a valid state with the role, a queue as long as the pattern's, and a transcript that starts with the protocol name and the prologue; the errors are exactly the nine `initialize` can throw |
| HandshakeSpec.Destroy | handshake-state.js:511-550 | every key slot, the transcript, the role and the queue become null; psks and pskCount stay; a valid state stays valid |
| HandshakeSpec.DhOperands | handshake-state.js:176-200 | the secret key a party combines is the kind its own letter of the token names and the public key the kind the peer's letter names, the first letter being the initiator's |
| HandshakeSpec.WriteBody | handshake-state.js:149-224 | the body of `writeMessage` fails exactly when the token loop fails, with its state and error; on success the message is the token bytes followed by the payload, plus a tag when a key is set; the count is the message length; the split comes exactly when the queue is empty |
| HandshakeSpec.ReadBody | handshake-state.js:239-326 | the body of `readMessage` passes a token-loop error through; the only other error is a failed authentication, which needs a key; on success the payload fits in the bytes after the tokens, the count is its length, and the split comes exactly when the queue is empty |
| HandshakeSpec.MixPremessageTokens | handshake-state.js:86-99 | one premessage adds one transcript entry per token and keeps the key flag; it fails only on a missing key or a token other than `e`/`s`, and never on the token when all are `e`/`s` |
| HandshakeSpec.MixPremessages | handshake-state.js:83-100 | the premessages extend the transcript and keep its prefix and key flag; they fail only on a missing key or a bad token, and never on a token when the premessages are `e`/`s` only |
| HandshakeSpec.ApplyModifiers | handshake-state.js:104-115 | the modifiers keep the number and the roles of the message patterns; the count becomes the number of modifiers (starting from 0 when undefined) and stays undefined when there are none; success needs every modifier to be `psk<digit>`; the only errors are an unsupported modifier, the bound check and a missing pattern |
| HandshakeSpec.PskEdit | handshake-state.js:109-113 | one modifier's edit keeps the length and the roles and changes only the pattern it targets |
| HandshakeSpec.SetPsks | handshake-state.js:125-135 | `setPsks` succeeds exactly when the number of psks equals pskCount, then stores them, and changes nothing else |
| HandshakeSpec.SharedToken | handshake-state.js:176-206 | a DH token or PSK adds one transcript entry and sets the key flag, or fails without changing anything; PSK fails exactly when no psk is left and otherwise consumes the first one |
| HandshakeSpec.WriteToken | handshake-state.js:150-210 | a written token appends the bytes its kind needs (`e`: the DH public key length); `e` fails exactly when an ephemeral key is already set, and then with that error, and otherwise stores the generated keypair; no other slot changes |
| HandshakeSpec.WriteTokens | handshake-state.js:149-211 | the token loop changes neither the role, the queue, the count nor the static and remote keys, and leaves an already set ephemeral keypair alone |
| HandshakeSpec.Write | handshake-state.js:137-225 | `writeMessage`: a destroyed state or an empty queue fails without change; otherwise the first pattern is popped even when the role check then fails; success needs the own role; the reported byte count is the message length; a split comes exactly when the queue becomes empty; reachable states stay reachable |
| HandshakeSpec.ReadToken | handshake-state.js:240-312 | a read token consumes the bytes its kind needs; `e` fails exactly when the remote ephemeral key is already set or fewer than a public key's bytes are left; `s` reports an already set remote static key exactly when there is one and, without one, a short message exactly when too few bytes are left (it can also fail authentication); a failed `s` still leaves a blank remote static key |
| HandshakeSpec.ReadTokens | handshake-state.js:239-313 | the token loop only moves forward within the message and keeps the local keys, the role, the queue and any remote key already known |
| HandshakeSpec.Read | handshake-state.js:228-327 | `readMessage`: like `writeMessage`, with the role check reversed; the reported count is the payload length, which is at most the message length; the cipher pair comes in the reader's order |
| HandshakeObject.HandshakeState.constructor | handshake-state.js:9-25 | a new object has a blank symmetric state, no role, no keys, no psks and no queue |
| HandshakeObject.HandshakeState.SetPsks | handshake-state.js:125-135 | the method leaves the state and returns the result of `HandshakeSpec.SetPsks`, and keeps a valid object valid |
| HandshakeObject.HandshakeState.MixToken | handshake-state.js:176-206 | the DH and PSK branches compute `HandshakeSpec.SharedToken` |
| HandshakeObject.HandshakeState.WriteOneToken | handshake-state.js:150-210 | one iteration of the write loop computes `HandshakeSpec.WriteToken` |
| HandshakeObject.HandshakeState.WriteTokensInPlace | handshake-state.js:149-211 | the write loop, with the offset as it advances, computes `HandshakeSpec.WriteTokens` |
| HandshakeObject.HandshakeState.WriteMessage | handshake-state.js:137-225 | `writeMessage` leaves the state and returns the result of `HandshakeSpec.Write` |
| HandshakeObject.HandshakeState.WritePattern | handshake-state.js:149-224 | the loop, the payload encryption and the split compute `HandshakeSpec.WriteBody` |
| HandshakeObject.HandshakeState.ReadOneToken | handshake-state.js:240-312 | one iteration of the read loop computes `HandshakeSpec.ReadToken` |
| HandshakeObject.HandshakeState.ReadTokensInPlace | handshake-state.js:239-313 | the read loop computes `HandshakeSpec.ReadTokens` |
| HandshakeObject.HandshakeState.ReadMessage | handshake-state.js:228-327 | `readMessage` leaves the state and returns the result of `HandshakeSpec.Read` |
| HandshakeObject.HandshakeState.ReadPattern | handshake-state.js:239-326 | the loop, the payload decryption and the split compute `HandshakeSpec.ReadBody` |
| HandshakeObject.HandshakeState.MixPremessage | handshake-state.js:84-99 | one premessage mixes the keys `HandshakeSpec.MixPremessageTokens` names, or fails as it does |
| HandshakeObject.HandshakeState.MixPremessageList | handshake-state.js:83-100 | the premessage loop computes `HandshakeSpec.MixPremessages` |
| HandshakeObject.HandshakeState.ApplyPskModifiers | handshake-state.js:104-115 | the modifier loop's in-place edits and count compute `HandshakeSpec.ApplyModifiers` |
| HandshakeObject.HandshakeState.ApplyPskModifier | handshake-state.js:105-114 | one modifier fails as `HandshakeSpec.ApplyModifiers` does, or leaves what it computes for the rest unchanged |
| HandshakeObject.HandshakeState.StoreKeys | handshake-state.js:55-76 | each key slot is set exactly when its key is given |
| HandshakeObject.HandshakeState.ApplyPattern | handshake-state.js:81-122 | premessages, modifiers and the static check compute `HandshakeSpec.InitWithPattern` and leave a valid object |
| HandshakeObject.HandshakeState.ReleaseStatic | handshake-state.js:519-527 | the static keypair slots become null and nothing else changes |
| HandshakeObject.HandshakeState.ReleaseEphemeral | handshake-state.js:529-537 | the ephemeral keypair slots become null and nothing else changes |
| HandshakeObject.HandshakeState.ReleaseRemote | handshake-state.js:539-547 | the remote key slots become null and nothing else changes |
| HandshakeObject.HandshakeState.Destroy | handshake-state.js:511-550 | `destroy` leaves the state `HandshakeSpec.Destroy` describes and keeps the object valid |
| HandshakeObject.NewKeyedState | handshake-state.js:46-76 | a fresh object with the transcript started from the protocol name and prologue, the role set and the keys stored |
| HandshakeObject.Initialize | handshake-state.js:34-123 | `initialize` fails exactly as `HandshakeSpec.InitSpec` does, or returns a fresh valid object whose value is the one `InitSpec` gives |
| Modifiers.ModifiersOnlyAddPsks | handshake-state.js:104-115 | the modifiers change each message pattern only by adding PSK tokens, one per modifier that targets it; the role and the other tokens, in order, stay |
| Modifiers.Psk0First | handshake-state.js:109-112 | after a `psk0` modifier, PSK is the first token of the first message pattern |
| Modifiers.PskNLast | handshake-state.js:113 | after a `pskN` modifier with N at least 1, PSK is the last token of the N-th message pattern |
| Modifiers.SinglePskModifier | handshake-state.js:105-114 | one `psk<k>` modifier fails exactly when the pattern it names does not exist; the bound-check error comes only when there are fewer than k/2 patterns; on success it applies the one edit and counts it |
| Modifiers.Psk3OnNN | handshake-state.js:108-113 | `NNpsk3` passes the bound check and then fails on the missing third message pattern |
| Modifiers.LiteralPsk0EditInserts | handshake-state.js:110-112 | the literal unshift-then-overwrite on the array form is the insertion of PSK after the role |
| Agreement.MirroredSymmetric | handshake-state.js:176-206 | two mirrored parties are mirrored in the other order too |
| Agreement.SyncedSymmetric | handshake-state.js:137-327 | two synced parties are synced in the other order too, so the reader of one message can write the next |
| Agreement.DhOperandsMirror | handshake-state.js:181-194 | for each DH token, the responder combines the key kinds the initiator does, swapped |
| Agreement.NeedsRemoteStaticOperand | handshake-state.js:181-194 | a DH token needs the remote static key (`NeedsRemoteStatic`: `ss`, `es` for the initiator, `se` for the responder) exactly when the remote key it combines is the static one |
| Agreement.SharedAgreement | handshake-state.js:176-206 | the writer's DH or PSK step and the reader's give the same transcript, or the reader fails with the missing-key error, which happens only when it has no remote static key and the token needs one in its role |
| Agreement.RefusableAt | handshake-state.js:239-313 | the recursive refusal rule over a pattern's tokens holds exactly when some token is refused at its own position: a missing-key refusal at a DH that needs the remote static key when no `s` came before it and none was given; an already-set refusal at an `s` when the key was given or an earlier `s` supplied it |
| Agreement.EphemeralAgreement | handshake-state.js:241-253 | an `e` written by one party and read by the other leaves them mirrored, with each holding the other's ephemeral key |
| Agreement.StaticAgreement | handshake-state.js:255-277 | an `s` written by one party is decrypted by the other into the writer's static public key, unless the reader already holds a remote static key |
| Agreement.TokenAgreement | handshake-state.js:239-313 | one written token read by the peer consumes exactly the bytes written and keeps the parties mirrored, or is refused: a DH that needs the remote static key in the reader's role when the reader has none, or an `s` when it already holds one |
| Agreement.TokensAgreement | handshake-state.js:149-211 | the same for a whole message pattern, by induction over its tokens: a refusal happens only at a position where the refusal rule allows it, with the remote static key supplied by an earlier `s` of the same pattern counting as held |
| Agreement.WriteThenRead | handshake-state.js:228-327 | a message written by one party and read by its synced peer is refused only as the refusal rule allows: a missing-key error at a DH that needs the remote static key in the reader's role, before any `s` and with no key given; an already-set error at an `s` when the key was given or an earlier `s` supplied it; otherwise the reader recovers the payload, both stay synced, the split happens on both sides together, and each side's sending cipher state is the other's receiving one |
| Agreement.SetPsksAgreement | handshake-state.js:125-135 | synced parties that set the same psks get the same result and stay synced |
| Properties.InitSucceeds | handshake-state.js:34-123 | a state from `initialize` has the given role and keys and no psks; its queue has the pattern's length and alternates; its transcript starts with the protocol name and the prologue and holds no key; pskCount is undefined without modifiers and equals their number otherwise; an initiator message that sends `s` implies a static keypair; the state is valid |
| Properties.InitQueue | handshake-state.js:102-115 | each queued message pattern is the registry's, plus one PSK for every modifier that targets it |
| Properties.InitFailures | handshake-state.js:35-58 | `initialize` fails with each argument error exactly when that check is the first to fail, and never on a premessage token |
| Properties.StaticCheckIgnoresRole | handshake-state.js:117-120 | without a static key, `XN` is refused and `NX` accepted, whatever the role |
| Properties.SetPsksAfterInit | handshake-state.js:125-129 | after `initialize`, `setPsks` succeeds exactly when the name has modifiers and as many psks as modifiers are given |
| Properties.SetPsksNeverEmpty | handshake-state.js:125-129 | a valid state refuses an empty psk list and stays as it was |
| Properties.DestroyFacts | handshake-state.js:511-550 | `destroy` keeps a state valid, a second call changes nothing, and it keeps psks and pskCount |
| Properties.NoMessagesAfterDestroy | handshake-state.js:142-145 | a destroyed state refuses to write or read and stays as it is |
| Properties.NoMessagesAfterSplit | handshake-state.js:218-224 | after the message that splits, there is no message left to write or read |
| Properties.PremessageTokensAgree | handshake-state.js:86-99 | one premessage mixed by its owner and by the peer gives the same transcript when both find the keys |
| Properties.PremessagesAgree | handshake-state.js:83-100 | all premessages mixed by both parties give the same transcript |
| Properties.NNInit | handshake-state.js:34-123 | `initialize` for `NN` without keys succeeds in either role and queues NN's two message patterns |
| Properties.InitiatorOpensWithE | handshake-state.js:137-225 | an initiator whose first pattern is `e`, with more to follow, writes it, keeps its generated ephemeral key and does not split |
| Properties.NNResponderWrites | handshake-state.js:137-225 | the NN responder, holding the initiator's ephemeral key, writes `e, ee` and splits |
| Properties.NNNeverRefused | handshake-state.js:239-313 | neither NN message has a token a synced reader may refuse |
| Properties.OpeningMessage | handshake-state.js:137-327 | the responder reads an opening `e`, recovers its payload, keeps its remote static key as it was, and the two stay synced |
| Properties.NNSecondMessage | handshake-state.js:137-327 | the initiator reads the responder's answer, recovers its payload, and both split with each sending key the other's receiving key |
| Properties.NNCompletes | handshake-state.js:34-327 | two parties that initialize `NN` without keys and use well-formed ephemeral keypairs complete the handshake: both reads succeed, both payloads are recovered, and both sides split with matching cipher states |
| Properties.XXInit | handshake-state.js:34-123 | `initialize` for `XX` with only a static keypair succeeds in either role, stores the keypair and queues XX's three message patterns |
| Properties.XXNeverRefused | handshake-state.js:239-313 | a reader without a remote static key refuses neither XX reply: its `s` comes before the DH that needs it |
| Properties.XXResponderWrites | handshake-state.js:137-225 | the XX responder, holding its static keypair and the initiator's ephemeral key, writes `e, ee, s, es` without splitting |
| Properties.XXInitiatorWrites | handshake-state.js:137-225 | the XX initiator, holding its static keypair and the responder's ephemeral key, writes `s, se` and splits |
| Properties.XXOpening | handshake-state.js:34-327 | freshly initialized XX parties exchange the opening `e` and end synced, with the responder's keys in place and no remote static key on either side |
| Properties.XXSecondMessage | handshake-state.js:137-327 | the initiator reads `e, ee, s, es`, recovers the payload, learns the responder's static public key, and the two stay synced |
| Properties.XXThirdMessage | handshake-state.js:137-327 | the responder reads `s, se`, recovers the payload, learns the initiator's static public key, and both split with each sending key the other's receiving key |
| Properties.XXCompletes | handshake-state.js:34-327 | two parties that initialize `XX` with well-formed static keypairs and use well-formed ephemeral keypairs complete the handshake: every read succeeds and recovers its payload, each ends up holding the other's static public key, and both split with matching cipher states after the third message |
| Properties.InitAgreement | handshake-state.js:34-123 | two parties that initialize one name and prologue in opposite roles, with corresponding keys, start synced: same transcript, same queue, same psk count, each remote key the peer's own |

## Left out

- `keygen` and `seedKeygen` are not modelled. They are thin calls into the DH collaborator.
- The `writeMessage` ephemeral keypair is a parameter (`eph`) standing for what
  `dh.generateKeypair` produces. The write functions and methods require its keys to have
  the DH lengths, because the source generates them into buffers of `PKLEN` and `SKLEN`
  bytes (`handshake-state.js:155-158`).
- The collaborators `dh`, `cipher`, `hash`, `symmetricState` and `cipherState` are not part
  of this model.
  - Their results are uninterpreted functions of a `Suite`.
  - The symmetric state is a transcript of events, so hashing and key derivation are not
    computed.
  - DH commutativity is a stated assumption, not a proved fact.
- Memory management is not modelled: `sodium_malloc` and `sodium_free`, the zeroing of the
  DH scratch buffer, and `sodiumBufferCopy`. A released slot becomes `None`, and the contents
  of a freshly allocated remote static key buffer are represented by zeros.
- The caller's message and payload buffers are not modelled. The message is returned as a
  byte sequence, so a buffer too small to hold it (a RangeError in the source) cannot occur.
- The `writeMessage.bytes` and `readMessage.bytes` counters are not kept as state. Their
  values are returned as the `bytes` field of the result.
- The type assertions (`instanceof HandshakeState`, `typeof initiator`, `byteLength != null`
  on the prologue, the payload, the buffers and the psks) are left out. The model's
  parameters have the right types by construction.
- The protocol name is a `string`. Its encoding into bytes through `toCharCode` is not
  modelled.
- `HandshakeObject.Initialize` checks the static keypair lengths together with the other
  key lengths, before the object is built. The source checks them after the transcript is
  started. Only the error is observable, because the object is discarded on failure.
- Exceptions thrown inside the collaborators are not modelled individually. A null key
  reaching a DH or an encryption is the error `MissingKey`. A missing psk is `MissingPsk`.
- The default branch that throws on an unknown message token is not modelled. The model's
  tokens are the seven the registry uses, so the branch cannot be reached.
