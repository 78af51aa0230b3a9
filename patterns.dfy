/**
 * Roles, tokens and the registry of the fifteen canonical handshake patterns (section 7 of
 * the Noise Protocol Framework, revision 34).  In the source a message pattern is an array
 * whose first element is the role; here the role is a field of its own.
 */
module Patterns {

  datatype Role = Initiator | Responder

  /** The handshake tokens; ES and SS are distinct constructors. */
  datatype Token = E | S | EE | ES | SE | SS | PSK

  /** A role marker followed by the tokens that role sends. */
  datatype MessagePattern = MessagePattern(role: Role, tokens: seq<Token>)

  datatype HandshakePattern = HandshakePattern(premessages: seq<MessagePattern>, messagePatterns: seq<MessagePattern>)

  /** The role that sends the i-th message (counting from 0) of an alternating pattern. */
  function RoleAt(i: nat): Role
  {
    if i % 2 == 0 then Initiator else Responder
  }

  /** Messages alternate between the roles, starting with the initiator. */
  predicate Alternates(mps: seq<MessagePattern>)
  {
    forall i :: 0 <= i < |mps| ==> mps[i].role == RoleAt(i)
  }

  /** Premessages carry only E and S tokens. */
  predicate PremessageTokensOnly(pms: seq<MessagePattern>)
  {
    forall i, j :: 0 <= i < |pms| && 0 <= j < |pms[i].tokens| ==> pms[i].tokens[j] in {E, S}
  }

  /** No message pattern of the table carries a PSK token: those come from modifiers only. */
  predicate NoPsk(mps: seq<MessagePattern>)
  {
    forall i :: 0 <= i < |mps| ==> PSK !in mps[i].tokens
  }

  /** The shape every registry entry has. */
  predicate WellFormed(p: HandshakePattern)
  {
    |p.messagePatterns| >= 1 && Alternates(p.messagePatterns)
    && PremessageTokensOnly(p.premessages) && NoPsk(p.messagePatterns)
  }

  const PATTERNS: map<string, HandshakePattern> := map[
    "N" := HandshakePattern(
      [MessagePattern(Responder, [S])],
      [MessagePattern(Initiator, [E, ES])]),
    "K" := HandshakePattern(
      [MessagePattern(Initiator, [S]), MessagePattern(Responder, [S])],
      [MessagePattern(Initiator, [E, ES, SS])]),
    "X" := HandshakePattern(
      [MessagePattern(Responder, [S])],
      [MessagePattern(Initiator, [E, ES, S, SS])]),
    "NN" := HandshakePattern(
      [],
      [MessagePattern(Initiator, [E]),
       MessagePattern(Responder, [E, EE])]),
    "KN" := HandshakePattern(
      [MessagePattern(Initiator, [S])],
      [MessagePattern(Initiator, [E]),
       MessagePattern(Responder, [E, EE, SE])]),
    "NK" := HandshakePattern(
      [MessagePattern(Responder, [S])],
      [MessagePattern(Initiator, [E, ES]),
       MessagePattern(Responder, [E, EE])]),
    "KK" := HandshakePattern(
      [MessagePattern(Initiator, [S]), MessagePattern(Responder, [S])],
      [MessagePattern(Initiator, [E, ES, SS]),
       MessagePattern(Responder, [E, EE, SE])]),
    "NX" := HandshakePattern(
      [],
      [MessagePattern(Initiator, [E]),
       MessagePattern(Responder, [E, EE, S, ES])]),
    "KX" := HandshakePattern(
      [MessagePattern(Initiator, [S])],
      [MessagePattern(Initiator, [E]),
       MessagePattern(Responder, [E, EE, SE, S, ES])]),
    "XN" := HandshakePattern(
      [],
      [MessagePattern(Initiator, [E]),
       MessagePattern(Responder, [E, EE]),
       MessagePattern(Initiator, [S, SE])]),
    "IN" := HandshakePattern(
      [],
      [MessagePattern(Initiator, [E, S]),
       MessagePattern(Responder, [E, EE, SE])]),
    "XK" := HandshakePattern(
      [MessagePattern(Responder, [S])],
      [MessagePattern(Initiator, [E, ES]),
       MessagePattern(Responder, [E, EE]),
       MessagePattern(Initiator, [S, SE])]),
    "IK" := HandshakePattern(
      [MessagePattern(Responder, [S])],
      [MessagePattern(Initiator, [E, ES, S, SS]),
       MessagePattern(Responder, [E, EE, SE])]),
    "XX" := HandshakePattern(
      [],
      [MessagePattern(Initiator, [E]),
       MessagePattern(Responder, [E, EE, S, ES]),
       MessagePattern(Initiator, [S, SE])]),
    "IX" := HandshakePattern(
      [],
      [MessagePattern(Initiator, [E, S]),
       MessagePattern(Responder, [E, EE, SE, S, ES])])
  ]

  /** The registry holds exactly the fifteen canonical names. */
  lemma PatternNames()
    ensures PATTERNS.Keys == {"N", "K", "X", "NN", "KN", "NK", "KK", "NX", "KX", "XN", "IN", "XK", "IK", "XX", "IX"}
  {
  }

  /** Every entry has at least one message, and its messages alternate from the initiator. */
  lemma PatternsAlternate()
    ensures forall name :: name in PATTERNS ==> |PATTERNS[name].messagePatterns| >= 1
    ensures forall name :: name in PATTERNS ==> Alternates(PATTERNS[name].messagePatterns)
  {
  }

  /** Every premessage of the table is made of E and S tokens. */
  lemma PatternsPremessageTokens()
    ensures forall name :: name in PATTERNS ==> PremessageTokensOnly(PATTERNS[name].premessages)
  {
  }

  /** No message pattern of the table carries PSK. */
  lemma PatternsNoPsk()
    ensures forall name :: name in PATTERNS ==> NoPsk(PATTERNS[name].messagePatterns)
  {
    forall name | name in PATTERNS
      ensures NoPsk(PATTERNS[name].messagePatterns)
    {
      var mps := PATTERNS[name].messagePatterns;
      forall i | 0 <= i < |mps|
        ensures PSK !in mps[i].tokens
      {
        assert forall t :: t in mps[i].tokens ==> t != PSK;
      }
    }
  }

  /** Every entry of the table is well formed. */
  lemma PatternsWellFormed()
    ensures forall name :: name in PATTERNS ==> WellFormed(PATTERNS[name])
  {
    PatternsAlternate();
    PatternsPremessageTokens();
    PatternsNoPsk();
  }
}
