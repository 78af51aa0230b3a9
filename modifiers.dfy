/**
 * What the psk modifiers of `initialize` do to the message patterns.  The modifiers only add
 * PSK tokens, a `psk0` one at the front of the first message pattern and a `pskN` one at
 * the end of the N-th, which is where section 9.2 of the Noise Protocol Framework
 * (revision 34) places them.  The index bound the source checks is looser than the
 * indexing it then does; the lemmas here say which error each index gets.
 */
module Modifiers {
  import opened Wrappers
  import opened Patterns
  import opened PatternName
  import opened HandshakeSpec

  /** How many PSK tokens a message pattern carries. */
  function CountPsk(toks: seq<Token>): nat
  {
    multiset(toks)[PSK]
  }

  /** The tokens other than PSK, in order. */
  function Strip(toks: seq<Token>): (r: seq<Token>)
    ensures PSK !in r
  {
    if toks == [] then []
    else if toks[0] == PSK then Strip(toks[1..])
    else [toks[0]] + Strip(toks[1..])
  }

  /** Whether a psk index targets the i-th message pattern (psk0 and psk1 both target the first). */
  predicate Targets(k: nat, i: nat)
  {
    (k == 0 && i == 0) || k == i + 1
  }

  /** How many of the modifiers target the i-th message pattern. */
  function TargetCount(mods: seq<string>, i: nat): nat
  {
    if mods == [] then 0
    else
      var k := PskIndex(mods[0]);
      (if k.Some? && Targets(k.value, i) then 1 else 0) + TargetCount(mods[1..], i)
  }

  lemma StripInsert(toks: seq<Token>)
    ensures Strip([PSK] + toks) == Strip(toks)
  {
    assert ([PSK] + toks)[1..] == toks;
  }

  lemma {:induction false} StripAppend(toks: seq<Token>)
    ensures Strip(toks + [PSK]) == Strip(toks)
  {
    if toks != [] {
      assert (toks + [PSK])[1..] == toks[1..] + [PSK];
      StripAppend(toks[1..]);
    }
  }

  /** A successful run of modifiers is the first modifier's edit followed by the rest. */
  lemma ModifiersCons(q: seq<MessagePattern>, mods: seq<string>, count: Option<nat>)
    requires mods != [] && ApplyModifiers(q, mods, count).Ok?
    ensures PskIndex(mods[0]).Some?
    ensures var k := PskIndex(mods[0]).value;
            (if k == 0 then |q| > 0 else k <= |q|) &&
            ApplyModifiers(q, mods, count) == ApplyModifiers(PskEdit(q, k), mods[1..], Some(IncCount(count)))
  {
  }

  /** One edit adds one PSK token to the pattern it targets and leaves its other tokens alone. */
  lemma PskEditEffect(q: seq<MessagePattern>, k: nat, i: nat)
    requires (if k == 0 then |q| > 0 else k <= |q|) && i < |q|
    ensures Strip(PskEdit(q, k)[i].tokens) == Strip(q[i].tokens)
    ensures CountPsk(PskEdit(q, k)[i].tokens) == CountPsk(q[i].tokens) + (if Targets(k, i) then 1 else 0)
  {
    if k == 0 && i == 0 {
      StripInsert(q[0].tokens);
      assert multiset([PSK] + q[0].tokens) == multiset([PSK]) + multiset(q[0].tokens);
    } else if k != 0 && i == k - 1 {
      StripAppend(q[i].tokens);
      assert multiset(q[i].tokens + [PSK]) == multiset(q[i].tokens) + multiset([PSK]);
    }
  }

  /** Whether a token sequence ends with PSK. */
  predicate EndsWithPsk(toks: seq<Token>)
  {
    |toks| > 0 && toks[|toks| - 1] == PSK
  }

  /** One edit keeps a trailing PSK where there was one, and a pskN edit creates one on the N-th pattern. */
  lemma PskEditLast(q: seq<MessagePattern>, k: nat, n: nat)
    requires (if k == 0 then |q| > 0 else k <= |q|) && 1 <= n <= |q|
    requires EndsWithPsk(q[n - 1].tokens) || k == n
    ensures EndsWithPsk(PskEdit(q, k)[n - 1].tokens)
  {
  }

  /**
   * The modifiers change each message pattern only by adding PSK tokens: as many as there
   * are modifiers that target it; the role and the other tokens, in order, stay.
   */
  lemma {:induction false} ModifiersOnlyAddPsks(q: seq<MessagePattern>, mods: seq<string>, count: Option<nat>, i: nat)
    requires ApplyModifiers(q, mods, count).Ok? && i < |q|
    ensures var q' := ApplyModifiers(q, mods, count).value.0;
            q'[i].role == q[i].role && Strip(q'[i].tokens) == Strip(q[i].tokens)
    ensures var q' := ApplyModifiers(q, mods, count).value.0;
            CountPsk(q'[i].tokens) == CountPsk(q[i].tokens) + TargetCount(mods, i)
    decreases |mods|
  {
    if mods != [] {
      ModifiersCons(q, mods, count);
      var k := PskIndex(mods[0]).value;
      PskEditEffect(q, k, i);
      ModifiersOnlyAddPsks(PskEdit(q, k), mods[1..], Some(IncCount(count)), i);
    }
  }

  /** Once a psk0 modifier is applied, the first message pattern starts with PSK. */
  lemma {:induction false} Psk0First(q: seq<MessagePattern>, mods: seq<string>, count: Option<nat>)
    requires ApplyModifiers(q, mods, count).Ok?
    requires (|q| > 0 && |q[0].tokens| > 0 && q[0].tokens[0] == PSK) || exists j :: 0 <= j < |mods| && PskIndex(mods[j]) == Some(0)
    ensures var q' := ApplyModifiers(q, mods, count).value.0;
            |q'| > 0 && |q'[0].tokens| > 0 && q'[0].tokens[0] == PSK
    decreases |mods|
  {
    if mods != [] {
      ModifiersCons(q, mods, count);
      var k := PskIndex(mods[0]).value;
      var q1 := PskEdit(q, k);
      if !(|q1| > 0 && |q1[0].tokens| > 0 && q1[0].tokens[0] == PSK) {
        var j :| 0 <= j < |mods| && PskIndex(mods[j]) == Some(0);
        assert j != 0;
        assert PskIndex(mods[1..][j - 1]) == Some(0);
      }
      Psk0First(q1, mods[1..], Some(IncCount(count)));
    }
  }

  /** Once a pskN modifier (N at least 1) is applied, the N-th message pattern ends with PSK. */
  lemma {:induction false} PskNLast(q: seq<MessagePattern>, mods: seq<string>, count: Option<nat>, n: nat)
    requires ApplyModifiers(q, mods, count).Ok? && 1 <= n <= |q|
    requires EndsWithPsk(q[n - 1].tokens) || exists j :: 0 <= j < |mods| && PskIndex(mods[j]) == Some(n)
    ensures EndsWithPsk(ApplyModifiers(q, mods, count).value.0[n - 1].tokens)
    decreases |mods|
  {
    if mods != [] {
      ModifiersCons(q, mods, count);
      var k := PskIndex(mods[0]).value;
      if !EndsWithPsk(q[n - 1].tokens) && k != n {
        var j :| 0 <= j < |mods| && PskIndex(mods[j]) == Some(n);
        assert PskIndex(mods[1..][j - 1]) == Some(n);
        PskNLast(PskEdit(q, k), mods[1..], Some(IncCount(count)), n);
      } else {
        PskEditLast(q, k, n);
        PskNLast(PskEdit(q, k), mods[1..], Some(IncCount(count)), n);
      }
    }
  }

  /**
   * A single `psk<k>` modifier: it fails exactly when the pattern it names does not exist,
   * and it fails with the bound-check error only when the pattern count is below k / 2.
   * Every other out-of-range index gets past the bound check and fails on the lookup.
   */
  lemma SinglePskModifier(q: seq<MessagePattern>, k: nat, count: Option<nat>)
    requires k < 10
    ensures var r := ApplyModifiers(q, ["psk" + [DigitChar(k)]], count);
            r.Err? <==> (if k == 0 then |q| == 0 else |q| < k)
    ensures var r := ApplyModifiers(q, ["psk" + [DigitChar(k)]], count);
            r == Err(BadPskModifier) <==> |q| < k / 2
    ensures var r := ApplyModifiers(q, ["psk" + [DigitChar(k)]], count);
            r.Ok? ==> r.value == (PskEdit(q, k), Some(IncCount(count)))
  {
    PskIndexOfDigit(k);
    var mods := ["psk" + [DigitChar(k)]];
    assert mods[1..] == [];
  }

  /** NN has two message patterns: psk3 passes the bound check (2 >= 1) and then names no pattern. */
  lemma Psk3OnNN()
    ensures ApplyModifiers(PATTERNS["NN"].messagePatterns, ["psk3"], None) == Err(NoSuchMessagePattern)
  {
    SinglePskModifier(PATTERNS["NN"].messagePatterns, 3, None);
    assert "psk" + [DigitChar(3)] == "psk3";
  }

  /** The literal psk0 edit on the array form inserts PSK right after the role. */
  lemma LiteralPsk0EditInserts(mp: MessagePattern)
    ensures LiteralPsk0Edit(AsArray(mp)) == AsArray(InsertPsk0(mp))
  {
    var a := AsArray(mp);
    var b := AsArray(InsertPsk0(mp));
    var e := LiteralPsk0Edit(a);
    assert |e| == |b|;
    forall i | 0 <= i < |e|
      ensures e[i] == b[i]
    {
      if i >= 2 {
        assert e[i] == a[i - 1];
      }
    }
  }
}
