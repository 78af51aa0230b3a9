/**
 * Splitting a handshake name such as "XXpsk0+psk2" into its base pattern ("XX") and its
 * modifiers (["psk0", "psk2"]), as the regular expression `^([A-Z]*)(.*)?$` followed by
 * `split('+')` does, and recognising `psk<digit>` modifiers with `^psk(\d)$`.
 */
module PatternName {
  import opened Wrappers

  predicate IsUpper(c: char)
  {
    'A' <= c <= 'Z'
  }

  /** The characters a JavaScript `.` does not match and `$` does not skip. */
  predicate IsLineTerminator(c: char)
  {
    c == '\n' || c == '\r' || c == '\U{2028}' || c == '\U{2029}'
  }

  /** The length of the leading run of upper-case letters. */
  function UpperRun(s: string): (n: nat)
    ensures n <= |s|
    ensures forall i :: 0 <= i < n ==> IsUpper(s[i])
    ensures n < |s| ==> !IsUpper(s[n])
  {
    if s == [] || !IsUpper(s[0]) then 0 else 1 + UpperRun(s[1..])
  }

  /** JavaScript's `s.split(sep)` for a one-character separator. */
  function SplitOn(s: string, sep: char): (parts: seq<string>)
    ensures |parts| >= 1
    ensures forall i :: 0 <= i < |parts| ==> sep !in parts[i]
  {
    if s == [] then [""]
    else
      var rest := SplitOn(s[1..], sep);
      if s[0] == sep then [""] + rest
      else [[s[0]] + rest[0]] + rest[1..]
  }

  /** JavaScript's `parts.join(sep)`. */
  function Join(parts: seq<string>, sep: char): string
    requires |parts| >= 1
  {
    if |parts| == 1 then parts[0] else parts[0] + [sep] + Join(parts[1..], sep)
  }

  /** Joining the pieces of a split gives back the string. */
  lemma {:induction false} JoinSplit(s: string, sep: char)
    ensures Join(SplitOn(s, sep), sep) == s
  {
    if s != [] {
      var rest := SplitOn(s[1..], sep);
      JoinSplit(s[1..], sep);
      if s[0] != sep {
        if |rest| == 1 {
          assert SplitOn(s, sep) == [[s[0]] + rest[0]];
        } else {
          assert SplitOn(s, sep)[1..] == rest[1..];
        }
      }
    }
  }

  /** Splitting a join of separator-free pieces gives back the pieces. */
  lemma {:induction false} SplitJoin(parts: seq<string>, sep: char)
    requires |parts| >= 1
    requires forall i :: 0 <= i < |parts| ==> sep !in parts[i]
    ensures SplitOn(Join(parts, sep), sep) == parts
  {
    if |parts| == 1 {
      SplitNoSep(parts[0], sep);
    } else {
      var t := [sep] + Join(parts[1..], sep);
      SplitJoin(parts[1..], sep);
      SplitPrefix(parts[0], t, sep);
      assert t[1..] == Join(parts[1..], sep);
      assert Join(parts, sep) == parts[0] + t;
      assert parts == [parts[0]] + parts[1..];
    }
  }

  lemma {:induction false} SplitNoSep(s: string, sep: char)
    requires sep !in s
    ensures SplitOn(s, sep) == [s]
  {
    if s != [] {
      SplitNoSep(s[1..], sep);
      assert [s[0]] + s[1..] == s;
    }
  }

  /** A separator-free prefix becomes the first piece of the split, followed by the pieces after the separator. */
  lemma {:induction false} SplitPrefix(p: string, t: string, sep: char)
    requires sep !in p && t != [] && t[0] == sep
    ensures SplitOn(p + t, sep) == [p] + SplitOn(t[1..], sep)
  {
    if p == [] {
      assert p + t == t;
    } else {
      SplitPrefix(p[1..], t, sep);
      assert (p + t)[1..] == p[1..] + t;
      assert [p[0]] + p[1..] == p;
    }
  }

  /** The result of matching a handshake name: its base pattern and its modifiers. */
  datatype ParsedName = ParsedName(pattern: string, modifiers: seq<string>)

  /**
   * `getPatternAndPskModifier`: the base is the maximal leading run of upper-case letters,
   * the rest split on '+' (no rest: no modifiers).  None when the regular expression does not
   * match, which happens exactly when the rest holds a line terminator.
   */
  function GetPatternAndModifiers(name: string): (r: Option<ParsedName>)
    ensures r.Some? <==> forall i :: UpperRun(name) <= i < |name| ==> !IsLineTerminator(name[i])
    ensures r.Some? ==> r.value.pattern == name[..UpperRun(name)]
    ensures r.Some? ==> forall i :: 0 <= i < |r.value.pattern| ==> IsUpper(r.value.pattern[i])
    ensures r.Some? ==> (r.value.modifiers == [] <==> |r.value.pattern| == |name|)
  {
    var n := UpperRun(name);
    var rest := name[n..];
    if exists i :: 0 <= i < |rest| && IsLineTerminator(rest[i]) then
      None
    else
      Some(ParsedName(name[..n], if rest == "" then [] else SplitOn(rest, '+')))
  }

  /** The base pattern followed by the '+'-joined modifiers is the name that was parsed. */
  lemma ParsedNameRoundTrip(name: string)
    requires GetPatternAndModifiers(name).Some?
    ensures var p := GetPatternAndModifiers(name).value;
      name == p.pattern + (if p.modifiers == [] then "" else Join(p.modifiers, '+'))
  {
    var n := UpperRun(name);
    assert name == name[..n] + name[n..];
    if name[n..] != "" {
      JoinSplit(name[n..], '+');
    }
  }

  function DigitChar(d: nat): char
    requires d < 10
  {
    ('0' as int + d) as char
  }

  /** `/^psk(\d)$/`: the index of a `psk<digit>` modifier, None for any other modifier. */
  function PskIndex(modifier: string): (k: Option<nat>)
    ensures k.Some? <==> |modifier| == 4 && modifier[..3] == "psk" && '0' <= modifier[3] <= '9'
    ensures k.Some? ==> k.value < 10 && modifier == "psk" + [DigitChar(k.value)]
  {
    if |modifier| == 4 && modifier[..3] == "psk" && '0' <= modifier[3] <= '9' then
      Some(modifier[3] as int - '0' as int)
    else
      None
  }

  /** Every digit gives a modifier that is recognised with that index. */
  lemma PskIndexOfDigit(d: nat)
    requires d < 10
    ensures PskIndex("psk" + [DigitChar(d)]) == Some(d)
  {
  }
}
