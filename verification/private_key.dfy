/**
 * `formatPrivateKey` of the server's Firebase setup: the private key arrives
 * from the environment with its line breaks written as the two characters
 * backslash and `n`; every such pair, scanned left to right, becomes one
 * newline and every other character stays where it is.
 */
module PrivateKey {

  const Backslash: char := '\\'
  const Newline: char := '\n'

  /** A backslash directly followed by `n` at position `i`. */
  predicate PairAt(s: string, i: int) {
    0 <= i && i + 1 < |s| && s[i] == Backslash && s[i + 1] == 'n'
  }

  /** No backslash-`n` pair anywhere in `s`. */
  predicate NoPair(s: string) {
    forall i :: 0 <= i < |s| ==> !PairAt(s, i)
  }

  /** `key.replace(/\\n/g, '\n')`. */
  function FormatPrivateKey(s: string): (r: string)
    ensures NoPair(r)
    ensures |r| <= |s|
    // the first character is kept unless it opens a pair, which becomes a newline
    ensures |s| > 0 ==> |r| > 0 && r[0] == (if PairAt(s, 0) then Newline else s[0])
    decreases |s|
  {
    if |s| == 0 then []
    else
      var head := if PairAt(s, 0) then Newline else s[0];
      var rest := FormatPrivateKey(if PairAt(s, 0) then s[2..] else s[1..]);
      assert head == Backslash ==> |rest| == 0 || rest[0] != 'n' by {
        if head == Backslash && |rest| > 0 {
          assert s[1..][0] == s[1];
        }
      }
      assert forall i :: 1 <= i < |rest| + 1 ==> ([head] + rest)[i] == rest[i - 1];
      assert forall i :: 1 <= i < |rest| + 1 ==> (PairAt([head] + rest, i) ==> PairAt(rest, i - 1));
      [head] + rest
  }

  /** The number of pairs the left-to-right scan replaces. */
  function PairCount(s: string): nat
    decreases |s|
  {
    if |s| == 0 then 0
    else if PairAt(s, 0) then 1 + PairCount(s[2..])
    else PairCount(s[1..])
  }

  /** Each replaced pair shortens the key by one character. */
  lemma {:induction false} LengthDropsByPairs(s: string)
    ensures |FormatPrivateKey(s)| == |s| - PairCount(s)
    decreases |s|
  {
    if |s| == 0 {
    } else if PairAt(s, 0) {
      LengthDropsByPairs(s[2..]);
    } else {
      LengthDropsByPairs(s[1..]);
    }
  }

  /** A key without any pair is returned unchanged. */
  lemma {:induction false} NoPairUnchanged(s: string)
    requires NoPair(s)
    ensures FormatPrivateKey(s) == s
    decreases |s|
  {
    if |s| > 0 {
      assert !PairAt(s, 0);
      assert NoPair(s[1..]) by {
        forall i | 0 <= i < |s[1..]|
          ensures !PairAt(s[1..], i)
        {
          assert !PairAt(s, i + 1);
        }
      }
      NoPairUnchanged(s[1..]);
    }
  }

  /** Formatting a formatted key changes nothing more. */
  lemma Idempotent(s: string)
    ensures FormatPrivateKey(FormatPrivateKey(s)) == FormatPrivateKey(s)
  {
    NoPairUnchanged(FormatPrivateKey(s));
  }

  /** The way back: every newline written out again as backslash and `n`. */
  function Unformat(s: string): (r: string)
    ensures |r| >= |s|
  {
    if |s| == 0 then []
    else if s[0] == Newline then [Backslash, 'n'] + Unformat(s[1..])
    else [s[0]] + Unformat(s[1..])
  }

  /** No newline characters in `s`. */
  predicate SingleLine(s: string) {
    forall i :: 0 <= i < |s| ==> s[i] != Newline
  }

  /** `Unformat` works character by character. */
  lemma UnformatCons(c: char, t: string)
    ensures Unformat([c] + t) == (if c == Newline then [Backslash, 'n'] else [c]) + Unformat(t)
  {
    assert ([c] + t)[1..] == t;
  }

  /** Dropping the first `k` characters of a single-line key leaves a single-line key. */
  lemma SingleLineSuffix(s: string, k: nat)
    requires SingleLine(s) && k <= |s|
    ensures SingleLine(s[k..])
  {
    assert forall i :: 0 <= i < |s[k..]| ==> s[k..][i] == s[i + k];
  }

  /**
   * Every other character stays in place: for a key written on one line,
   * writing the newlines out again gives back exactly the key.
   */
  lemma {:induction false} UnformatRoundTrip(s: string)
    requires SingleLine(s)
    ensures Unformat(FormatPrivateKey(s)) == s
    decreases |s|
  {
    if |s| > 0 {
      var k := if PairAt(s, 0) then 2 else 1;
      SingleLineSuffix(s, k);
      UnformatRoundTrip(s[k..]);
      var head := if PairAt(s, 0) then Newline else s[0];
      assert FormatPrivateKey(s) == [head] + FormatPrivateKey(s[k..]);
      UnformatCons(head, FormatPrivateKey(s[k..]));
      assert s == s[..k] + s[k..];
    }
  }

  /** A worked case: the pair between `a` and `b` becomes one line break. */
  lemma Example()
    ensures FormatPrivateKey("a\\nb") == "a\nb"
  {
    assert PairAt("a\\nb", 1);
    assert !PairAt("a\\nb", 0);
    assert FormatPrivateKey("\\nb") == "\n" + FormatPrivateKey("b");
  }
}
