/**
  The echo filter on all of Unicode. `str.lower` can give more than one character for
  one, and ASCII for characters that are not; module Policy lowers ASCII letters only.
  For the listed patterns both give the same verdict on every message.
 */
module PolicyUnicode {
  import opened Json
  import opened Policy

  const KELVIN: CodePoint := 0x212A
  const DOTTED_I: CodePoint := 0x130

  /**
    What is known of `str.lower` of the character at position `i` of `s`, which may look
    at its surroundings: ASCII is lowered as usual, the Kelvin sign gives "k", a dotted
    capital I gives "i" and a combining dot, and any other character something that
    contains no ASCII.
   */
  ghost predicate LowersCharacter(at: (Text, nat) -> Text, s: Text, i: nat)
    requires i < |s|
  {
    if s[i] < 0x80 then at(s, i) == [LowerPoint(s[i])]
    else if s[i] == KELVIN then at(s, i) == [0x6B]
    else if s[i] == DOTTED_I then at(s, i) == [0x69, 0x307]
    else at(s, i) != [] && forall n | 0 <= n < |at(s, i)| :: at(s, i)[n] >= 0x80
  }

  ghost predicate LowersUnicode(at: (Text, nat) -> Text) {
    forall s, i: nat | i < |s| :: LowersCharacter(at, s, i)
  }

  /** `s[i:]` as it appears at the end of `s.lower()`. */
  function LoweredFrom(at: (Text, nat) -> Text, s: Text, i: nat): Text
    requires i <= |s|
    decreases |s| - i
  {
    if i == |s| then [] else at(s, i) + LoweredFrom(at, s, i + 1)
  }

  /** The verdict of `_echo_rule` with the whole of `str.lower`. */
  ghost predicate Rejects(at: (Text, nat) -> Text, message: Text) {
    exists k | 0 <= k < |SUSPICIOUS| :: Occurs(Lower(FromString(SUSPICIOUS[k])), LoweredFrom(at, message, 0))
  }

  /** ASCII only, without "k", and not ending in "i": so are the lowered patterns, and their ends. */
  predicate Insensitive(q: Text) {
    && (forall n | 0 <= n < |q| :: q[n] < 0x80 && q[n] != 0x6B)
    && (q != [] ==> q[|q| - 1] != 0x69)
  }

  lemma PatternsAreInsensitive(k: nat)
    requires k < |SUSPICIOUS|
    ensures Lower(FromString(SUSPICIOUS[k])) != [] && Insensitive(Lower(FromString(SUSPICIOUS[k])))
  {
  }

  predicate IsPrefix(q: Text, s: Text) {
    |q| <= |s| && s[..|q|] == q
  }

  lemma PrefixOfBlock(q: Text, block: Text, rest: Text)
    requires q != [] && block != [] && q[0] != block[0]
    ensures !IsPrefix(q, block + rest)
  {
  }

  lemma PrefixOfOne(q: Text, c: CodePoint, rest: Text)
    requires q != []
    ensures IsPrefix(q, [c] + rest) <==> q[0] == c && IsPrefix(q[1..], rest)
  {
    assert q == [q[0]] + q[1..];
    assert |q| <= |rest| + 1 ==> ([c] + rest)[..|q|] == [c] + rest[..|q| - 1];
  }

  /** At any place both ways of lowering have the same insensitive texts in front. */
  lemma {:induction false} SamePrefixes(at: (Text, nat) -> Text, s: Text, i: nat, q: Text)
    requires LowersUnicode(at) && i <= |s| && Insensitive(q)
    ensures IsPrefix(q, LoweredFrom(at, s, i)) <==> IsPrefix(q, Lower(s)[i..])
    decreases |q|
  {
    if q != [] && i < |s| {
      assert LowersCharacter(at, s, i);
      var rest := LoweredFrom(at, s, i + 1);
      assert Lower(s)[i..] == [LowerPoint(s[i])] + Lower(s)[i + 1..];
      PrefixOfOne(q, LowerPoint(s[i]), Lower(s)[i + 1..]);
      if s[i] < 0x80 {
        PrefixOfOne(q, LowerPoint(s[i]), rest);
        SamePrefixes(at, s, i + 1, q[1..]);
      } else if s[i] == DOTTED_I {
        PrefixOfOne(q, 0x69, [0x307] + rest);
        assert at(s, i) + rest == [0x69] + ([0x307] + rest);
        if |q| > 1 {
          PrefixOfBlock(q[1..], [0x307], rest);
        }
      } else {
        PrefixOfBlock(q, at(s, i), rest);
      }
    }
  }

  /** The text stands somewhere at or after position `i`. */
  ghost predicate OccursFrom(q: Text, s: Text, i: nat)
    requires i <= |s|
  {
    exists j: nat :: i <= j <= |s| && IsPrefix(q, s[j..])
  }

  lemma OccursIsPrefixSomewhere(q: Text, s: Text)
    ensures Occurs(q, s) <==> OccursFrom(q, s, 0)
  {
    if Occurs(q, s) {
      var i :| 0 <= i <= |s| && OccursAt(q, s, i);
      assert s[i..][..|q|] == s[i..i + |q|];
      assert IsPrefix(q, s[i..]);
    }
    if OccursFrom(q, s, 0) {
      var j: nat :| 0 <= j <= |s| && IsPrefix(q, s[j..]);
      assert s[j..][..|q|] == s[j..j + |q|];
      assert OccursAt(q, s, j);
    }
  }

  /** In a block followed by more text, an occurrence starts at the block or after it. */
  lemma OccursAfterBlock(q: Text, block: Text, rest: Text)
    requires q != [] && block != [] && q[0] < 0x80 && forall n | 1 <= n < |block| :: block[n] >= 0x80
    ensures OccursFrom(q, block + rest, 0) <==> IsPrefix(q, block + rest) || OccursFrom(q, rest, 0)
  {
    var all := block + rest;
    if OccursFrom(q, all, 0) {
      var j: nat :| 0 <= j <= |all| && IsPrefix(q, all[j..]);
      if j == 0 {
        assert all[0..] == all;
      } else if j >= |block| {
        assert all[j..] == rest[j - |block|..];
      }
    }
    if IsPrefix(q, all) {
      assert all[0..] == all && IsPrefix(q, all[0..]);
    }
    if OccursFrom(q, rest, 0) {
      var j: nat :| 0 <= j <= |rest| && IsPrefix(q, rest[j..]);
      var n: nat := |block| + j;
      assert all[n..] == rest[j..] && IsPrefix(q, all[n..]);
    }
  }

  lemma OccursFromNext(q: Text, s: Text, i: nat)
    requires i < |s|
    ensures OccursFrom(q, s, i) <==> IsPrefix(q, s[i..]) || OccursFrom(q, s, i + 1)
  {
  }

  lemma {:induction false} SameOccurrences(at: (Text, nat) -> Text, s: Text, i: nat, q: Text)
    requires LowersUnicode(at) && i <= |s| && Insensitive(q) && q != []
    ensures OccursFrom(q, LoweredFrom(at, s, i), 0) <==> OccursFrom(q, Lower(s), i)
    decreases |s| - i
  {
    if i < |s| {
      assert LowersCharacter(at, s, i);
      OccursAfterBlock(q, at(s, i), LoweredFrom(at, s, i + 1));
      OccursFromNext(q, Lower(s), i);
      SamePrefixes(at, s, i, q);
      SameOccurrences(at, s, i + 1, q);
    }
  }

  /** On every message the filter with the whole of `str.lower` decides as with ASCII letters lowered. */
  lemma UnicodeDoesNotMatter(at: (Text, nat) -> Text, message: Text)
    requires LowersUnicode(at)
    ensures Rejects(at, message) <==> EchoBlocked(message)
  {
    forall k: nat | k < |SUSPICIOUS|
      ensures Occurs(Lower(FromString(SUSPICIOUS[k])), LoweredFrom(at, message, 0)) <==> Matches(k, message)
    {
      var q := Lower(FromString(SUSPICIOUS[k]));
      PatternsAreInsensitive(k);
      OccursIsPrefixSomewhere(q, LoweredFrom(at, message, 0));
      OccursIsPrefixSomewhere(q, Lower(message));
      SameOccurrences(at, message, 0, q);
    }
  }
}
