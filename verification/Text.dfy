/** The few string operations the gateway's conversions rely on. */
module Text {

  predicate OccursAt(s: string, sub: string, i: int) {
    0 <= i <= |s| - |sub| && s[i..i + |sub|] == sub
  }

  /** strings.Contains */
  predicate Contains(s: string, sub: string) {
    exists i :: 0 <= i <= |s| && OccursAt(s, sub, i)
  }

  lemma ContainsPart(before: string, sub: string, after: string)
    ensures Contains(before + sub + after, sub)
  {
    assert (before + sub + after)[|before|..|before| + |sub|] == sub;
    assert OccursAt(before + sub + after, sub, |before|);
  }

  lemma FirstLetter(s: string, sub: string, i: int)
    requires sub != "" && OccursAt(s, sub, i)
    ensures i < |s| && s[i] == sub[0]
  {
    assert s[i] == s[i..i + |sub|][0];
  }

  /** strings.Replace with a limit of one replacement. */
  function ReplaceFirst(s: string, old_: string, new_: string): (r: string)
    requires old_ != ""
  {
    if |s| < |old_| then s
    else if s[..|old_|] == old_ then new_ + s[|old_|..]
    else [s[0]] + ReplaceFirst(s[1..], old_, new_)
  }

  /** The first occurrence is replaced, wherever it is, and nothing else. */
  lemma {:induction false} ReplacesFirst(before: string, old_: string, after: string, new_: string)
    requires old_ != "" && forall i :: 0 <= i < |before| ==> !OccursAt(before + old_ + after, old_, i)
    ensures ReplaceFirst(before + old_ + after, old_, new_) == before + new_ + after
  {
    var s := before + old_ + after;
    if before == "" {
      assert s[..|old_|] == old_ && s[|old_|..] == after;
    } else {
      var tail := before[1..] + old_ + after;
      assert s[1..] == tail;
      assert !OccursAt(s, old_, 0);
      forall i | 0 <= i < |before[1..]|
        ensures !OccursAt(tail, old_, i)
      {
        assert !OccursAt(s, old_, i + 1);
        if i + |old_| <= |tail| {
          assert tail[i..i + |old_|] == s[i + 1..i + 1 + |old_|];
        }
      }
      ReplacesFirst(before[1..], old_, after, new_);
      assert [s[0]] + (before[1..] + new_ + after) == before + new_ + after;
    }
  }

  /** The part of a line before its first '='; the whole line when there is none. */
  function BeforeEquals(s: string): (r: string)
    ensures '=' !in r && r <= s
    ensures |r| < |s| ==> s[|r|] == '='
  {
    if s == "" || s[0] == '=' then "" else [s[0]] + BeforeEquals(s[1..])
  }

  function LowerChar(c: char): char {
    if 'A' <= c <= 'Z' then (c as int + 32) as char else c
  }

  function ToLower(s: string): (r: string)
    ensures |r| == |s|
  {
    seq(|s|, i requires 0 <= i < |s| => LowerChar(s[i]))
  }

  lemma {:induction false} BeforeEqualsOfPair(k: string, rest: string)
    requires '=' !in k
    ensures BeforeEquals(k + "=" + rest) == k
  {
    var s := k + "=" + rest;
    if k != "" {
      assert s[1..] == k[1..] + "=" + rest;
      BeforeEqualsOfPair(k[1..], rest);
    }
  }

  lemma {:induction false} BeforeEqualsOfPlain(s: string)
    requires '=' !in s
    ensures BeforeEquals(s) == s
  {
    if s != "" {
      BeforeEqualsOfPlain(s[1..]);
    }
  }
}
