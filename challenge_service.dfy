/**
 * Answer checking (ChallengeService): an answer is compared with the expected one after both
 * are normalised: trimmed, every run of white space collapsed to one space, and lower-cased.
 * The challenge catalogue that supplies the expected answer is not part of this model; the
 * expected answer is a parameter.
 */
module ChallengeService {
  import opened Wrappers
  import opened JavaStrings

  /** The string without its leading \s characters. */
  function DropSpaces(s: string): (r: string)
    ensures |r| <= |s|
    ensures s != [] && !IsRegexSpace(s[|s| - 1]) ==> r != [] && r[|r| - 1] == s[|s| - 1]
    ensures r == [] || !IsRegexSpace(r[0])
  {
    if s == [] || !IsRegexSpace(s[0]) then s else DropSpaces(s[1..])
  }

  /** No \s character but the plain space, and no two of them in a row. */
  predicate Collapsed(s: string)
    decreases |s|
  {
    s == [] ||
    ((IsRegexSpace(s[0]) ==> s[0] == ' ' && (|s| > 1 ==> !IsRegexSpace(s[1]))) && Collapsed(s[1..]))
  }

  lemma {:induction false} LowerKeepsCollapsed(s: string)
    requires Collapsed(s)
    ensures Collapsed(ToLower(s))
    decreases |s|
  {
    if s != [] {
      assert ToLower(s)[1..] == ToLower(s[1..]);
      LowerKeepsCollapsed(s[1..]);
    }
  }

  /** replaceAll("\\s+", " "): every maximal run of \s characters becomes one space. */
  function Collapse(s: string): (r: string)
    ensures |r| <= |s|
    ensures s != [] ==> r != [] && r[0] == (if IsRegexSpace(s[0]) then ' ' else s[0])
    ensures s != [] && !IsRegexSpace(s[|s| - 1]) ==> r[|r| - 1] == s[|s| - 1]
    decreases |s|
  {
    if s == [] then []
    else if IsRegexSpace(s[0]) then [' '] + Collapse(DropSpaces(s[1..]))
    else [s[0]] + Collapse(s[1..])
  }

  lemma {:induction false} CollapseIsCollapsed(s: string)
    ensures Collapsed(Collapse(s))
    decreases |s|
  {
    if s != [] {
      var r := Collapse(s);
      if IsRegexSpace(s[0]) {
        CollapseIsCollapsed(DropSpaces(s[1..]));
        assert r[1..] == Collapse(DropSpaces(s[1..]));
      } else {
        CollapseIsCollapsed(s[1..]);
        assert r[1..] == Collapse(s[1..]);
      }
    }
  }

  /** normalize: null is the empty string; otherwise trimmed, white space collapsed, lower-cased. */
  function Normalize(s: Option<string>): (r: string)
    ensures s.None? ==> r == ""
    ensures r == [] || (!IsTrimmable(r[0]) && !IsTrimmable(r[|r| - 1]))
    ensures Collapsed(r)
    ensures forall i :: 0 <= i < |r| ==> !('A' <= r[i] <= 'Z')
  {
    if s.None? then ""
    else
      var t := Trim(s.value);
      CollapseTrimmedFacts(t);
      LowerFacts(Collapse(t));
      ToLower(Collapse(t))
  }

  /** Collapsing a trimmed string keeps its ends and leaves no run of \s characters. */
  lemma CollapseTrimmedFacts(t: string)
    requires t == [] || (!IsTrimmable(t[0]) && !IsTrimmable(t[|t| - 1]))
    ensures var c := Collapse(t); (c == [] || (!IsTrimmable(c[0]) && !IsTrimmable(c[|c| - 1]))) && Collapsed(c)
  {
    if t != [] {
      assert !IsRegexSpace(t[0]) && !IsRegexSpace(t[|t| - 1]);
    }
    CollapseIsCollapsed(t);
  }

  lemma LowerFacts(c: string)
    requires c == [] || (!IsTrimmable(c[0]) && !IsTrimmable(c[|c| - 1]))
    requires Collapsed(c)
    ensures var r := ToLower(c);
      (r == [] || (!IsTrimmable(r[0]) && !IsTrimmable(r[|r| - 1]))) &&
      Collapsed(r) && forall i :: 0 <= i < |r| ==> !('A' <= r[i] <= 'Z')
  {
    LowerKeepsCollapsed(c);
    var r := ToLower(c);
    forall i | 0 <= i < |r| ensures !('A' <= r[i] <= 'Z') {
      LowerCharNotUpper(c[i]);
    }
    if c != [] {
      LowerCharTrimmable(c[0]);
      LowerCharTrimmable(c[|c| - 1]);
    }
  }

  lemma LowerCharNotUpper(c: char)
    ensures !('A' <= ToLowerChar(c) <= 'Z')
  {
  }

  lemma LowerCharTrimmable(c: char)
    ensures IsTrimmable(ToLowerChar(c)) == IsTrimmable(c)
  {
  }

  /** checkAnswer, given the expected answer of the challenge. */
  predicate CheckAnswer(expected: Option<string>, guess: Option<string>)
  {
    Normalize(expected) == Normalize(guess)
  }

  // ---------------------------------------------------------------------------------------
  // Idempotence
  // ---------------------------------------------------------------------------------------

  /** A collapsed string is left as it is. */
  lemma {:induction false} CollapseFixed(s: string)
    requires Collapsed(s)
    ensures Collapse(s) == s
    decreases |s|
  {
    if s != [] {
      if IsRegexSpace(s[0]) {
        assert DropSpaces(s[1..]) == s[1..];
      }
      CollapseFixed(s[1..]);
    }
  }

  /** Lower-casing a string without upper-case letters leaves it as it is. */
  lemma LowerFixed(s: string)
    requires forall i :: 0 <= i < |s| ==> !('A' <= s[i] <= 'Z')
    ensures ToLower(s) == s
  {
  }

  /** Normalising twice is normalising once. */
  lemma NormalizeIdempotent(s: Option<string>)
    ensures Normalize(Some(Normalize(s))) == Normalize(s)
  {
    var n := Normalize(s);
    TrimIdentity(n);
    CollapseFixed(n);
    LowerFixed(n);
  }

  // ---------------------------------------------------------------------------------------
  // Case
  // ---------------------------------------------------------------------------------------

  lemma {:induction false} TrimLeftLower(s: string)
    ensures TrimLeft(ToLower(s)) == ToLower(TrimLeft(s))
    decreases |s|
  {
    if s != [] {
      assert ToLower(s)[1..] == ToLower(s[1..]);
      TrimLeftLower(s[1..]);
    }
  }

  lemma {:induction false} TrimRightLower(s: string)
    ensures TrimRight(ToLower(s)) == ToLower(TrimRight(s))
    decreases |s|
  {
    if s != [] {
      assert ToLower(s)[..|s| - 1] == ToLower(s[..|s| - 1]);
      TrimRightLower(s[..|s| - 1]);
    }
  }

  lemma {:induction false} DropSpacesLower(s: string)
    ensures DropSpaces(ToLower(s)) == ToLower(DropSpaces(s))
    decreases |s|
  {
    if s != [] {
      assert ToLower(s)[1..] == ToLower(s[1..]);
      DropSpacesLower(s[1..]);
    }
  }

  lemma {:induction false} CollapseLower(s: string)
    ensures Collapse(ToLower(s)) == ToLower(Collapse(s))
    decreases |s|
  {
    if s != [] {
      assert ToLower(s)[1..] == ToLower(s[1..]);
      if IsRegexSpace(s[0]) {
        DropSpacesLower(s[1..]);
        CollapseLower(DropSpaces(s[1..]));
      } else {
        CollapseLower(s[1..]);
      }
    }
  }

  lemma LowerIdempotent(s: string)
    ensures ToLower(ToLower(s)) == ToLower(s)
  {
  }

  /** normalize sees only the lower-cased string: upper and lower case are the same to it. */
  lemma NormalizeIgnoresCase(s: string)
    ensures Normalize(Some(ToLower(s))) == Normalize(Some(s))
  {
    TrimLeftLower(s);
    TrimRightLower(TrimLeft(s));
    CollapseLower(Trim(s));
    LowerIdempotent(Collapse(Trim(s)));
  }

  // ---------------------------------------------------------------------------------------
  // Spaces
  // ---------------------------------------------------------------------------------------

  lemma {:induction false} DropSpacesAppend(a: string, b: string)
    ensures DropSpaces(a + b) == if DropSpaces(a) == [] then DropSpaces(b) else DropSpaces(a) + b
    decreases |a|
  {
    if a != [] {
      assert (a + b)[1..] == a[1..] + b;
      if IsRegexSpace(a[0]) {
        DropSpacesAppend(a[1..], b);
      }
    } else {
      assert a + b == b;
    }
  }

  lemma DropSpacesSpace(c: char, y: string)
    requires IsRegexSpace(c)
    ensures DropSpaces([c] + y) == DropSpaces(y)
  {
    assert ([c] + y)[1..] == y;
  }

  lemma CollapseCons(c: char, y: string)
    ensures Collapse([c] + y) == if IsRegexSpace(c) then [' '] + Collapse(DropSpaces(y)) else [c] + Collapse(y)
  {
    assert ([c] + y)[1..] == y;
  }

  lemma DoubledAtFront(c: char, d: char, y: string)
    requires IsRegexSpace(c) && IsRegexSpace(d)
    ensures Collapse([c, d] + y) == Collapse([c] + y)
  {
    assert [c, d] + y == [c] + ([d] + y);
    CollapseCons(c, [d] + y);
    CollapseCons(c, y);
    DropSpacesSpace(d, y);
  }

  lemma DoubledAfterChar(a: char, rest: string, c: char, d: char, y: string)
    requires !IsRegexSpace(a)
    requires Collapse(rest + [c, d] + y) == Collapse(rest + [c] + y)
    ensures Collapse([a] + rest + [c, d] + y) == Collapse([a] + rest + [c] + y)
  {
    assert [a] + rest + [c, d] + y == [a] + (rest + [c, d] + y);
    assert [a] + rest + [c] + y == [a] + (rest + [c] + y);
    CollapseCons(a, rest + [c, d] + y);
    CollapseCons(a, rest + [c] + y);
  }

  /** Leading \s characters dropped in front of one \s character. */
  lemma DropBeforeSpace(rest: string, c: char, z: string)
    requires IsRegexSpace(c)
    ensures DropSpaces(rest + [c] + z) ==
      if DropSpaces(rest) == [] then DropSpaces(z) else DropSpaces(rest) + [c] + z
  {
    assert rest + [c] + z == rest + ([c] + z);
    DropSpacesAppend(rest, [c] + z);
    var x' := DropSpaces(rest);
    if x' == [] {
      DropSpacesSpace(c, z);
    } else {
      assert x' + ([c] + z) == x' + [c] + z;
    }
  }

  /** Leading \s characters dropped in front of two \s characters. */
  lemma DropBeforeTwoSpaces(rest: string, c: char, d: char, y: string)
    requires IsRegexSpace(c) && IsRegexSpace(d)
    ensures DropSpaces(rest + [c, d] + y) ==
      if DropSpaces(rest) == [] then DropSpaces(y) else DropSpaces(rest) + [c, d] + y
  {
    var z := [d] + y;
    assert rest + [c, d] + y == rest + [c] + z;
    DropBeforeSpace(rest, c, z);
    if DropSpaces(rest) == [] {
      DropSpacesSpace(d, y);
    } else {
      assert DropSpaces(rest) + [c] + z == DropSpaces(rest) + [c, d] + y;
    }
  }

  lemma DoubledAfterSpace(a: char, rest: string, c: char, d: char, y: string)
    requires IsRegexSpace(a) && IsRegexSpace(c) && IsRegexSpace(d)
    requires DropSpaces(rest) != [] ==>
      Collapse(DropSpaces(rest) + [c, d] + y) == Collapse(DropSpaces(rest) + [c] + y)
    ensures Collapse([a] + rest + [c, d] + y) == Collapse([a] + rest + [c] + y)
  {
    assert [a] + rest + [c, d] + y == [a] + (rest + [c, d] + y);
    assert [a] + rest + [c] + y == [a] + (rest + [c] + y);
    CollapseCons(a, rest + [c, d] + y);
    CollapseCons(a, rest + [c] + y);
    DropBeforeTwoSpaces(rest, c, d, y);
    DropBeforeSpace(rest, c, y);
  }

  /** A doubled \s character inside a string collapses as a single one would. */
  lemma {:induction false} CollapseDoubledSpace(x: string, c: char, d: char, y: string)
    requires IsRegexSpace(c) && IsRegexSpace(d)
    ensures Collapse(x + [c, d] + y) == Collapse(x + [c] + y)
    decreases |x|
  {
    if x == [] {
      assert x + [c, d] + y == [c, d] + y && x + [c] + y == [c] + y;
      DoubledAtFront(c, d, y);
    } else {
      var rest := x[1..];
      assert x == [x[0]] + rest;
      if IsRegexSpace(x[0]) {
        if DropSpaces(rest) != [] {
          CollapseDoubledSpace(DropSpaces(rest), c, d, y);
        }
        DoubledAfterSpace(x[0], rest, c, d, y);
      } else {
        CollapseDoubledSpace(rest, c, d, y);
        DoubledAfterChar(x[0], rest, c, d, y);
      }
    }
  }

  /** White space around the answer does not matter. */
  lemma NormalizeIgnoresPadding(pre: string, s: string, post: string)
    requires forall i :: 0 <= i < |pre| ==> IsTrimmable(pre[i])
    requires forall i :: 0 <= i < |post| ==> IsTrimmable(post[i])
    requires s == [] || (!IsTrimmable(s[0]) && !IsTrimmable(s[|s| - 1]))
    ensures Normalize(Some(pre + s + post)) == Normalize(Some(s))
  {
    TrimIgnoresPadding(pre, s, post);
    TrimIdentity(s);
  }

  /** A doubled white-space character between two words does not matter. */
  lemma NormalizeIgnoresDoubledSpace(x: string, c: char, d: char, y: string)
    requires IsRegexSpace(c) && IsRegexSpace(d)
    requires x != [] && y != [] && !IsTrimmable(x[0]) && !IsTrimmable(y[|y| - 1])
    ensures Normalize(Some(x + [c, d] + y)) == Normalize(Some(x + [c] + y))
  {
    var long := x + [c, d] + y;
    var short := x + [c] + y;
    assert long[0] == x[0] && long[|long| - 1] == y[|y| - 1];
    assert short[0] == x[0] && short[|short| - 1] == y[|y| - 1];
    TrimIdentity(long);
    TrimIdentity(short);
    CollapseDoubledSpace(x, c, d, y);
  }

  /**
   * checkAnswer accepts the expected answer typed in upper case and padded with white space.
   */
  lemma CheckAnswerAcceptsShouting(answer: string, pre: string, post: string)
    requires forall i :: 0 <= i < |pre| ==> IsTrimmable(pre[i])
    requires forall i :: 0 <= i < |post| ==> IsTrimmable(post[i])
    requires answer == [] || (!IsTrimmable(answer[0]) && !IsTrimmable(answer[|answer| - 1]))
    ensures CheckAnswer(Some(answer), Some(pre + ToUpper(answer) + post))
  {
    var u := ToUpper(answer);
    if answer != [] {
      UpperCharTrimmable(answer[0]);
      UpperCharTrimmable(answer[|answer| - 1]);
    }
    NormalizeIgnoresPadding(pre, u, post);
    NormalizeIgnoresCase(u);
    NormalizeIgnoresCase(answer);
    UpperThenLower(answer);
  }

  lemma UpperCharTrimmable(c: char)
    ensures IsTrimmable(ToUpperChar(c)) == IsTrimmable(c)
  {
  }

  lemma UpperThenLower(s: string)
    ensures ToLower(ToUpper(s)) == ToLower(s)
  {
    forall i | 0 <= i < |s| ensures ToLowerChar(ToUpperChar(s[i])) == ToLowerChar(s[i]) {
    }
  }

  /** checkAnswer is an equivalence: reflexive, symmetric and transitive. */
  lemma CheckAnswerEquivalence(a: Option<string>, b: Option<string>, c: Option<string>)
    ensures CheckAnswer(a, a)
    ensures CheckAnswer(a, b) ==> CheckAnswer(b, a)
    ensures CheckAnswer(a, b) && CheckAnswer(b, c) ==> CheckAnswer(a, c)
  {
  }
}
