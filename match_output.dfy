/**
 * How MatchHandler reads the matcher's standard output: Go's
 * `strings.TrimSpace`, the "no match" sentinels, and then `strconv.Atoi`
 * (module Strconv).
 */
module MatchOutput {
  import opened Wrappers
  import opened Strconv

  /** Go's `unicode.IsSpace`. */
  predicate IsSpace(c: char)
  {
    || c == '\t' || c == '\n' || c == '\U{0B}' || c == '\U{0C}' || c == '\r' || c == ' '
    || c == '\U{85}' || c == '\U{A0}' || c == '\U{1680}'
    || ('\U{2000}' <= c <= '\U{200A}')
    || c == '\U{2028}' || c == '\U{2029}' || c == '\U{202F}' || c == '\U{205F}' || c == '\U{3000}'
  }

  predicate AllSpace(s: string)
  {
    forall i | 0 <= i < |s| :: IsSpace(s[i])
  }

  function TrimLeft(s: string): (r: string)
    ensures |r| <= |s| && r == s[|s| - |r|..]
    ensures AllSpace(s[..|s| - |r|])
    ensures r == [] || !IsSpace(r[0])
  {
    if s != [] && IsSpace(s[0]) then
      var r := TrimLeft(s[1..]);
      TrimLeftStep(s, r);
      r
    else s
  }

  /** Dropping one leading space keeps `r` a suffix with only white space before it. */
  lemma TrimLeftStep(s: string, r: string)
    requires s != [] && IsSpace(s[0])
    requires |r| <= |s| - 1 && r == s[1..][|s| - 1 - |r|..] && AllSpace(s[1..][..|s| - 1 - |r|])
    ensures r == s[|s| - |r|..] && AllSpace(s[..|s| - |r|])
  {
    assert s[1..][|s| - 1 - |r|..] == s[|s| - |r|..];
    forall i | 0 <= i < |s| - |r| ensures IsSpace(s[i]) {
      if i > 0 {
        assert s[i] == s[1..][..|s| - 1 - |r|][i - 1];
      }
    }
  }

  function TrimRight(s: string): (r: string)
    ensures |r| <= |s| && r == s[..|r|]
    ensures AllSpace(s[|r|..])
    ensures r == [] || !IsSpace(r[|r| - 1])
  {
    if s != [] && IsSpace(s[|s| - 1]) then
      var r := TrimRight(s[..|s| - 1]);
      TrimRightStep(s, r);
      r
    else s
  }

  /** Dropping one trailing space keeps `r` a prefix with only white space after it. */
  lemma TrimRightStep(s: string, r: string)
    requires s != [] && IsSpace(s[|s| - 1])
    requires |r| <= |s| - 1 && r == s[..|s| - 1][..|r|] && AllSpace(s[..|s| - 1][|r|..])
    ensures r == s[..|r|] && AllSpace(s[|r|..])
  {
    assert s[..|s| - 1][..|r|] == s[..|r|];
    forall i | 0 <= i < |s| - |r| ensures IsSpace(s[|r|..][i]) {
      if |r| + i < |s| - 1 {
        assert s[|r|..][i] == s[..|s| - 1][|r|..][i];
      }
    }
  }

  /** `r` is `s[i..j]`, and everything outside it is white space. */
  predicate SpaceAround(s: string, r: string, i: nat, j: nat)
  {
    i <= j <= |s| && r == s[i..j] && AllSpace(s[..i]) && AllSpace(s[j..])
  }

  /** Neither end of `r` is white space. */
  predicate NoSpaceAtEnds(r: string)
  {
    r == [] || (!IsSpace(r[0]) && !IsSpace(r[|r| - 1]))
  }

  /** `strings.TrimSpace`: the slice left after dropping white space at both ends. */
  function TrimSpace(s: string): (r: string)
    ensures exists i: nat, j: nat :: SpaceAround(s, r, i, j)
    ensures NoSpaceAtEnds(r)
  {
    var l := TrimLeft(s);
    var r := TrimRight(l);
    TrimBothEnds(s, l, r);
    r
  }

  /** Trimming the left end and then the right end leaves a slice with white space around it. */
  lemma TrimBothEnds(s: string, l: string, r: string)
    requires |l| <= |s| && l == s[|s| - |l|..] && AllSpace(s[..|s| - |l|]) && (l == [] || !IsSpace(l[0]))
    requires |r| <= |l| && r == l[..|r|] && AllSpace(l[|r|..]) && (r == [] || !IsSpace(r[|r| - 1]))
    ensures SpaceAround(s, r, |s| - |l|, |s| - |l| + |r|) && NoSpaceAtEnds(r)
  {
    assert s[|s| - |l| + |r|..] == l[|r|..];
    if r != [] {
      assert r[0] == l[0];
    }
  }

  // ---------------------------------------------------------- classifier

  datatype MatchResult = NoMatch | Unparsable(cause: NumError) | Matched(userId: int)

  /**
   * Lines 182-194 of handlers.go: trim the output; empty or `None` means no
   * match; otherwise it must be an `Atoi` integer.
   */
  function ClassifyMatcherOutput(output: string): (m: MatchResult)
    ensures m == NoMatch <==> TrimSpace(output) == "" || TrimSpace(output) == "None"
    ensures m.Matched? ==> Atoi(TrimSpace(output)) == Success(m.userId)
    ensures m.Unparsable? ==> Atoi(TrimSpace(output)) == Failure(m.cause)
  {
    var userIdStr := TrimSpace(output);
    if userIdStr == "" || userIdStr == "None" then NoMatch
    else
      match Atoi(userIdStr)
      case Failure(e) => Unparsable(e)
      case Success(id) => Matched(id)
  }

  lemma {:induction false} TrimLeftSkipsSpace(pre: string, s: string)
    requires AllSpace(pre)
    ensures TrimLeft(pre + s) == TrimLeft(s)
  {
    if pre == [] {
      assert pre + s == s;
    } else {
      assert (pre + s)[0] == pre[0];
      assert (pre + s)[1..] == pre[1..] + s;
      TrimLeftSkipsSpace(pre[1..], s);
    }
  }

  lemma {:induction false} TrimRightSkipsSpace(s: string, post: string)
    requires AllSpace(post)
    ensures TrimRight(s + post) == TrimRight(s)
  {
    if post == [] {
      assert s + post == s;
    } else {
      var p := post[..|post| - 1];
      assert (s + post)[|s + post| - 1] == post[|post| - 1];
      assert (s + post)[..|s + post| - 1] == s + p;
      TrimRightSkipsSpace(s, p);
    }
  }

  lemma {:induction false} TrimLeftKeepsSuffix(s: string, post: string)
    requires AllSpace(post)
    requires TrimLeft(s) != []
    ensures TrimLeft(s + post) == TrimLeft(s) + post
  {
    if s != [] && IsSpace(s[0]) {
      assert (s + post)[1..] == s[1..] + post;
      TrimLeftKeepsSuffix(s[1..], post);
    }
  }

  /** White space around the output is dropped by the trim. */
  lemma TrimAround(pre: string, s: string, post: string)
    requires AllSpace(pre) && AllSpace(post)
    ensures TrimSpace(pre + s + post) == TrimSpace(s)
  {
    assert pre + s + post == pre + (s + post);
    TrimLeftSkipsSpace(pre, s + post);
    if TrimLeft(s) == [] {
      BlankThenSpace(s, post);
    } else {
      TrimLeftKeepsSuffix(s, post);
      TrimRightSkipsSpace(TrimLeft(s), post);
    }
  }

  /** A blank string followed by white space is still blank. */
  lemma BlankThenSpace(s: string, post: string)
    requires AllSpace(post) && TrimLeft(s) == []
    ensures TrimLeft(s + post) == []
  {
    assert s[..|s|] == s;
    forall i | 0 <= i < |s + post| ensures IsSpace((s + post)[i]) {
      if i < |s| { assert (s + post)[i] == s[i]; } else { assert (s + post)[i] == post[i - |s|]; }
    }
    AllSpaceTrimsToEmpty(s + post);
  }

  /** White space around the output never changes how it is classified. */
  lemma SpaceAroundOutput(pre: string, s: string, post: string)
    requires AllSpace(pre) && AllSpace(post)
    ensures ClassifyMatcherOutput(pre + s + post) == ClassifyMatcherOutput(s)
  {
    TrimAround(pre, s, post);
  }

  lemma {:induction false} AllSpaceTrimsToEmpty(s: string)
    requires AllSpace(s)
    ensures TrimLeft(s) == []
  {
    if s != [] {
      AllSpaceTrimsToEmpty(s[1..]);
    }
  }

  /** A decimal integer starts with `-` or a digit and ends with a digit. */
  lemma FormatIntEnds(n: int)
    ensures var s := FormatInt(n);
      s != [] && (s[0] == '-' || IsDigit(s[0])) && IsDigit(s[|s| - 1])
  {
    NatDigitsValue(if n < 0 then -n else n);
  }

  lemma TrimKeepsFormattedInt(n: int)
    ensures FormatInt(n) != [] && FormatInt(n) != "None"
    ensures TrimSpace(FormatInt(n)) == FormatInt(n)
  {
    var s := FormatInt(n);
    FormatIntEnds(n);
    assert !IsSpace(s[0]) && !IsSpace(s[|s| - 1]);
    assert s != "None" by {
      assert s[0] != 'N';
    }
    assert TrimLeft(s) == s;
    assert TrimRight(s) == s;
  }

  /** The printed line of a decimal integer trims back to the integer. */
  lemma TrimPrintedLine(n: int)
    ensures TrimSpace(FormatInt(n) + "\n") == FormatInt(n)
  {
    var s := FormatInt(n);
    TrimKeepsFormattedInt(n);
    TrimAround([], s, "\n");
    assert [] + s + "\n" == s + "\n";
  }

  /**
   * The matcher prints `str(user_id)` followed by a newline: the handler
   * reads back exactly that id.
   */
  lemma PrintedMatcherOutput(userId: int)
    requires MinInt64 <= userId <= MaxInt64
    ensures ClassifyMatcherOutput(FormatInt(userId) + "\n") == Matched(userId)
  {
    TrimPrintedLine(userId);
    TrimKeepsFormattedInt(userId);
    AtoiFormatInt(userId);
  }

  /** The matcher prints an empty line when nothing matches: no match. */
  lemma EmptyMatcherOutput()
    ensures ClassifyMatcherOutput("\n") == NoMatch
  {
    var out := "\n";
    assert AllSpace(out) by { assert IsSpace(out[0]); }
    AllSpaceTrimsToEmpty(out);
    assert TrimRight(TrimLeft(out)) == [];
    assert TrimSpace(out) == [];
  }
}
