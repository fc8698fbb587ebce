/** One account has many spellings: comparing agent ids trimmed and case-folded sees through all of them. */
module AgentNames {
  import opened Approvals

  ghost predicate Blank(s: string) {
    forall i :: 0 <= i < |s| ==> IsSpace(s[i])
  }

  lemma {:induction false} TrimLeftSkips(blank: string, s: string)
    requires Blank(blank)
    ensures TrimLeft(blank + s) == TrimLeft(s)
  {
    if blank == [] {
      assert blank + s == s;
    } else {
      assert (blank + s)[0] == blank[0] && (blank + s)[1..] == blank[1..] + s;
      TrimLeftSkips(blank[1..], s);
    }
  }

  lemma {:induction false} TrimRightSkips(s: string, blank: string)
    requires Blank(blank)
    ensures TrimRight(s + blank) == TrimRight(s)
  {
    if blank == [] {
      assert s + blank == s;
    } else {
      var n := |blank| - 1;
      assert (s + blank)[|s + blank| - 1] == blank[n] && (s + blank)[..|s + blank| - 1] == s + blank[..n];
      TrimRightSkips(s, blank[..n]);
    }
  }

  lemma {:induction false} TrimLeftBlank(s: string)
    requires Blank(s)
    ensures TrimLeft(s) == []
  {
    if s != [] {
      TrimLeftBlank(s[1..]);
    }
  }

  /** Trimming on the left does not see what follows a character that stays. */
  lemma {:induction false} TrimLeftKeepsTail(s: string, tail: string)
    ensures Blank(s) || TrimLeft(s + tail) == TrimLeft(s) + tail
  {
    if s != [] && IsSpace(s[0]) {
      assert (s + tail)[1..] == s[1..] + tail;
      TrimLeftKeepsTail(s[1..], tail);
      if Blank(s[1..]) {
        assert forall i :: 0 < i < |s| ==> s[i] == s[1..][i - 1];
      }
    }
  }

  lemma PaddingIgnored(left: string, s: string, right: string)
    requires Blank(left) && Blank(right)
    ensures SameAgent(left + s + right, s)
  {
    assert left + s + right == left + (s + right);
    TrimLeftSkips(left, s + right);
    if Blank(s) {
      TrimLeftBlank(s);
      TrimLeftBlank(s + right);
    } else {
      TrimLeftKeepsTail(s, right);
      TrimRightSkips(TrimLeft(s), right);
    }
  }

  lemma {:induction false} LowerCommutesLeft(s: string)
    ensures TrimLeft(Lower(s)) == Lower(TrimLeft(s))
  {
    if s != [] && IsSpace(s[0]) {
      assert Lower(s)[1..] == Lower(s[1..]);
      LowerCommutesLeft(s[1..]);
    }
  }

  lemma {:induction false} LowerCommutesRight(s: string)
    ensures TrimRight(Lower(s)) == Lower(TrimRight(s))
  {
    var n := |s| - 1;
    if s != [] && IsSpace(s[n]) {
      assert Lower(s)[..n] == Lower(s[..n]);
      LowerCommutesRight(s[..n]);
    }
  }

  /** Two spellings that differ only in letter case denote one account. */
  lemma CaseIgnored(s: string, t: string)
    requires Lower(s) == Lower(t)
    ensures SameAgent(s, t)
  {
    LowerCommutesLeft(s);
    LowerCommutesLeft(t);
    LowerCommutesRight(TrimLeft(s));
    LowerCommutesRight(TrimLeft(t));
    LowerTwice(TrimRight(TrimLeft(s)));
    LowerTwice(TrimRight(TrimLeft(t)));
  }

  lemma LowerTwice(s: string)
    ensures Lower(Lower(s)) == Lower(s)
  {
  }

  /** Signing in under another capitalisation, or with stray blanks, never makes one broker into two. */
  lemma SpellingIsNotIdentity(agent: string, respelled: string, left: string, right: string)
    requires Lower(agent) == Lower(respelled) && Blank(left) && Blank(right)
    ensures SameAgent(left + respelled + right, agent)
  {
    CaseIgnored(agent, respelled);
    PaddingIgnored(left, respelled, right);
  }
}
