/**
 * The two repository-name patterns of the request handlers, written out as
 * matchers over character classes:
 *
 *   create repository:      ^([a-z0-9]+)(-[-0-9a-z]+)?\.git$
 *   change default branch:  ^(?:incubator-)?([a-z0-9]+)(-[-0-9a-z]+)?(\.git)?$
 *
 * Both are applied with Python's `re.match`, whose `$` (without MULTILINE)
 * matches at the end of the string or just before a newline that ends it.
 * Each matcher returns the first capture group, the project ("PMC") prefix.
 */
module RepoNames {
  import opened Common

  const GIT_SUFFIX: string := ".git"
  const INCUBATOR_PREFIX: string := "incubator-"

  /** `[a-z0-9]` */
  predicate IsPmcChar(c: char)
  {
    'a' <= c <= 'z' || '0' <= c <= '9'
  }

  /** `[-0-9a-z]` */
  predicate IsTailChar(c: char)
  {
    IsPmcChar(c) || c == '-'
  }

  predicate AllPmcChars(s: string)
  {
    forall i :: 0 <= i < |s| ==> IsPmcChar(s[i])
  }

  predicate AllTailChars(s: string)
  {
    forall i :: 0 <= i < |s| ==> IsTailChar(s[i])
  }

  /** What the optional group `(-[-0-9a-z]+)?` can match. */
  predicate IsDashGroup(g: string)
  {
    g == [] || (|g| >= 2 && g[0] == '-' && AllTailChars(g[1..]))
  }

  /** What `$` lets follow the match: nothing, or one final newline. */
  predicate IsEndAnchor(a: string)
  {
    a == [] || a == "\n"
  }

  /**
   * `s` splits as group 1, group 2, the extension and what `$` admits,
   * each of the shape the pattern asks for. With `gitRequired` the
   * extension must be ".git"; otherwise it may also be empty.
   */
  predicate StemSplit(s: string, pmc: string, group: string, ext: string, anchor: string, gitRequired: bool)
  {
    && |pmc| > 0 && AllPmcChars(pmc)
    && IsDashGroup(group)
    && (ext == GIT_SUFFIX || (!gitRequired && ext == []))
    && IsEndAnchor(anchor)
    && s == pmc + group + ext + anchor
  }

  /** `([a-z0-9]+)(-[-0-9a-z]+)?<ext>$` matches the whole of `s` with group 1 equal to `pmc`. */
  ghost predicate StemMatches(s: string, pmc: string, gitRequired: bool)
  {
    exists group, ext, anchor :: StemSplit(s, pmc, group, ext, anchor, gitRequired)
  }

  /** Length of the longest prefix of `s` made of `[a-z0-9]`: what the greedy group 1 takes. */
  function PmcRun(s: string): (n: nat)
    ensures n <= |s|
    ensures AllPmcChars(s[..n])
    ensures n < |s| ==> !IsPmcChar(s[n])
  {
    if s == [] || !IsPmcChar(s[0]) then 0
    else
      var n := 1 + PmcRun(s[1..]);
      assert s[..n] == [s[0]] + s[1..][..n - 1];
      n
  }

  /** `s` without the one final newline that `$` may skip. */
  function StripAnchor(s: string): string
  {
    if |s| > 0 && s[|s| - 1] == '\n' then s[..|s| - 1] else s
  }

  function HasGitSuffix(s: string): bool
  {
    |s| >= 4 && s[|s| - 4..] == GIT_SUFFIX
  }

  /**
   * Anchored match of `([a-z0-9]+)(-[-0-9a-z]+)?<ext>$`, giving group 1.
   * Group 1 can only end where `[a-z0-9]` stops, and group 2 cannot hold a
   * '.', so no backtracking choice can change the outcome.
   */
  function MatchStem(s: string, gitRequired: bool): (r: Option<string>)
    ensures r.Some? ==> |r.value| > 0 && AllPmcChars(r.value) && r.value <= s
  {
    var body := StripAnchor(s);
    var n := PmcRun(body);
    var rest := body[n..];
    var hasGit := HasGitSuffix(rest);
    var group := if hasGit then rest[..|rest| - 4] else rest;
    if n > 0 && (hasGit || !gitRequired) && IsDashGroup(group) then Some(body[..n]) else None
  }

  /** repository.py: `re.match(r"^([a-z0-9]+)(-[-0-9a-z]+)?\.git$", reponame)`, group 1 */
  function MatchCreateName(s: string): Option<string>
  {
    MatchStem(s, true)
  }

  /**
   * defaultbranch.py: `re.match(r"^(?:incubator-)?([a-z0-9]+)(-[-0-9a-z]+)?(\.git)?$", repo)`,
   * group 1. The greedy optional prefix is tried first; only if the rest
   * then fails does the engine retry with the prefix unconsumed.
   */
  function MatchBranchRepoName(s: string): Option<string>
  {
    var prefixed :=
      if |s| >= |INCUBATOR_PREFIX| && s[..|INCUBATOR_PREFIX|] == INCUBATOR_PREFIX
      then MatchStem(s[|INCUBATOR_PREFIX|..], false)
      else None;
    if prefixed.Some? then prefixed else MatchStem(s, false)
  }

  /** The first alternative of the default-branch pattern: prefix consumed. */
  ghost predicate IncubatorMatches(s: string, pmc: string)
  {
    |s| >= |INCUBATOR_PREFIX| && s[..|INCUBATOR_PREFIX|] == INCUBATOR_PREFIX
    && StemMatches(s[|INCUBATOR_PREFIX|..], pmc, false)
  }

  // ---------------------------------------------------------------------
  // Proofs

  /** Group 1 runs exactly to the end of a `[a-z0-9]` prefix followed by anything else. */
  lemma {:induction false} PmcRunOfSplit(p: string, t: string)
    requires AllPmcChars(p)
    requires t == [] || !IsPmcChar(t[0])
    ensures PmcRun(p + t) == |p|
    decreases |p|
  {
    if p != [] {
      assert (p + t)[1..] == p[1..] + t;
      PmcRunOfSplit(p[1..], t);
    } else {
      assert p + t == t;
    }
  }

  lemma NoGitSuffixInTail(g: string)
    requires IsDashGroup(g)
    ensures !HasGitSuffix(g)
  {
    if |g| >= 4 {
      var k := |g| - 4;
      assert IsTailChar(g[k]) by {
        if k > 0 { assert g[k] == g[1..][k - 1]; }
      }
      assert g[k..][0] == g[k];
    }
  }

  /** `s` is what `$` stops at followed by what it skips. */
  lemma AnchorSplit(s: string)
    ensures |StripAnchor(s)| <= |s|
    ensures s == StripAnchor(s) + s[|StripAnchor(s)|..]
    ensures IsEndAnchor(s[|StripAnchor(s)|..])
  {
    if |s| > 0 && s[|s| - 1] == '\n' {
      assert s[|s| - 1..] == "\n";
    }
  }

  /** A text with the ".git" suffix is the text before it followed by it. */
  lemma GitSplit(rest: string)
    requires HasGitSuffix(rest)
    ensures rest == rest[..|rest| - 4] + GIT_SUFFIX
  {
    assert rest == rest[..|rest| - 4] + rest[|rest| - 4..];
  }

  lemma Reassemble(s: string, body: string, anchor: string, n: nat, group: string, ext: string)
    requires s == body + anchor && n <= |body| && body[n..] == group + ext
    ensures s == body[..n] + group + ext + anchor
  {
    assert body == body[..n] + body[n..];
  }

  /** The matcher finds a split whenever it reports a match. */
  lemma MatchStemSound(s: string, gitRequired: bool)
    requires MatchStem(s, gitRequired).Some?
    ensures StemMatches(s, MatchStem(s, gitRequired).value, gitRequired)
  {
    var body := StripAnchor(s);
    AnchorSplit(s);
    var anchor := s[|body|..];
    var n := PmcRun(body);
    var rest := body[n..];
    var hasGit := HasGitSuffix(rest);
    var group := if hasGit then rest[..|rest| - 4] else rest;
    var ext := if hasGit then GIT_SUFFIX else [];
    if hasGit {
      GitSplit(rest);
    }
    Reassemble(s, body, anchor, n, group, ext);
    assert IsDashGroup(group);
    assert |body[..n]| > 0 && AllPmcChars(body[..n]);
    assert ext == GIT_SUFFIX || (!gitRequired && ext == []);
    assert MatchStem(s, gitRequired) == Some(body[..n]);
    assert StemSplit(s, body[..n], group, ext, anchor, gitRequired);
  }

  /** Skipping the final newline of `body + anchor` gives `body` back when `body` does not end in one. */
  lemma StripAnchorOf(body: string, anchor: string)
    requires IsEndAnchor(anchor)
    requires body == [] || body[|body| - 1] != '\n'
    ensures StripAnchor(body + anchor) == body
  {
    if anchor == [] {
      assert body + anchor == body;
    } else {
      assert (body + anchor)[..|body|] == body;
    }
  }

  /** Group 1, group 2 and the extension never end in a newline. */
  lemma StemEndsCleanly(pmc: string, group: string, ext: string)
    requires |pmc| > 0 && AllPmcChars(pmc) && IsDashGroup(group) && (ext == GIT_SUFFIX || ext == [])
    ensures var body := pmc + group + ext; |body| > 0 && body[|body| - 1] != '\n'
  {
    var body := pmc + group + ext;
    if ext != [] {
      assert body[|body| - 1] == ext[3];
    } else if group != [] {
      assert body[|body| - 1] == group[|group| - 1] == group[1..][|group| - 2];
    } else {
      assert body[|body| - 1] == pmc[|pmc| - 1];
    }
  }

  /** The greedy group 1 of `pmc + group + ext` is exactly `pmc`. */
  lemma RestAfterPmc(pmc: string, group: string, ext: string)
    requires |pmc| > 0 && AllPmcChars(pmc) && IsDashGroup(group) && (ext == GIT_SUFFIX || ext == [])
    ensures var body := pmc + group + ext;
      PmcRun(body) == |pmc| && body[..|pmc|] == pmc && body[|pmc|..] == group + ext
  {
    var t := group + ext;
    assert t == [] || !IsPmcChar(t[0]) by {
      if group != [] { assert t[0] == '-'; } else if ext != [] { assert t[0] == '.'; }
    }
    assert pmc + group + ext == pmc + t;
    PmcRunOfSplit(pmc, t);
  }

  /** Splitting `group + ext` at a ".git" suffix recovers `group`. */
  lemma GroupOfRest(group: string, ext: string)
    requires IsDashGroup(group) && (ext == GIT_SUFFIX || ext == [])
    ensures var rest := group + ext;
      && (HasGitSuffix(rest) <==> ext == GIT_SUFFIX)
      && (HasGitSuffix(rest) ==> rest[..|rest| - 4] == group)
      && (!HasGitSuffix(rest) ==> rest == group)
  {
    var rest := group + ext;
    if ext == GIT_SUFFIX {
      assert rest[|rest| - 4..] == GIT_SUFFIX;
      assert rest[..|rest| - 4] == group;
    } else {
      assert rest == group;
      NoGitSuffixInTail(group);
    }
  }

  /** Every split the pattern admits is found by the matcher, with the same group 1. */
  lemma MatchStemComplete(s: string, pmc: string, group: string, ext: string, anchor: string, gitRequired: bool)
    requires StemSplit(s, pmc, group, ext, anchor, gitRequired)
    ensures MatchStem(s, gitRequired) == Some(pmc)
  {
    var body := pmc + group + ext;
    StemEndsCleanly(pmc, group, ext);
    StripAnchorOf(body, anchor);
    assert StripAnchor(s) == body;
    RestAfterPmc(pmc, group, ext);
    GroupOfRest(group, ext);
  }

  /** The matcher decides the declarative description exactly. */
  lemma MatchStemCorrect(s: string, pmc: string, gitRequired: bool)
    ensures MatchStem(s, gitRequired) == Some(pmc) <==> StemMatches(s, pmc, gitRequired)
  {
    if MatchStem(s, gitRequired) == Some(pmc) {
      MatchStemSound(s, gitRequired);
    }
    if StemMatches(s, pmc, gitRequired) {
      var group, ext, anchor :| StemSplit(s, pmc, group, ext, anchor, gitRequired);
      MatchStemComplete(s, pmc, group, ext, anchor, gitRequired);
    }
  }

  /**
   * A name is accepted by the create handler's pattern exactly when it is a
   * `[a-z0-9]+` prefix, an optional dash group and ".git" (with at most a
   * final newline after it), and the prefix is what is returned.
   */
  lemma CreateNameCorrect(s: string, pmc: string)
    ensures MatchCreateName(s) == Some(pmc) <==> StemMatches(s, pmc, true)
  {
    MatchStemCorrect(s, pmc, true);
  }

  /** When the prefixed alternative matches, it decides group 1. */
  lemma BranchPrefixedWins(s: string, pmc: string)
    requires |s| >= |INCUBATOR_PREFIX| && s[..|INCUBATOR_PREFIX|] == INCUBATOR_PREFIX
    requires MatchStem(s[|INCUBATOR_PREFIX|..], false).Some?
    ensures MatchBranchRepoName(s) == MatchStem(s[|INCUBATOR_PREFIX|..], false)
    ensures IncubatorMatches(s, pmc) <==> MatchBranchRepoName(s) == Some(pmc)
  {
    MatchStemCorrect(s[|INCUBATOR_PREFIX|..], pmc, false);
  }

  /** When the prefixed alternative fails, no prefixed reading exists and the plain one decides. */
  lemma BranchPlainDecides(s: string)
    requires !(|s| >= |INCUBATOR_PREFIX| && s[..|INCUBATOR_PREFIX|] == INCUBATOR_PREFIX)
          || MatchStem(s[|INCUBATOR_PREFIX|..], false).None?
    ensures MatchBranchRepoName(s) == MatchStem(s, false)
    ensures forall q :: !IncubatorMatches(s, q)
  {
    forall q ensures !IncubatorMatches(s, q) {
      if |s| >= |INCUBATOR_PREFIX| && s[..|INCUBATOR_PREFIX|] == INCUBATOR_PREFIX {
        MatchStemCorrect(s[|INCUBATOR_PREFIX|..], q, false);
      }
    }
  }

  /**
   * The default-branch pattern gives `pmc` exactly when the prefixed
   * alternative gives it, or when no prefixed reading exists and the
   * unprefixed one gives it.
   */
  lemma BranchRepoNameCorrect(s: string, pmc: string)
    ensures MatchBranchRepoName(s) == Some(pmc)
        <==> IncubatorMatches(s, pmc)
             || ((forall q :: !IncubatorMatches(s, q)) && StemMatches(s, pmc, false))
  {
    var k := |INCUBATOR_PREFIX|;
    if |s| >= k && s[..k] == INCUBATOR_PREFIX && MatchStem(s[k..], false).Some? {
      var p0 := MatchStem(s[k..], false).value;
      BranchPrefixedWins(s, pmc);
      BranchPrefixedWins(s, p0);
    } else {
      BranchPlainDecides(s);
      MatchStemCorrect(s, pmc, false);
    }
  }

  /**
   * An accepted create name and its group 1 hold no '/', so both can be
   * joined onto a directory as a single path component; group 1 holds
   * neither '-' nor '.' either.
   */
  lemma CreateNameIsComponent(s: string)
    requires MatchCreateName(s).Some?
    ensures var pmc := MatchCreateName(s).value;
      && |pmc| > 0 && pmc <= s
      && NoSlash(s) && NoSlash(pmc)
      && forall i :: 0 <= i < |pmc| ==> pmc[i] != '-' && pmc[i] != '.'
  {
    var pmc := MatchCreateName(s).value;
    MatchStemSound(s, true);
    var group, ext, anchor :| StemSplit(s, pmc, group, ext, anchor, true);
    SplitHasNoSlash(s, pmc, group, ext, anchor);
  }

  lemma SplitHasNoSlash(s: string, pmc: string, group: string, ext: string, anchor: string)
    requires StemSplit(s, pmc, group, ext, anchor, true)
    ensures NoSlash(s) && NoSlash(pmc)
  {
    TailCharsHaveNoSlash(pmc);
    TailCharsHaveNoSlash(group);
    assert NoSlash(ext) && NoSlash(anchor);
    NoSlashConcat(pmc, group);
    NoSlashConcat(pmc + group, ext);
    NoSlashConcat(pmc + group + ext, anchor);
  }

  lemma TailCharsHaveNoSlash(s: string)
    requires AllTailChars(s) || IsDashGroup(s)
    ensures NoSlash(s)
  {
    if !AllTailChars(s) {
      forall i | 0 <= i < |s|
        ensures s[i] != '/'
      {
        if i > 0 {
          assert s[i] == s[1..][i - 1];
        }
      }
    }
  }

  lemma NoSlashConcat(a: string, b: string)
    requires NoSlash(a) && NoSlash(b)
    ensures NoSlash(a + b)
  {
    forall i | 0 <= i < |a + b|
      ensures (a + b)[i] != '/'
    {
      if i >= |a| {
        assert (a + b)[i] == b[i - |a|];
      }
    }
  }

  // ---------------------------------------------------------------------
  // Worked examples from the handlers' comments and their edge cases.
  // Each concrete name is handed whole to a general lemma, so that the
  // matcher is only ever applied to the name itself.

  /** A group 1, an optional dash group and ".git", with or without a final newline, give group 1. */
  lemma AcceptedCreateName(s: string, pmc: string, group: string, anchor: string)
    requires |pmc| > 0 && AllPmcChars(pmc) && IsDashGroup(group) && IsEndAnchor(anchor)
    requires s == pmc + group + GIT_SUFFIX + anchor
    ensures MatchCreateName(s) == Some(pmc)
  {
    MatchStemComplete(s, pmc, group, GIT_SUFFIX, anchor, true);
  }

  /** "httpd.git" gives the prefix "httpd". */
  lemma CreateNamePlainExample()
    ensures MatchCreateName("httpd.git") == Some("httpd")
  {
    assert "httpd.git" == "httpd" + [] + GIT_SUFFIX + [];
    AcceptedCreateName("httpd.git", "httpd", [], []);
  }

  /** "sling-foo.git" gives the prefix "sling". */
  lemma CreateNameDashExample()
    ensures MatchCreateName("sling-foo.git") == Some("sling")
  {
    assert "-foo"[1..] == "foo";
    assert "sling-foo.git" == "sling" + "-foo" + GIT_SUFFIX + [];
    AcceptedCreateName("sling-foo.git", "sling", "-foo", []);
  }

  /** "httpd.git" followed by one newline is accepted too, since `$` skips a final newline. */
  lemma CreateNameNewlineExample()
    ensures MatchCreateName("httpd.git\n") == Some("httpd")
  {
    assert "httpd.git\n" == "httpd" + [] + GIT_SUFFIX + "\n";
    AcceptedCreateName("httpd.git\n", "httpd", [], "\n");
  }

  /** A name that does not start with `[a-z0-9]` matches neither pattern. */
  lemma BadFirstCharRejected(s: string, gitRequired: bool)
    requires |s| > 0 && !IsPmcChar(s[0])
    ensures MatchStem(s, gitRequired) == None
  {
    AnchorSplit(s);
    var body := StripAnchor(s);
    if body != [] {
      assert body[0] == s[0];
    }
  }

  /** A bare group 1 without ".git" is refused by the create pattern. */
  lemma MissingGitRejected(s: string)
    requires AllPmcChars(s)
    ensures MatchCreateName(s) == None
  {
    assert StripAnchor(s) == s by {
      if |s| > 0 { assert IsPmcChar(s[|s| - 1]); }
    }
    PmcRunOfSplit(s, []);
    assert s + [] == s;
  }

  /** Names the create pattern refuses: no ".git", an upper-case letter, a leading dash. */
  lemma CreateNameRejections()
    ensures MatchCreateName("httpd") == None
    ensures MatchCreateName("Httpd.git") == None
    ensures MatchCreateName("-httpd.git") == None
  {
    MissingGitRejected("httpd");
    BadFirstCharRejected("Httpd.git", true);
    BadFirstCharRejected("-httpd.git", true);
  }

  /** With "incubator-" in front of a valid stem, the stem's group 1 is the result. */
  lemma PrefixedBranchName(s: string, t: string, pmc: string, group: string, ext: string)
    requires s == INCUBATOR_PREFIX + t && StemSplit(t, pmc, group, ext, [], false)
    ensures MatchBranchRepoName(s) == Some(pmc)
  {
    assert s[..|INCUBATOR_PREFIX|] == INCUBATOR_PREFIX && s[|INCUBATOR_PREFIX|..] == t;
    MatchStemComplete(t, pmc, group, ext, [], false);
    BranchPrefixedWins(s, pmc);
  }

  /** "incubator-sling-foo.git" gives "sling": the prefix is consumed. */
  lemma BranchRepoNameIncubatorExample()
    ensures MatchBranchRepoName("incubator-sling-foo.git") == Some("sling")
  {
    assert "-foo"[1..] == "foo";
    assert "sling-foo.git" == "sling" + "-foo" + GIT_SUFFIX + [];
    assert "incubator-sling-foo.git" == INCUBATOR_PREFIX + "sling-foo.git";
    PrefixedBranchName("incubator-sling-foo.git", "sling-foo.git", "sling", "-foo", GIT_SUFFIX);
  }

  /** A name shorter than the prefix that splits as group 1 and a dash group needs no ".git". */
  lemma PlainBranchName(s: string, pmc: string, group: string)
    requires |s| < |INCUBATOR_PREFIX| && StemSplit(s, pmc, group, [], [], false)
    ensures MatchBranchRepoName(s) == Some(pmc)
  {
    BranchPlainDecides(s);
    MatchStemComplete(s, pmc, group, [], [], false);
  }

  /** "sling-foo" is accepted without ".git". */
  lemma BranchRepoNamePlainExample()
    ensures MatchBranchRepoName("sling-foo") == Some("sling")
  {
    assert "-foo"[1..] == "foo";
    assert "sling-foo" == "sling" + "-foo" + [] + [];
    PlainBranchName("sling-foo", "sling", "-foo");
  }

  /** A dash with nothing after it cannot end a name: a dash group needs a character after its dash. */
  lemma DanglingDashRejected(s: string, pmc: string)
    requires |pmc| > 0 && AllPmcChars(pmc) && s == pmc + "-"
    ensures MatchStem(s, false) == None
  {
    assert s[|s| - 1] == '-';
    assert StripAnchor(s) == s;
    PmcRunOfSplit(pmc, "-");
    assert s[|pmc|..] == "-";
    assert !HasGitSuffix("-");
    assert !IsDashGroup("-");
  }

  /**
   * When the text after "incubator-" fails on its own but is a valid dash
   * group tail, the whole name matches with group 1 "incubator".
   */
  lemma BacktrackedPrefix(s: string, t: string)
    requires s == INCUBATOR_PREFIX + t
    requires MatchStem(t, false).None?
    requires |t| > 0 && AllTailChars(t)
    ensures MatchBranchRepoName(s) == Some("incubator")
  {
    assert s[..|INCUBATOR_PREFIX|] == INCUBATOR_PREFIX && s[|INCUBATOR_PREFIX|..] == t;
    BranchPlainDecides(s);
    IncubatorStem(s, t);
  }

  /** "incubator-" followed by a dash-group tail is itself a stem with group 1 "incubator". */
  lemma IncubatorStem(s: string, t: string)
    requires s == INCUBATOR_PREFIX + t
    requires |t| > 0 && AllTailChars(t)
    ensures MatchStem(s, false) == Some("incubator")
  {
    var pmc := "incubator";
    var group := "-" + t;
    assert group[1..] == t;
    assert AllPmcChars(pmc);
    assert INCUBATOR_PREFIX == pmc + "-";
    assert s == pmc + group + [] + [];
    assert StemSplit(s, pmc, group, [], [], false);
    MatchStemComplete(s, pmc, group, [], [], false);
  }

  /** "incubator-sling-" only matches with the prefix left to group 1, giving "incubator". */
  lemma BranchRepoNameBacktrackExample()
    ensures MatchBranchRepoName("incubator-sling-") == Some("incubator")
  {
    assert "sling-" == "sling" + "-";
    DanglingDashRejected("sling-", "sling");
    assert AllTailChars("sling-");
    assert "incubator-sling-" == INCUBATOR_PREFIX + "sling-";
    BacktrackedPrefix("incubator-sling-", "sling-");
  }
}
