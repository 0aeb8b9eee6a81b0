/**
 * The encyclopedia search service of the server: the heuristics that decide
 * whether a chat text asks for a search and which query it asks for, and the
 * shaping of the search, summary and content responses.
 *
 * The regular expressions of the heuristics are encoded pattern by pattern.
 * Every one of them carries the `i` flag; without the `u` flag a
 * case-insensitive match folds ASCII letters only, which is what
 * `StartsWithIgnoringCase` does. `fetch` is a function parameter from the
 * requested URL to what the request yields.
 */
module SearchService {
  import opened Js
  import opened Uri
  import opened ServerTypes
  import BraveSearch

  const ActionApiUrl := "https://en.wikipedia.org/w/api.php"
  const RestApiUrl := "https://en.wikipedia.org/api/rest_v1"
  const WikiPrefix := "https://en.wikipedia.org/wiki/"
  const DefaultMaxResults := 5

  // ---------------------------------------------------------------------
  // Pattern matching

  /** The lower-case ASCII text `p` occurs at `i` in `s`, ignoring case. */
  predicate MatchesAt(s: string, p: string, i: nat) {
    i <= |s| && StartsWithIgnoringCase(s[i..], p)
  }

  /** The first index at or after `j` holding '?', or `|s|` when there is none. */
  function QuestionMarkFrom(s: string, j: nat): (q: nat)
    requires j <= |s|
    ensures j <= q <= |s|
    ensures q < |s| ==> s[q] == '?'
    ensures forall k :: j <= k < q ==> s[k] != '?'
    ensures '?' !in s ==> q == |s|
    decreases |s| - j
  {
    if j == |s| || s[j] == '?' then j else QuestionMarkFrom(s, j + 1)
  }

  /** The greedy group `([^?]+)` starting at `j`, if it matches at all. */
  function RunFrom(s: string, j: nat): (g: Option<string>)
    requires j <= |s|
    ensures g.Some? ==> g.value != [] && '?' !in g.value
    ensures g.Some? ==>
      j + |g.value| <= |s| && g.value == s[j..j + |g.value|] && (j + |g.value| == |s| || s[j + |g.value|] == '?')
    ensures g.None? <==> j == |s| || s[j] == '?'
  {
    var q := QuestionMarkFrom(s, j);
    if j < q then Some(s[j..q]) else None
  }

  /** `([^?]+)\?` starting at `j`: the run, when a question mark closes it. */
  function ClosedRunFrom(s: string, j: nat): (g: Option<string>)
    requires j <= |s|
    ensures g.Some? ==> g.value != [] && '?' !in g.value
    ensures g.Some? ==> j + |g.value| < |s| && g.value == s[j..j + |g.value|] && s[j + |g.value|] == '?'
    ensures g.None? <==> j == |s| || s[j] == '?' || forall k :: j <= k < |s| ==> s[k] != '?'
  {
    var q := QuestionMarkFrom(s, j);
    if j < q < |s| then Some(s[j..q]) else None
  }

  /**
   * The three shapes of the factual-question expressions:
   * `what is (?:a |an |the )?([^?]+)\?`, `<lead>([^?]+)` and `^([^?]+)<tail>`.
   */
  datatype Pattern =
    | WhatIs
    | Lead(lead: string)
    | Trail(tail: string)

  /**
   * The factual-question expressions in the order they are tried. The
   * optional `s` of `^([^?]+) facts?` changes neither whether it matches nor
   * its group, so `Trail(" fact")` stands for it.
   */
  const FactualPatterns: seq<Pattern> := [
    WhatIs,
    Lead("tell me about "), Lead("who is "), Lead("where is "), Lead("when did "),
    Lead("how does "), Lead("explain "), Lead("describe "),
    Trail(" fact"), Trail(" information"), Trail(" details")]

  const Articles: set<string> := {"a ", "an ", "the "}

  /** The alternatives of `(?:a |an |the )?` in the order they are tried, the empty one last. */
  const ArticleOrder: seq<string> := ["a ", "an ", "the ", ""]

  /** Reading `article` at `j` leaves a `([^?]+)\?` match behind it. */
  predicate ArticleLeavesRun(s: string, j: nat, article: string) {
    j + |article| <= |s| && MatchesAt(s, article, j) && ClosedRunFrom(s, j + |article|).Some?
  }

  /**
   * `(?:a |an |the )?([^?]+)\?` from `j`: the group left by the first
   * alternative, in the order tried, that leaves a match; none when no
   * alternative does.
   */
  function ArticleRun(s: string, j: nat): (g: Option<string>)
    requires j <= |s|
    ensures g.Some? ==> g.value != [] && '?' !in g.value
  {
    if MatchesAt(s, "a ", j) && ClosedRunFrom(s, j + 2).Some? then ClosedRunFrom(s, j + 2)
    else if MatchesAt(s, "an ", j) && ClosedRunFrom(s, j + 3).Some? then ClosedRunFrom(s, j + 3)
    else if MatchesAt(s, "the ", j) && ClosedRunFrom(s, j + 4).Some? then ClosedRunFrom(s, j + 4)
    else ClosedRunFrom(s, j)
  }

  /**
   * The article run is the group left by the first alternative, in the
   * order tried, that leaves a match, and there is none when no alternative
   * leaves one.
   */
  lemma ArticleRunTriesInOrder(s: string, j: nat) returns (n: nat)
    requires j <= |s|
    ensures ArticleRun(s, j).Some? ==>
      && n < |ArticleOrder| && ArticleLeavesRun(s, j, ArticleOrder[n])
      && ArticleRun(s, j) == ClosedRunFrom(s, j + |ArticleOrder[n]|)
      && forall m :: 0 <= m < n ==> !ArticleLeavesRun(s, j, ArticleOrder[m])
    ensures ArticleRun(s, j).None? ==> forall m :: 0 <= m < |ArticleOrder| ==> !ArticleLeavesRun(s, j, ArticleOrder[m])
  {
    assert MatchesAt(s, "", j) by {
      assert StartsWithIgnoringCase(s[j..], "");
    }
    if ArticleLeavesRun(s, j, "a ") {
      n := 0;
    } else if ArticleLeavesRun(s, j, "an ") {
      n := 1;
    } else if ArticleLeavesRun(s, j, "the ") {
      n := 2;
    } else {
      n := 3;
    }
  }


  /**
   * `^([^?]+)<tail>` with the greedy group: the longest prefix of at most `k`
   * characters, at least one, that `tail` follows.
   */
  function TrailGroup(s: string, tail: string, k: nat): (g: Option<string>)
    requires k <= |s|
    ensures g.Some? ==> 0 < |g.value| <= k && g.value == s[..|g.value|] && MatchesAt(s, tail, |g.value|)
    ensures g.Some? ==> forall k' :: |g.value| < k' <= k ==> !MatchesAt(s, tail, k')
    ensures g.None? ==> forall k' :: 0 < k' <= k ==> !MatchesAt(s, tail, k')
    decreases k
  {
    if k == 0 then None
    else if MatchesAt(s, tail, k) then Some(s[..k])
    else TrailGroup(s, tail, k - 1)
  }

  /** The group of a match of `p` that begins at `i`. */
  function GroupAt(p: Pattern, s: string, i: nat): (g: Option<string>)
    requires i <= |s|
    ensures g.Some? ==> g.value != [] && '?' !in g.value
  {
    match p
    case WhatIs =>
      if MatchesAt(s, "what is ", i) then ArticleRun(s, i + 8) else None
    case Lead(lead) =>
      if MatchesAt(s, lead, i) then RunFrom(s, i + |lead|) else None
    case Trail(tail) =>
      if i == 0 then
        var g := TrailGroup(s, tail, QuestionMarkFrom(s, 0));
        assert g.Some? ==> forall c :: c in g.value ==> c != '?';
        g
      else None
  }

  /**
   * Which group a match at `i` yields: for "what is", the article run after
   * it; for a lead, the run of non-'?' characters after the lead, which must
   * not be empty; for a tail, only at 0, the longest prefix before the first
   * '?' that the tail follows.
   */
  lemma GroupAtMeaning(p: Pattern, s: string, i: nat)
    requires i <= |s|
    ensures var g := GroupAt(p, s, i);
      && (p.WhatIs? ==>
            (g.Some? <==> MatchesAt(s, "what is ", i) && ArticleRun(s, i + 8).Some?)
            && (g.Some? ==> g == ArticleRun(s, i + 8)))
      && (p.Lead? ==>
            (g.Some? <==> MatchesAt(s, p.lead, i) && i + |p.lead| < |s| && s[i + |p.lead|] != '?')
            && (g.Some? ==> g == RunFrom(s, i + |p.lead|)))
      && (p.Trail? && i > 0 ==> g.None?)
      && (p.Trail? && i == 0 && g.Some? ==>
            |g.value| <= |s| && g.value == s[..|g.value|] && MatchesAt(s, p.tail, |g.value|)
            && forall k :: |g.value| < k <= QuestionMarkFrom(s, 0) ==> !MatchesAt(s, p.tail, k))
      && (p.Trail? && i == 0 && g.None? ==>
            forall k :: 0 < k <= QuestionMarkFrom(s, 0) ==> !MatchesAt(s, p.tail, k))
  {
  }

  /** The leftmost match at or after `i`. */
  function MatchFrom(p: Pattern, s: string, i: nat): (g: Option<string>)
    requires i <= |s|
    ensures g.Some? ==> g.value != [] && '?' !in g.value
    ensures g.None? ==> forall k :: i <= k <= |s| ==> GroupAt(p, s, k).None?
    decreases |s| - i
  {
    if GroupAt(p, s, i).Some? then GroupAt(p, s, i)
    else if i == |s| then None
    else MatchFrom(p, s, i + 1)
  }

  /** A match found from `i` is the group at the leftmost index from `i` where the pattern matches. */
  lemma {:induction false} MatchFromLeftmost(p: Pattern, s: string, i: nat) returns (k: nat)
    requires i <= |s| && MatchFrom(p, s, i).Some?
    ensures i <= k <= |s| && MatchFrom(p, s, i) == GroupAt(p, s, k)
    ensures forall k' :: i <= k' < k ==> GroupAt(p, s, k').None?
    decreases |s| - i
  {
    if GroupAt(p, s, i).Some? {
      k := i;
    } else {
      assert i < |s| && MatchFrom(p, s, i) == MatchFrom(p, s, i + 1);
      k := MatchFromLeftmost(p, s, i + 1);
      forall k' | i <= k' < k
        ensures GroupAt(p, s, k').None?
      {
        if k' == i {
        }
      }
    }
  }

  /**
   * `s.match(p)`: the group of the leftmost match (`MatchFromLeftmost` from
   * index 0 says which), never empty and never holding a '?'.
   */
  function Match(p: Pattern, s: string): (g: Option<string>)
    ensures g.Some? ==> g.value != [] && '?' !in g.value
  {
    MatchFrom(p, s, 0)
  }

  /** The index of the first pattern in `ps` that matches `s`, or `|ps|` when none does. */
  function FirstMatching(ps: seq<Pattern>, s: string): (k: nat)
    ensures k <= |ps|
    ensures forall j :: 0 <= j < k ==> Match(ps[j], s).None?
    ensures k < |ps| ==> Match(ps[k], s).Some?
  {
    if |ps| == 0 then 0
    else if Match(ps[0], s).Some? then 0
    else 1 + FirstMatching(ps[1..], s)
  }

  // ---------------------------------------------------------------------
  // Search-prompt heuristics

  /** `/^\s*search for\s/i`: after leading white space comes "search for" in any case, then white space. */
  predicate StartsWithSearchFor(text: string): (b: bool)
    ensures b <==> exists k :: WordAfterBlank(text, "search for", k) && k + 10 < |text| && IsSpace(text[k + 10])
  {
    var t := TrimStart(text);
    assert forall k :: WordAfterBlank(text, "search for", k) <==>
                       k == |text| - |t| && StartsWithIgnoringCase(t, "search for") by {
      forall k {
        WordAfterBlankAt(text, "search for", k);
      }
    }
    var k0 := |text| - |t|;
    TrimStartAfterLeadingBlank(text);
    assert |t| > 10 ==> t[10] == text[k0 + 10];
    assert StartsWithIgnoringCase(t, "search for") ==> WordAfterBlank(text, "search for", k0);
    StartsWithIgnoringCase(t, "search for") && |t| > 10 && IsSpace(t[10])
  }

  /**
   * The group of `/^\s*search for\s+(.*)$/i`: everything after the white
   * space that follows "search for", provided no line break is left in it
   * (`.` does not match one and `$` only matches at the end).
   */
  function SearchForRest(text: string): (r: Option<string>)
    ensures r.Some? ==> StartsWithSearchFor(text)
    ensures r.Some? ==> r.value == [] || !IsSpace(r.value[0])
    ensures r.Some? ==>
      var t := TrimStart(text);
      && |r.value| < |t| - 10 && r.value == t[|t| - |r.value|..]
      && IsBlank(t[10..|t| - |r.value|])
      && forall i :: 0 <= i < |r.value| ==> !IsLineTerminator(r.value[i])
    ensures StartsWithSearchFor(text) && r.None? ==>
      var t := TrimStart(text);
      exists k, i :: 10 <= k < i < |t| && !IsSpace(t[k]) && IsLineTerminator(t[i])
  {
    if StartsWithSearchFor(text) then
      var t := TrimStart(text);
      var rest := TrimStart(t[10..]);
      RestAfterWhiteSpace(t, rest);
      if forall i :: 0 <= i < |rest| ==> !IsLineTerminator(rest[i]) then Some(rest)
      else
        LineBreakInRest(t, rest);
        None
    else None
  }

  /** What follows the white space after "search for" is a suffix, and only white space precedes it. */
  lemma RestAfterWhiteSpace(t: string, rest: string)
    requires 10 < |t| && IsSpace(t[10]) && rest == TrimStart(t[10..])
    ensures |rest| < |t| - 10 && rest == t[|t| - |rest|..] && IsBlank(t[10..|t| - |rest|])
  {
    var u := t[10..];
    TrimStartIsSuffix(u);
    assert rest != u by {
      assert rest == [] || !IsSpace(rest[0]);
    }
    assert u[|u| - |rest|..] == t[|t| - |rest|..];
    var blank := t[10..|t| - |rest|];
    forall i | 0 <= i < |blank|
      ensures IsSpace(blank[i])
    {
      assert blank[i] == u[i];
    }
  }

  /** A line break left in the rest lies after its first visible character. */
  lemma LineBreakInRest(t: string, rest: string)
    requires 10 < |t| && IsSpace(t[10]) && rest == TrimStart(t[10..])
    requires |rest| < |t| - 10 && rest == t[|t| - |rest|..]
    requires !(forall i :: 0 <= i < |rest| ==> !IsLineTerminator(rest[i]))
    ensures exists k, i :: 10 <= k < i < |t| && !IsSpace(t[k]) && IsLineTerminator(t[i])
  {
    var i0 :| 0 <= i0 < |rest| && IsLineTerminator(rest[i0]);
    var k := |t| - |rest|;
    assert !IsSpace(rest[0]);
    assert i0 > 0;
    assert t[k] == rest[0] && t[k + i0] == rest[i0];
  }

  /** `isSearchPrompt`: a "search for" request, or a text one of the factual patterns matches. */
  predicate IsSearchPrompt(text: string): (b: bool)
    ensures b <==> StartsWithSearchFor(text) || exists j :: 0 <= j < |FactualPatterns| && Match(FactualPatterns[j], text).Some?
  {
    StartsWithSearchFor(text) || FirstMatching(FactualPatterns, text) < |FactualPatterns|
  }

  /**
   * `extractSearchQuery`: the trimmed rest of a "search for" request, else
   * the trimmed group of the first factual pattern that matches, else "".
   * A query is only ever found in a search prompt, and it never starts or
   * ends with white space.
   */
  function ExtractSearchQuery(text: string): (q: string)
    ensures q != "" ==> IsSearchPrompt(text)
    ensures SearchForRest(text).Some? && SearchForRest(text).value != "" ==> q == Trim(SearchForRest(text).value)
    ensures q == [] || (!IsSpace(q[0]) && !IsSpace(q[|q| - 1]))
    ensures (SearchForRest(text).None? || SearchForRest(text).value == "") ==>
      var k := FirstMatching(FactualPatterns, text);
      && (k == |FactualPatterns| ==> q == "")
      && (k < |FactualPatterns| ==> q == Trim(Match(FactualPatterns[k], text).value))
  {
    var rest := SearchForRest(text);
    if rest.Some? && rest.value != "" then
      assert StartsWithSearchFor(text);
      Trim(rest.value)
    else
      var k := FirstMatching(FactualPatterns, text);
      if k < |FactualPatterns| then
        assert Match(FactualPatterns[k], text).Some?;
        Trim(Match(FactualPatterns[k], text).value)
      else ""
  }

  /** Text that starts, after white space, with "search for" and white space is a search prompt. */
  lemma SearchForIsSearchPrompt(ws: string, keyword: string, sp: string, rest: string)
    requires IsBlank(ws) && IsBlank(sp) && |sp| > 0
    requires |keyword| == 10 && StartsWithIgnoringCase(keyword, "search for")
    ensures StartsWithSearchFor(ws + keyword + sp + rest)
    ensures IsSearchPrompt(ws + keyword + sp + rest)
    ensures TrimStart(ws + keyword + sp + rest) == keyword + sp + rest
  {
    var t := keyword + sp + rest;
    assert t[0] == keyword[0] && t[10] == sp[0];
    assert !IsSpace(t[0]) by {
      assert Lower(keyword[0]) == 's';
    }
    assert TrimStart(t) == t;
    assert ws + keyword + sp + rest == ws + t;
    TrimStartSkipsBlank(ws, t);
    assert StartsWithIgnoringCase(t, "search for") by {
      forall i | 0 <= i < 10
        ensures Lower(t[i]) == "search for"[i]
      {
        assert t[i] == keyword[i];
      }
    }
    assert StartsWithSearchFor(ws + t);
  }

  /** From such a text the query is the rest, trimmed, as long as it holds no line break. */
  lemma SearchForQuery(ws: string, keyword: string, sp: string, rest: string)
    requires IsBlank(ws) && IsBlank(sp) && |sp| > 0
    requires |keyword| == 10 && StartsWithIgnoringCase(keyword, "search for")
    requires rest != [] && !IsSpace(rest[0])
    requires forall i :: 0 <= i < |rest| ==> !IsLineTerminator(rest[i])
    ensures ExtractSearchQuery(ws + keyword + sp + rest) == Trim(rest)
  {
    SearchForIsSearchPrompt(ws, keyword, sp, rest);
    RestAfterKeyword(keyword, sp, rest);
    QueryOfRest(ws + keyword + sp + rest, rest);
  }

  lemma RestAfterKeyword(keyword: string, sp: string, rest: string)
    requires |keyword| == 10 && IsBlank(sp)
    requires rest != [] && !IsSpace(rest[0])
    ensures TrimStart((keyword + sp + rest)[10..]) == rest
  {
    assert (keyword + sp + rest)[10..] == sp + rest;
    TrimStartSkipsBlank(sp, rest);
  }

  lemma QueryOfRest(text: string, rest: string)
    requires StartsWithSearchFor(text) && TrimStart(TrimStart(text)[10..]) == rest
    requires rest != [] && forall i :: 0 <= i < |rest| ==> !IsLineTerminator(rest[i])
    ensures ExtractSearchQuery(text) == Trim(rest)
  {
    assert SearchForRest(text) == Some(rest);
  }

  /** Whatever passes the "search for" test also passes the web-search provider's own test. */
  lemma SearchForIsWebSearchPrompt(text: string)
    requires StartsWithSearchFor(text)
    ensures BraveSearch.IsWebSearchPrompt(text)
  {
    var t := TrimStart(text);
    assert IsSpace(t[10]);
  }

  /** The closing question mark found from `j` is the first one there. */
  lemma QuestionMarkAt(s: string, j: nat, q: nat)
    requires j <= q < |s| && s[q] == '?'
    requires forall k :: j <= k < q ==> s[k] != '?'
    ensures QuestionMarkFrom(s, j) == q
  {
  }

  /** Text opening with a question "what is <article> <body>?" asks for the body. */
  lemma WhatIsQuery(w: string, article: string, body: string, tail: string)
    requires |w| == 8 && StartsWithIgnoringCase(w, "what is ")
    requires article in Articles
    requires body != [] && '?' !in body
    ensures ExtractSearchQuery(w + article + body + "?" + tail) == Trim(body)
  {
    var text := w + article + body + "?" + tail;
    var j := 8 + |article|;
    var rest := article + body + "?" + tail;
    assert text == w + rest;
    OpensWith(w, rest, "what is ");
    assert text[8..] == rest;
    assert rest[..|article|] == article && rest[|article|..|article| + |body|] == body;
    assert text[8..j] == article && text[j..j + |body|] == body && text[j + |body|] == '?';
    WhatIsGroup(text, article, body);
    NotSearchFor(text);
    QueryFromPattern(text, 0);
  }

  lemma OpensWith(w: string, rest: string, p: string)
    requires |w| == |p| > 0 && StartsWithIgnoringCase(w, p)
    ensures MatchesAt(w + rest, p, 0) && (w + rest)[0] == w[0]
  {
    var text := w + rest;
    assert text[0..] == text;
    forall i | 0 <= i < |p|
      ensures Lower(text[i]) == p[i]
    {
      assert text[i] == w[i];
    }
  }

  lemma WhatIsGroup(text: string, article: string, body: string)
    requires MatchesAt(text, "what is ", 0) && article in Articles
    requires 8 + |article| + |body| < |text|
    requires text[8..8 + |article|] == article
    requires text[8 + |article|..8 + |article| + |body|] == body
    requires text[8 + |article| + |body|] == '?'
    requires body != [] && '?' !in body
    ensures Match(WhatIs, text) == Some(body)
  {
    var j := 8 + |article|;
    forall k | j <= k < j + |body|
      ensures text[k] != '?'
    {
      assert text[k] == text[j..j + |body|][k - j];
    }
    QuestionMarkAt(text, j, j + |body|);
    ArticleRunFinds(text, article);
  }

  /** The article the question holds is the one the optional group takes. */
  lemma ArticleRunFinds(text: string, article: string)
    requires article in Articles && 8 + |article| <= |text|
    requires text[8..8 + |article|] == article
    requires ClosedRunFrom(text, 8 + |article|).Some?
    ensures ArticleRun(text, 8) == ClosedRunFrom(text, 8 + |article|)
  {
    assert MatchesAt(text, article, 8) by {
      assert text[8..][..|article|] == article;
    }
    if article != "a " {
      assert !MatchesAt(text, "a ", 8) by {
        assert text[8..][1] == article[1] != ' ';
      }
      if article != "an " {
        assert !MatchesAt(text, "an ", 8) by {
          assert text[8..][0] == 't';
        }
      }
    }
  }

  /** A text whose first visible character is not an 's' is no "search for" request. */
  lemma NotSearchFor(text: string)
    requires text != [] && !IsSpace(text[0]) && Lower(text[0]) != 's'
    ensures SearchForRest(text).None? && !StartsWithSearchFor(text)
  {
    assert TrimStart(text) == text;
  }

  /** "Tell me about <body>" without any question mark asks for the body. */
  lemma TellMeAboutQuery(w: string, body: string)
    requires |w| == 14 && StartsWithIgnoringCase(w, "tell me about ")
    requires body != [] && '?' !in body
    ensures ExtractSearchQuery(w + body) == Trim(body)
  {
    var text := w + body;
    OpensWith(w, body, "tell me about ");
    NoQuestionAfterLead(w, body, "tell me about ");
    assert text[14..] == body;
    LeadGroup(text, "tell me about ");
    NoQuestionNoWhatIs(text, 0);
    NotSearchFor(text);
    QueryFromPattern(text, 1);
  }

  /** A lead without '?', typed in any case, followed by a body without '?', has no '?'. */
  lemma NoQuestionAfterLead(w: string, body: string, lead: string)
    requires |w| == |lead| && StartsWithIgnoringCase(w, lead) && '?' !in lead && '?' !in body
    ensures '?' !in w + body
  {
    var text := w + body;
    forall k | 0 <= k < |text|
      ensures text[k] != '?'
    {
      if k < |w| {
        assert text[k] == w[k] && Lower(w[k]) == lead[k];
      } else {
        assert text[k] == body[k - |w|];
      }
    }
  }

  lemma LeadGroup(text: string, lead: string)
    requires MatchesAt(text, lead, 0) && |lead| < |text| && '?' !in text
    ensures Match(Lead(lead), text) == Some(text[|lead|..])
  {
    assert QuestionMarkFrom(text, |lead|) == |text|;
    assert text[|lead|..|text|] == text[|lead|..];
    assert GroupAt(Lead(lead), text, 0) == RunFrom(text, |lead|);
  }

  /** Once the "search for" rule does not apply, the first factual pattern that matches gives the query. */
  lemma QueryFromPattern(text: string, k: nat)
    requires SearchForRest(text).None?
    requires k < |FactualPatterns| && Match(FactualPatterns[k], text).Some?
    requires forall j :: 0 <= j < k ==> Match(FactualPatterns[j], text).None?
    ensures ExtractSearchQuery(text) == Trim(Match(FactualPatterns[k], text).value)
  {
    assert FirstMatching(FactualPatterns, text) == k;
  }

  /** Without a question mark the "what is ... ?" pattern cannot match. */
  lemma {:induction false} NoQuestionNoWhatIs(s: string, i: nat)
    requires i <= |s| && '?' !in s
    ensures MatchFrom(WhatIs, s, i).None?
    decreases |s| - i
  {
    assert GroupAt(WhatIs, s, i).None? by {
      if MatchesAt(s, "what is ", i) {
        assert ArticleRun(s, i + 8).None?;
      }
    }
    if i < |s| {
      NoQuestionNoWhatIs(s, i + 1);
    }
  }

  // ---------------------------------------------------------------------
  // Responses

  /** One entry of `data.query.search`. */
  datatype SearchItem = SearchItem(title: string, snippet: string, pageid: int)

  /** The parsed search reply; `search` is absent when `data.query.search` is. */
  datatype SearchBody = SearchBody(search: Option<seq<SearchItem>>)

  /** The request `search` sends. */
  function SearchUrl(query: string, maxResults: int): string {
    ActionApiUrl + "?action=query&list=search&srsearch=" + EncodeURIComponent(query)
      + "&format=json&srlimit=" + IntToString(maxResults)
  }

  /** The article URL of a title: white-space runs become one '_', then the title is encoded. */
  function ArticleUrl(title: string): (url: string)
    ensures StartsWith(url, WikiPrefix)
    ensures forall i :: |WikiPrefix| <= i < |url| ==> !IsSpace(url[i])
  {
    var encoded := EncodeURIComponent(UnderscoreWhitespaceRuns(title));
    assert forall i :: 0 <= i < |encoded| ==> !IsSpace(encoded[i]);
    WikiPrefix + encoded
  }

  function ResultOf(item: SearchItem): WikipediaSearchResult {
    WikipediaSearchResult(item.title, item.snippet, IntToString(item.pageid), ArticleUrl(item.title))
  }

  function ResultsOf(items: seq<SearchItem>): (rs: seq<WikipediaSearchResult>)
    ensures |rs| == |items|
    ensures forall i :: 0 <= i < |items| ==> rs[i] == ResultOf(items[i])
  {
    if |items| == 0 then [] else [ResultOf(items[0])] + ResultsOf(items[1..])
  }

  /** What a reply whose status is not ok is turned into, ahead of its status. */
  const ApiErrorLead: string := "Wikipedia API error: "

  /** The message of an error that came out of a request: HTTP failures are turned into errors first. */
  function RequestError<T>(f: Fetched<T>, prefix: string): (e: Thrown)
    requires !f.OkBody?
    ensures e.ErrorObject? && StartsWith(e.message, prefix)
    ensures f.NotOk? ==>
      StartsWith(e.message, prefix + ApiErrorLead)
      && ParseInt(e.message[|prefix + ApiErrorLead|..]) == Some(f.status)
    ensures f.FetchThrew? && f.thrown.ErrorObject? ==> e.message[|prefix|..] == f.thrown.message
    ensures f.FetchThrew? && f.thrown.NonError? ==> e.message[|prefix|..] == "Unknown error"
  {
    match f
    case NotOk(status, _) =>
      StatusAfterLead(prefix + ApiErrorLead, status);
      ErrorObject(prefix + ApiErrorLead + IntToString(status))
    case FetchThrew(thrown) =>
      var m := MessageOr(thrown, "Unknown error");
      assert (prefix + m)[..|prefix|] == prefix && (prefix + m)[|prefix|..] == m;
      ErrorObject(prefix + m)
  }

  /** A status written after a lead reads back from where the lead ends. */
  lemma StatusAfterLead(lead: string, status: int)
    ensures StartsWith(lead + IntToString(status), lead)
    ensures ParseInt((lead + IntToString(status))[|lead|..]) == Some(status)
  {
    assert (lead + IntToString(status))[..|lead|] == lead;
    assert (lead + IntToString(status))[|lead|..] == IntToString(status);
    ParseIntOfIntToString(status);
  }

  /**
   * `search`: at most `maxResults` (5 by default) titles are asked for; a
   * reply without `query.search` gives no results; each item becomes a
   * result whose url is the article URL of its title and whose page id is
   * the id written out; any failure is rethrown as
   * "Failed to search Wikipedia: <message>".
   */
  function Search(request: SearchRequest, fetch: string -> Fetched<SearchBody>, now: int): (r: Result<SearchResponse, Thrown>)
    ensures var f := fetch(SearchUrl(request.query, request.maxResults.GetOr(DefaultMaxResults)));
      && (r.Ok? <==> f.OkBody?)
      && (r.Ok? ==> r.value.query == request.query && r.value.timestamp == now)
      && (r.Ok? && f.body.search.None? ==> r.value.results == [])
      && (r.Ok? && f.body.search.Some? ==>
            |r.value.results| == |f.body.search.value|
            && forall i :: 0 <= i < |r.value.results| ==>
                 r.value.results[i].title == f.body.search.value[i].title
                 && r.value.results[i].snippet == f.body.search.value[i].snippet
                 && r.value.results[i].url == ArticleUrl(f.body.search.value[i].title)
                 && ParseInt(r.value.results[i].pageId) == Some(f.body.search.value[i].pageid))
      && (r.Fail? ==> r.error == RequestError(f, "Failed to search Wikipedia: "))
  {
    var f := fetch(SearchUrl(request.query, request.maxResults.GetOr(DefaultMaxResults)));
    match f
    case OkBody(body) =>
      var results := if body.search.Some? then ResultsOf(body.search.value) else [];
      assert forall i :: 0 <= i < |results| ==> ParseInt(results[i].pageId) == Some(body.search.value[i].pageid) by {
        forall i | 0 <= i < |results| {
          ParseIntOfIntToString(body.search.value[i].pageid);
        }
      }
      Ok(SearchResponse(results, request.query, now))
    case _ => Fail(RequestError(f, "Failed to search Wikipedia: "))
  }

  /** Requests without an explicit maximum ask for five results. */
  lemma SearchDefaultsToFive(query: string, fetch: string -> Fetched<SearchBody>, now: int)
    ensures Search(SearchRequest(query, None), fetch, now)
         == Search(SearchRequest(query, Some(5)), fetch, now)
  {
  }

  /** The parsed summary reply: its `extract`, when present. */
  datatype SummaryBody = SummaryBody(extract: Option<string>)

  function SummaryUrl(pageTitle: string): string {
    RestApiUrl + "/page/summary/" + EncodeURIComponent(pageTitle)
  }

  /** `getPageSummary`: the extract, or "" when it is missing or empty. */
  function GetPageSummary(pageTitle: string, fetch: string -> Fetched<SummaryBody>): (r: Result<string, Thrown>)
    ensures var f := fetch(SummaryUrl(pageTitle));
      && (r.Ok? <==> f.OkBody?)
      && (r.Ok? && f.body.extract.Some? ==> r.value == f.body.extract.value)
      && (r.Ok? && f.body.extract.None? ==> r.value == "")
      && (r.Fail? ==> r.error == RequestError(f, "Failed to get Wikipedia summary: "))
  {
    var f := fetch(SummaryUrl(pageTitle));
    match f
    case OkBody(body) => Ok(OrDefault(body.extract, ""))
    case _ => Fail(RequestError(f, "Failed to get Wikipedia summary: "))
  }

  /** One entry of `data.query.pages`. */
  datatype PageEntry = PageEntry(extract: Option<string>)

  /** The parsed content reply; `pages` is absent when `data.query.pages` is. */
  datatype ContentBody = ContentBody(pages: Option<map<string, PageEntry>>)

  function ContentUrl(pageId: string): string {
    ActionApiUrl + "?action=query&pageids=" + pageId + "&prop=extracts&exintro=true&explaintext=true&format=json"
  }

  /** `getPageContent`: the extract of the requested page, or "" when the page or its extract is absent. */
  function GetPageContent(pageId: string, fetch: string -> Fetched<ContentBody>): (r: Result<string, Thrown>)
    ensures var f := fetch(ContentUrl(pageId));
      && (r.Ok? <==> f.OkBody?)
      && (r.Ok? && (f.body.pages.None? || pageId !in f.body.pages.value) ==> r.value == "")
      && ((r.Ok? && f.body.pages.Some? && pageId in f.body.pages.value
             && f.body.pages.value[pageId].extract.Some?) ==> r.value == f.body.pages.value[pageId].extract.value)
      && ((r.Ok? && f.body.pages.Some? && pageId in f.body.pages.value
             && f.body.pages.value[pageId].extract.None?) ==> r.value == "")
      && (r.Fail? ==> r.error == RequestError(f, "Failed to get Wikipedia content: "))
  {
    var f := fetch(ContentUrl(pageId));
    match f
    case OkBody(body) =>
      if body.pages.Some? && pageId in body.pages.value then Ok(OrDefault(body.pages.value[pageId].extract, ""))
      else Ok("")
    case _ => Fail(RequestError(f, "Failed to get Wikipedia content: "))
  }
}
