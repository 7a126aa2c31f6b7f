/**
 * The regular expressions of the two HTTPU codecs, written out as the search a
 * backtracking matcher performs: the leftmost start position first, then greedy
 * quantifiers that give characters back one at a time.
 *
 *   request line   `(V+)\s+(.*)\s+HTTP<sep>(\d\.\d)`  with V = `[\w-]` or `\w`
 *                                                      and sep = `\/` or `\s+`
 *   header line    `(N+):\s*(.*)`                      with N = `[\w\.-]`, `[\w-]` or `\w`
 *   status line    `\s*HTTP\/1.1 200 OK\r\n\z` (case-insensitive)
 *   response line  `HTTP\/1\.1 (\d+) (.+)`
 *
 * `.` never matches '\n'; `\s` does.
 */
module HttpMatch {
  import opened RubyText

  // ---------------------------------------------------------------------------
  // Request line

  /** What separates `HTTP` from the version: `\/` or `\s+`. */
  datatype VersionSeparator = Slash | Spaces

  /** The hash `get_http_verb` returns: `{verb:, path:, http_version:, cmd:}`. */
  datatype RequestLine = RequestLine(verb: string, path: string, httpVersion: string, cmd: string)

  /**
   * One way the request pattern matches a line: the verb is l[s..e], spaces l[e..p],
   * the path l[p..q], spaces l[q..r], `HTTP` starts at r and the version at v.
   */
  datatype Split = Split(s: nat, e: nat, p: nat, q: nat, r: nat, v: nat)

  /** The verb classes: neither contains white space. */
  predicate IsVerbClass(k: CharClass) { k == Word || k == WordDash }

  predicate IsVersionAt(l: string, v: nat) {
    v + 3 <= |l| && IsDigit(l[v]) && l[v + 1] == '.' && IsDigit(l[v + 2])
  }

  /** The letters `HTTP` at r. */
  predicate HttpAt(l: string, r: nat) {
    r + 4 <= |l| && l[r] == 'H' && l[r + 1] == 'T' && l[r + 2] == 'T' && l[r + 3] == 'P'
  }

  /** `HTTP` at r, the separator, then `\d\.\d` at v. */
  predicate IsTail(l: string, r: nat, v: nat, sep: VersionSeparator) {
    && HttpAt(l, r) && IsVersionAt(l, v)
    && match sep
       case Slash => v == r + 5 && l[r + 4] == '/'
       case Spaces => r + 4 < v && AllIn(l, r + 4, v, Space)
  }

  /** `\s+HTTP<sep>(\d\.\d)` with the spaces l[q..r]. */
  predicate IsPathTail(l: string, q: nat, r: nat, v: nat, sep: VersionSeparator) {
    q < r <= |l| && AllIn(l, q, r, Space) && IsTail(l, r, v, sep)
  }

  predicate IsSplit(l: string, m: Split, verbs: CharClass, sep: VersionSeparator) {
    && m.s < m.e < m.p <= m.q <= |l|
    && AllIn(l, m.s, m.e, verbs) && AllIn(l, m.e, m.p, Space)
    && (forall i :: m.p <= i < m.q ==> l[i] != '\n')
    && IsPathTail(l, m.q, m.r, m.v, sep)
  }

  /** The tail at r; with `\s+` the greedy run is the only one a digit can follow. */
  function TailFrom(l: string, r: nat, sep: VersionSeparator): (v: Option<nat>)
    requires r <= |l|
    ensures v.Some? ==> IsTail(l, r, v.value, sep)
  {
    if !HttpAt(l, r) then None
    else
      match sep
      case Slash =>
        if r + 5 <= |l| && l[r + 4] == '/' && IsVersionAt(l, r + 5) then Some(r + 5) else None
      case Spaces =>
        var g := RunEnd(l, r + 4, Space);
        if g > r + 4 && IsVersionAt(l, g) then Some(g) else None
  }

  /** `\s+` at q, then the tail: only the greedy run can be followed by the `H` of `HTTP`. */
  function TailAfterPath(l: string, q: nat, sep: VersionSeparator): (t: Option<(nat, nat)>)
    requires q <= |l|
    ensures t.Some? ==> IsPathTail(l, q, t.value.0, t.value.1, sep)
  {
    if q < |l| && IsSpace(l[q]) then
      var r := RunEnd(l, q, Space);
      match TailFrom(l, r, sep)
      case Some(v) => Some((r, v))
      case None => None
    else None
  }

  /** `(.*)` from p: its end is tried from q (at first the line end) down to p. */
  function PathEnd(l: string, p: nat, q: nat, sep: VersionSeparator): (t: Option<(nat, nat, nat)>)
    requires p <= |l| && p <= q <= LineEnd(l, p)
    ensures t.Some? ==> p <= t.value.0 <= q && IsPathTail(l, t.value.0, t.value.1, t.value.2, sep)
    decreases q - p
  {
    match TailAfterPath(l, q, sep)
    case Some((r, v)) => Some((q, r, v))
    case None => if q > p then PathEnd(l, p, q - 1, sep) else None
  }

  /** The spaces after the verb: the path start is tried from p (at first the end of the run) down to e + 1. */
  function PathStart(l: string, s: nat, e: nat, p: nat, verbs: CharClass, sep: VersionSeparator): (m: Option<Split>)
    requires s < e < p <= |l| && AllIn(l, s, e, verbs) && AllIn(l, e, p, Space)
    ensures m.Some? ==> IsSplit(l, m.value, verbs, sep) && m.value.s == s && m.value.e == e
    ensures m.Some? ==> m.value.p <= p
    decreases p
  {
    match PathEnd(l, p, LineEnd(l, p), sep)
    case Some((q, r, v)) => Some(Split(s, e, p, q, r, v))
    case None => if p - 1 > e then PathStart(l, s, e, p - 1, verbs, sep) else None
  }

  /** The pattern tried at start s; a shorter verb would be followed by a verb character, not a space. */
  function SplitAt(l: string, s: nat, verbs: CharClass, sep: VersionSeparator): (m: Option<Split>)
    requires s <= |l|
    ensures m.Some? ==> IsSplit(l, m.value, verbs, sep) && m.value.s == s
  {
    var e := RunEnd(l, s, verbs);
    if s < e < |l| && IsSpace(l[e]) then PathStart(l, s, e, RunEnd(l, e, Space), verbs, sep) else None
  }

  /** `=~`: the first start position, from s on, where the pattern matches. */
  function FirstSplit(l: string, s: nat, verbs: CharClass, sep: VersionSeparator): (m: Option<Split>)
    requires s <= |l|
    ensures m.Some? ==> IsSplit(l, m.value, verbs, sep) && s <= m.value.s
    ensures m.Some? ==> SplitAt(l, m.value.s, verbs, sep) == m
    decreases |l| - s
  {
    match SplitAt(l, s, verbs, sep)
    case Some(m) => Some(m)
    case None => if s < |l| then FirstSplit(l, s + 1, verbs, sep) else None
  }

  /** The captures of the match, and the whole line as `:cmd`. */
  function MatchRequestLine(l: string, verbs: CharClass, sep: VersionSeparator): (r: Option<RequestLine>)
    ensures r.Some? ==> r.value.cmd == l && |r.value.httpVersion| == 3
    ensures r.Some? ==> r.value.verb != [] && forall i :: 0 <= i < |r.value.verb| ==> InClass(r.value.verb[i], verbs)
  {
    match FirstSplit(l, 0, verbs, sep)
    case None => None
    case Some(m) => Some(RequestLine(l[m.s..m.e], l[m.p..m.q], l[m.v..m.v + 3], l))
  }

  // Completeness: the search finds a match whenever one exists, the leftmost one,
  // and at that start the one with the longest run of spaces and then the longest path.

  lemma TailFromFinds(l: string, r: nat, v: nat, sep: VersionSeparator)
    requires IsTail(l, r, v, sep)
    ensures TailFrom(l, r, sep) == Some(v)
  {
    if sep.Spaces? { RunEndIs(l, r + 4, v, Space); }
  }

  lemma TailAfterPathFinds(l: string, q: nat, r: nat, v: nat, sep: VersionSeparator)
    requires IsPathTail(l, q, r, v, sep)
    ensures TailAfterPath(l, q, sep) == Some((r, v))
  {
    RunEndIs(l, q, r, Space);
    TailFromFinds(l, r, v, sep);
  }

  lemma {:induction false} PathEndLongest(l: string, p: nat, q0: nat, q: nat, r: nat, v: nat, sep: VersionSeparator)
    requires p <= |l| && p <= q <= q0 <= LineEnd(l, p)
    requires IsPathTail(l, q, r, v, sep)
    ensures PathEnd(l, p, q0, sep).Some? && q <= PathEnd(l, p, q0, sep).value.0
    decreases q0 - q
  {
    if q0 == q {
      TailAfterPathFinds(l, q, r, v, sep);
    } else if TailAfterPath(l, q0, sep).None? {
      PathEndLongest(l, p, q0 - 1, q, r, v, sep);
    }
  }

  /** At the split's own path start, the path found is at least as long as the split's. */
  lemma PathEndOfSplit(l: string, m: Split, verbs: CharClass, sep: VersionSeparator)
    requires IsSplit(l, m, verbs, sep)
    ensures PathEnd(l, m.p, LineEnd(l, m.p), sep).Some?
    ensures m.q <= PathEnd(l, m.p, LineEnd(l, m.p), sep).value.0
  {
    assert m.q <= LineEnd(l, m.p);
    PathEndLongest(l, m.p, LineEnd(l, m.p), m.q, m.r, m.v, sep);
  }

  lemma {:induction false} PathStartGreedy(l: string, p0: nat, m: Split, verbs: CharClass, sep: VersionSeparator)
    requires IsSplit(l, m, verbs, sep)
    requires m.p <= p0 <= |l| && AllIn(l, m.e, p0, Space)
    ensures PathStart(l, m.s, m.e, p0, verbs, sep).Some?
    ensures PathNoShorter(m, PathStart(l, m.s, m.e, p0, verbs, sep).value)
    decreases p0
  {
    if p0 == m.p {
      PathStartAtSplit(l, m, verbs, sep);
    } else if PathEnd(l, p0, LineEnd(l, p0), sep).None? {
      PathStartStep(l, m.s, m.e, p0, verbs, sep);
      PathStartGreedy(l, p0 - 1, m, verbs, sep);
    } else {
      PathStartStep(l, m.s, m.e, p0, verbs, sep);
    }
  }

  /** At the split's own path start the search stops with a path at least as long. */
  lemma PathStartAtSplit(l: string, m: Split, verbs: CharClass, sep: VersionSeparator)
    requires IsSplit(l, m, verbs, sep)
    ensures PathStart(l, m.s, m.e, m.p, verbs, sep).Some?
    ensures PathNoShorter(m, PathStart(l, m.s, m.e, m.p, verbs, sep).value)
  {
    PathEndOfSplit(l, m, verbs, sep);
    PathStartStep(l, m.s, m.e, m.p, verbs, sep);
  }

  /** The split `n` starts its path later than `m`, or at the same place with a path at least as long. */
  predicate PathNoShorter(m: Split, n: Split) {
    m.p < n.p || (m.p == n.p && m.q <= n.q)
  }

  /** One step of the path-start search. */
  lemma PathStartStep(l: string, s: nat, e: nat, p: nat, verbs: CharClass, sep: VersionSeparator)
    requires s < e < p <= |l| && AllIn(l, s, e, verbs) && AllIn(l, e, p, Space)
    ensures PathEnd(l, p, LineEnd(l, p), sep).Some? ==>
      PathStart(l, s, e, p, verbs, sep) == Some(Split(s, e, p, PathEnd(l, p, LineEnd(l, p), sep).value.0,
                                                     PathEnd(l, p, LineEnd(l, p), sep).value.1,
                                                     PathEnd(l, p, LineEnd(l, p), sep).value.2))
    ensures PathEnd(l, p, LineEnd(l, p), sep).None? && p - 1 > e ==>
      PathStart(l, s, e, p, verbs, sep) == PathStart(l, s, e, p - 1, verbs, sep)
  {
  }

  lemma SplitAtGreedy(l: string, m: Split, verbs: CharClass, sep: VersionSeparator)
    requires IsVerbClass(verbs) && IsSplit(l, m, verbs, sep)
    ensures SplitAt(l, m.s, verbs, sep).Some?
    ensures var n := SplitAt(l, m.s, verbs, sep).value;
            n.e == m.e && (m.p < n.p || (m.p == n.p && m.q <= n.q))
  {
    assert IsSpace(l[m.e]);
    RunEndIs(l, m.s, m.e, verbs);
    RunEndCovers(l, m.e, m.p, Space);
    PathStartGreedy(l, RunEnd(l, m.e, Space), m, verbs, sep);
  }

  lemma {:induction false} FirstSplitLeftmost(l: string, s0: nat, m: Split, verbs: CharClass, sep: VersionSeparator)
    requires IsVerbClass(verbs) && IsSplit(l, m, verbs, sep) && s0 <= m.s
    ensures FirstSplit(l, s0, verbs, sep).Some? && FirstSplit(l, s0, verbs, sep).value.s <= m.s
    decreases m.s - s0
  {
    if s0 == m.s {
      SplitAtGreedy(l, m, verbs, sep);
      FirstSplitStep(l, s0, verbs, sep);
    } else if SplitAt(l, s0, verbs, sep).None? {
      FirstSplitStep(l, s0, verbs, sep);
      FirstSplitLeftmost(l, s0 + 1, m, verbs, sep);
    } else {
      FirstSplitStep(l, s0, verbs, sep);
    }
  }

  /** One step of the start-position search. */
  lemma FirstSplitStep(l: string, s: nat, verbs: CharClass, sep: VersionSeparator)
    requires s <= |l|
    ensures SplitAt(l, s, verbs, sep).Some? ==> FirstSplit(l, s, verbs, sep) == SplitAt(l, s, verbs, sep)
    ensures SplitAt(l, s, verbs, sep).None? && s < |l| ==> FirstSplit(l, s, verbs, sep) == FirstSplit(l, s + 1, verbs, sep)
  {
  }

  /**
   * The request pattern matches exactly when some split exists; the split used starts
   * leftmost and, at that start, takes the most spaces after the verb and then the
   * longest path.
   */
  lemma RequestLineMatchIsLeftmostGreedy(l: string, m: Split, verbs: CharClass, sep: VersionSeparator)
    requires IsVerbClass(verbs) && IsSplit(l, m, verbs, sep)
    ensures FirstSplit(l, 0, verbs, sep).Some?
    ensures var n := FirstSplit(l, 0, verbs, sep).value;
            n.s <= m.s && (n.s == m.s ==> n.e == m.e && (m.p < n.p || (m.p == n.p && m.q <= n.q)))
  {
    FirstSplitLeftmost(l, 0, m, verbs, sep);
    var n := FirstSplit(l, 0, verbs, sep).value;
    if n.s == m.s { SplitAtGreedy(l, m, verbs, sep); }
  }

  // ---------------------------------------------------------------------------
  // Well-formed request lines `VERB SP path SP HTTP/d.d CRLF`

  /** The request line a client sends: `VERB SP path SP HTTP/d1.d2 CRLF`. */
  function RequestText(verb: string, path: string, d1: char, d2: char): (l: string)
    ensures |l| == |verb| + |path| + 12
  {
    verb + " " + path + " HTTP/" + [d1, '.', d2] + "\r\n"
  }

  predicate NoSpaceIn(s: string) {
    forall i :: 0 <= i < |s| ==> !IsSpace(s[i])
  }

  /** Where each part of a request line sits; B is the position of the space before `HTTP`. */
  lemma RequestTextLayout(verb: string, path: string, d1: char, d2: char)
    ensures var l := RequestText(verb, path, d1, d2); var B := |verb| + 1 + |path|;
      && l[..|verb|] == verb && l[|verb|] == ' ' && l[|verb| + 1..B] == path && l[B] == ' '
      && HttpAt(l, B + 1) && l[B + 5] == '/' && l[B + 6] == d1 && l[B + 7] == '.'
      && l[B + 8] == d2 && l[B + 9] == '\r' && l[B + 10] == '\n'
  {
    var l := RequestText(verb, path, d1, d2);
    var B := |verb| + 1 + |path|;
    var tail := " HTTP/" + [d1, '.', d2] + "\r\n";
    assert l == verb + " " + path + tail;
    assert l[B..] == tail;
  }

  lemma RequestTextChars(verb: string, path: string, d1: char, d2: char)
    ensures var l := RequestText(verb, path, d1, d2);
      && (forall i :: 0 <= i < |verb| ==> l[i] == verb[i])
      && (forall i :: 0 <= i < |path| ==> l[|verb| + 1 + i] == path[i])
  {
    RequestTextLayout(verb, path, d1, d2);
    var l := RequestText(verb, path, d1, d2);
    forall i | 0 <= i < |verb| ensures l[i] == verb[i] { assert l[..|verb|][i] == l[i]; }
    forall i | 0 <= i < |path| ensures l[|verb| + 1 + i] == path[i] {
      assert l[|verb| + 1..|verb| + 1 + |path|][i] == l[|verb| + 1 + i];
    }
  }

  /** No white space character of the line is directly followed by a digit. */
  predicate NoSpaceBeforeDigit(l: string) {
    forall j :: 0 <= j < |l| - 1 ==> IsSpace(l[j]) ==> !IsDigit(l[j + 1])
  }

  lemma RequestTextNoSpaceBeforeDigit(verb: string, path: string, d1: char, d2: char)
    requires NoSpaceIn(verb) && NoSpaceIn(path) && path != [] && !IsDigit(path[0])
    ensures NoSpaceBeforeDigit(RequestText(verb, path, d1, d2))
  {
    RequestTextLayout(verb, path, d1, d2);
    RequestTextChars(verb, path, d1, d2);
    var l := RequestText(verb, path, d1, d2);
    var B := |verb| + 1 + |path|;
    assert l[B + 1] == 'H' by { assert l[B + 1..B + 5][0] == l[B + 1]; }
    assert l[B + 2] == 'T' by { assert l[B + 1..B + 5][1] == l[B + 2]; }
    assert l[B + 3] == 'T' by { assert l[B + 1..B + 5][2] == l[B + 3]; }
    assert l[B + 4] == 'P' by { assert l[B + 1..B + 5][3] == l[B + 4]; }
  }

  /**
   * With `\s+` between `HTTP` and the version, the version must follow white space;
   * a line where no white space precedes a digit never matches.
   */
  lemma SpacesSeparatorNeedsSpaceBeforeDigit(l: string, verbs: CharClass)
    requires NoSpaceBeforeDigit(l)
    ensures MatchRequestLine(l, verbs, Spaces).None?
  {
    if FirstSplit(l, 0, verbs, Spaces).Some? {
      SpacesSplitHasSpaceBeforeDigit(l, FirstSplit(l, 0, verbs, Spaces).value, verbs);
    }
  }

  lemma SpacesSplitHasSpaceBeforeDigit(l: string, m: Split, verbs: CharClass)
    requires IsSplit(l, m, verbs, Spaces)
    ensures 0 < m.v < |l| && IsSpace(l[m.v - 1]) && IsDigit(l[m.v])
  {
  }

  /**
   * With `\s+` between `HTTP` and the version, no well-formed request line
   * `VERB SP path SP HTTP/d.d CRLF` is recognised (a path does not start with a digit).
   */
  lemma SpacesSeparatorRejectsRequestText(verb: string, path: string, d1: char, d2: char, verbs: CharClass)
    requires NoSpaceIn(verb) && NoSpaceIn(path) && path != [] && !IsDigit(path[0])
    ensures MatchRequestLine(RequestText(verb, path, d1, d2), verbs, Spaces).None?
  {
    RequestTextNoSpaceBeforeDigit(verb, path, d1, d2);
    SpacesSeparatorNeedsSpaceBeforeDigit(RequestText(verb, path, d1, d2), verbs);
  }

  lemma {:induction false} PathEndSkips(l: string, p: nat, q0: nat, q: nat, sep: VersionSeparator)
    requires p <= |l| && p <= q0 <= q <= LineEnd(l, p)
    requires forall x :: q0 < x <= q ==> TailAfterPath(l, x, sep).None?
    ensures PathEnd(l, p, q, sep) == PathEnd(l, p, q0, sep)
    decreases q - q0
  {
    if q0 < q { PathEndSkips(l, p, q0, q - 1, sep); }
  }

  /**
   * The shape of `VERB SP path SP HTTP/d.d CRLF` seen character by character: the
   * verb ends at e and the space before `HTTP` is at B.
   */
  predicate RequestLayout(l: string, e: nat, B: nat) {
    && e < B && |l| == B + 11 && l[e] == ' ' && (forall i :: e < i < B ==> !IsSpace(l[i]))
    && l[B] == ' ' && l[B + 1] == 'H' && l[B + 2] == 'T' && l[B + 3] == 'T' && l[B + 4] == 'P'
    && l[B + 5] == '/' && IsDigit(l[B + 6]) && l[B + 7] == '.' && IsDigit(l[B + 8])
    && l[B + 9] == '\r' && l[B + 10] == '\n'
  }

  lemma RequestTextHasLayout(verb: string, path: string, d1: char, d2: char)
    requires NoSpaceIn(path) && IsDigit(d1) && IsDigit(d2)
    ensures var l := RequestText(verb, path, d1, d2); var B := |verb| + 1 + |path|;
      RequestLayout(l, |verb|, B) && l[..|verb|] == verb && l[|verb| + 1..B] == path && l[B + 6..B + 9] == [d1, '.', d2]
  {
    RequestTextLayout(verb, path, d1, d2);
    RequestTextChars(verb, path, d1, d2);
    var l := RequestText(verb, path, d1, d2);
    var B := |verb| + 1 + |path|;
    assert l[B + 1] == 'H' by { assert l[B + 1..B + 5][0] == l[B + 1]; }
    assert l[B + 2] == 'T' by { assert l[B + 1..B + 5][1] == l[B + 2]; }
    assert l[B + 3] == 'T' by { assert l[B + 1..B + 5][2] == l[B + 3]; }
    assert l[B + 4] == 'P' by { assert l[B + 1..B + 5][3] == l[B + 4]; }
  }

  /** No path end after the space before `HTTP` is followed by the tail. */
  lemma LayoutNoLaterTail(l: string, e: nat, B: nat, x: nat)
    requires RequestLayout(l, e, B) && B < x <= B + 10
    ensures TailAfterPath(l, x, Slash).None?
  {
    if x >= B + 9 { RunEndIs(l, x, B + 11, Space); }
  }

  /** In a well-formed line the greedy path ends at the space before `HTTP`. */
  lemma LayoutPathEnd(l: string, e: nat, B: nat)
    requires RequestLayout(l, e, B)
    ensures LineEnd(l, e + 1) == B + 10 && PathEnd(l, e + 1, B + 10, Slash) == Some((B, B + 1, B + 6))
  {
    LineEndAt(l, e + 1, B + 10);
    forall x | B < x <= B + 10 ensures TailAfterPath(l, x, Slash).None? { LayoutNoLaterTail(l, e, B, x); }
    PathEndSkips(l, e + 1, B, B + 10, Slash);
    RunEndIs(l, B, B + 1, Space);
  }

  lemma LayoutSplit(l: string, e: nat, B: nat)
    requires RequestLayout(l, e, B) && e + 1 < B && 0 < e && AllIn(l, 0, e, WordDash)
    ensures MatchRequestLine(l, WordDash, Slash) == Some(RequestLine(l[0..e], l[e + 1..B], l[B + 6..B + 9], l))
  {
    LayoutPathEnd(l, e, B);
    RunEndIs(l, 0, e, WordDash);
    RunEndIs(l, e, e + 1, Space);
    assert SplitAt(l, 0, WordDash, Slash) == Some(Split(0, e, e + 1, B, B + 1, B + 6));
  }

  lemma PrefixAllIn(l: string, p: string, k: CharClass)
    requires |p| <= |l| && l[..|p|] == p && AllIn(p, 0, |p|, k)
    ensures AllIn(l, 0, |p|, k)
  {
    forall t | 0 <= t < |p| ensures InClass(l[t], k) { assert l[t] == l[..|p|][t]; }
  }

  /**
   * With `[\w-]+` verbs and `HTTP\/`, a well-formed request line is split into its
   * verb, its path and its version, and `:cmd` is the whole line.
   */
  lemma SlashSeparatorSplitsRequestText(verb: string, path: string, d1: char, d2: char)
    requires verb != [] && AllIn(verb, 0, |verb|, WordDash)
    requires NoSpaceIn(path) && path != [] && IsDigit(d1) && IsDigit(d2)
    ensures var l := RequestText(verb, path, d1, d2);
      MatchRequestLine(l, WordDash, Slash) == Some(RequestLine(verb, path, [d1, '.', d2], l))
  {
    var l := RequestText(verb, path, d1, d2);
    var B := |verb| + 1 + |path|;
    RequestTextHasLayout(verb, path, d1, d2);
    assert RequestLayout(l, |verb|, B);
    assert l[..|verb|] == verb && l[|verb| + 1..B] == path && l[B + 6..B + 9] == [d1, '.', d2];
    PrefixAllIn(l, verb, WordDash);
    LayoutSplit(l, |verb|, B);
    assert l[0..|verb|] == l[..|verb|];
  }

  /** The NOTIFY request line an SSDP advertisement starts with. */
  lemma NotifyLineIsRequestText()
    ensures "NOTIFY * HTTP/1.1\r\n" == RequestText("NOTIFY", "*", '1', '1')
  {
  }

  /** The M-SEARCH request line an SSDP search starts with. */
  lemma MSearchLineIsRequestText()
    ensures "M-SEARCH * HTTP/1.1\r\n" == RequestText("M-SEARCH", "*", '1', '1')
  {
  }

  // ---------------------------------------------------------------------------
  // Header line `(N+):\s*(.*)`

  /** No class used for header names or verbs contains ':'. */
  lemma ColonInNoClass(k: CharClass)
    ensures !InClass(':', k)
  {
  }

  /** The pattern at start s: the whole name run (a shorter one is followed by a name character), then ':'. */
  function HeaderAt(l: string, s: nat, names: CharClass): (c: Option<nat>)
    requires s <= |l|
    ensures c.Some? ==> s < c.value < |l| && AllIn(l, s, c.value, names) && l[c.value] == ':'
  {
    var c := RunEnd(l, s, names);
    if s < c < |l| && l[c] == ':' then Some(c) else None
  }

  /** The first start, from s on, where a name followed by ':' begins; with the colon's position. */
  function FirstHeader(l: string, s: nat, names: CharClass): (h: Option<(nat, nat)>)
    requires s <= |l|
    ensures h.Some? ==> s <= h.value.0 <= |l| && HeaderAt(l, h.value.0, names) == Some(h.value.1)
    decreases |l| - s
  {
    match HeaderAt(l, s, names)
    case Some(c) => Some((s, c))
    case None => if s < |l| then FirstHeader(l, s + 1, names) else None
  }

  /** `\s*(.*)` from i: the greedy run of spaces, then the rest of the line without its '\n'. */
  function ValueFrom(l: string, i: nat): (v: string)
    requires i <= |l|
    ensures forall t :: 0 <= t < |v| ==> v[t] != '\n'
  {
    var g := RunEnd(l, i, Space);
    l[g..LineEnd(l, g)]
  }

  /** `$1` and `$2` after `l =~ /(N+):\s*(.*)/`, or None when the line does not match. */
  function MatchHeaderLine(l: string, names: CharClass): (h: Option<(string, string)>)
    ensures h.Some? ==> h.value.0 != [] && forall t :: 0 <= t < |h.value.0| ==> InClass(h.value.0[t], names)
    ensures h.Some? ==> forall t :: 0 <= t < |h.value.1| ==> h.value.1[t] != '\n'
  {
    match FirstHeader(l, 0, names)
    case None => None
    case Some((s, c)) => Some((l[s..c], ValueFrom(l, c + 1)))
  }

  lemma {:induction false} FirstHeaderFinds(l: string, s0: nat, s: nat, c: nat, names: CharClass)
    requires s0 <= s < c < |l| && AllIn(l, s, c, names) && l[c] == ':'
    ensures FirstHeader(l, s0, names).Some? && FirstHeader(l, s0, names).value.0 <= s
    decreases s - s0
  {
    if s0 == s {
      ColonInNoClass(names);
      RunEndIs(l, s, c, names);
    } else if HeaderAt(l, s0, names).None? {
      FirstHeaderFinds(l, s0 + 1, s, c, names);
    }
  }

  /** A line matches exactly when some name run is directly followed by ':'; the leftmost such run is captured. */
  lemma HeaderLineMatchIsLeftmost(l: string, s: nat, c: nat, names: CharClass)
    requires s < c < |l| && AllIn(l, s, c, names) && l[c] == ':'
    ensures MatchHeaderLine(l, names).Some?
    ensures FirstHeader(l, 0, names).value.0 <= s
  {
    FirstHeaderFinds(l, 0, s, c, names);
  }

  lemma {:induction false} FirstHeaderSkips(l: string, s0: nat, s: nat, names: CharClass)
    requires s0 <= s <= |l|
    requires forall x :: s0 <= x < s ==> HeaderAt(l, x, names).None?
    ensures FirstHeader(l, s0, names) == FirstHeader(l, s, names)
    decreases s - s0
  {
    if s0 < s { FirstHeaderSkips(l, s0 + 1, s, names); }
  }

  /** The value capture of `name + ":" + rest` depends on `rest` only. */
  lemma ValueAfterColon(a: string, rest: string)
    ensures ValueFrom(a + rest, |a|) == ValueFrom(rest, 0)
  {
    RunEndShift(a, rest, 0, Space);
    var g := RunEnd(rest, 0, Space);
    LineEndShift(a, rest, g);
    assert (a + rest)[|a| + g..|a| + LineEnd(rest, g)] == rest[g..LineEnd(rest, g)];
  }

  /** The value capture of `: value CRLF` is the value with the line's carriage return. */
  lemma ValueOfHeaderRest(value: string)
    requires value != [] && !IsSpace(value[0]) && forall k :: 0 <= k < |value| ==> value[k] != '\n'
    ensures ValueFrom(" " + value + "\r\n", 0) == value + "\r"
  {
    var l := " " + value + "\r\n";
    assert l[1] == value[0];
    RunEndIs(l, 0, 1, Space);
    forall k | 1 <= k < |l| - 1 ensures l[k] != '\n' {
      if k <= |value| { assert l[k] == value[k - 1]; }
    }
    LineEndAt(l, 1, |l| - 1);
    assert l[1..|l| - 1] == value + "\r";
  }

  /** `Name: value` is keyed by its whole name when the name is made of name characters. */
  lemma HeaderLineOf(name: string, rest: string, names: CharClass)
    requires name != [] && AllIn(name, 0, |name|, names)
    ensures MatchHeaderLine(name + ":" + rest, names) == Some((name, ValueFrom(rest, 0)))
  {
    var l := name + ":" + rest;
    assert AllIn(l, 0, |name|, names) by {
      forall t | 0 <= t < |name| ensures InClass(l[t], names) { assert l[t] == name[t]; }
    }
    assert l[|name|] == ':';
    ColonInNoClass(names);
    RunEndIs(l, 0, |name|, names);
    assert l[0..|name|] == name;
    assert l == (name + ":") + rest;
    ValueAfterColon(name + ":", rest);
  }

  /** No name run that starts before a '.' can reach a ':' when there is none before the '.'. */
  lemma DotStopsNames(l: string, b: nat, x: nat)
    requires 0 <= x < b <= |l| && l[b - 1] == '.'
    requires forall t :: 0 <= t < b ==> l[t] != ':'
    ensures HeaderAt(l, x, WordDash).None?
  {
    assert !InClass(l[b - 1], WordDash);
  }

  /** At the start of a name run that is followed by ':', the pattern matches with that colon. */
  lemma HeaderAtName(a: string, name: string, rest: string, names: CharClass)
    requires name != [] && AllIn(name, 0, |name|, names)
    ensures HeaderAt(a + name + ":" + rest, |a|, names) == Some(|a| + |name|)
  {
    var l := a + name + ":" + rest;
    var b := |a|;
    assert AllIn(l, b, b + |name|, names) by {
      forall t | b <= t < b + |name| ensures InClass(l[t], names) { assert l[t] == name[t - b]; }
    }
    assert l[b + |name|] == ':';
    ColonInNoClass(names);
    RunEndIs(l, b, b + |name|, names);
  }

  /**
   * With `[\w-]` names a dotted header name is keyed by its last segment: in
   * `prefix.last: value` no run before the last '.' is followed by ':'.
   */
  lemma DottedHeaderLine(prefix: string, last: string, rest: string)
    requires forall t :: 0 <= t < |prefix| ==> prefix[t] != ':'
    requires last != [] && AllIn(last, 0, |last|, WordDash)
    ensures MatchHeaderLine(prefix + "." + last + ":" + rest, WordDash) == Some((last, ValueFrom(rest, 0)))
  {
    var a := prefix + ".";
    var l := a + last + ":" + rest;
    assert l == prefix + "." + last + ":" + rest;
    var b := |a|;
    assert l[..b] == a;
    forall x | 0 <= x < b
      ensures HeaderAt(l, x, WordDash).None?
    {
      DotStopsNames(l, b, x);
    }
    FirstHeaderSkips(l, 0, b, WordDash);
    HeaderAtName(a, last, rest, WordDash);
    assert l[b..b + |last|] == last;
    assert l == (a + last + ":") + rest;
    ValueAfterColon(a + last + ":", rest);
  }

  // ---------------------------------------------------------------------------
  // Status line `\s*HTTP\/1.1 200 OK\r\n\z` with /i

  /** `c` equals the upper-case ASCII letter `upper` under /i. */
  predicate SameLetter(c: char, upper: char)
    requires IsUpper(upper)
  {
    c == upper || c as int == upper as int + 32
  }

  /**
   * The 17 characters the pattern consumes after `\s*`: the letters in either case,
   * and any character but '\n' where the unescaped `.` of `1.1` stands.
   */
  predicate IsStatusOkText(t: string) {
    && |t| == 17
    && SameLetter(t[0], 'H') && SameLetter(t[1], 'T') && SameLetter(t[2], 'T') && SameLetter(t[3], 'P')
    && t[4] == '/' && t[5] == '1' && t[6] != '\n' && t[7] == '1' && t[8] == ' '
    && t[9] == '2' && t[10] == '0' && t[11] == '0' && t[12] == ' '
    && SameLetter(t[13], 'O') && SameLetter(t[14], 'K') && t[15] == '\r' && t[16] == '\n'
  }

  /** The pattern at start s: `\s*` takes the greedy run (the text after it starts with a letter), then the 17 characters and `\z`. */
  predicate StatusAt(l: string, s: nat)
    requires s <= |l|
  {
    IsStatusOkText(l[RunEnd(l, s, Space)..])
  }

  /** `l =~ /\s*HTTP\/1.1 200 OK\r\n\z/i` searched from start s on. */
  predicate StatusSearch(l: string, s: nat)
    requires s <= |l|
    decreases |l| - s
  {
    StatusAt(l, s) || (s < |l| && StatusSearch(l, s + 1))
  }

  /** The line ends with the 17 characters of an OK status. */
  predicate EndsWithStatusOk(l: string) {
    |l| >= 17 && IsStatusOkText(l[|l| - 17..])
  }

  lemma {:induction false} StatusSearchFinds(l: string, s0: nat, s: nat)
    requires s0 <= s <= |l| && StatusAt(l, s)
    ensures StatusSearch(l, s0)
    decreases s - s0
  {
    if s0 < s { StatusSearchFinds(l, s0 + 1, s); }
  }

  lemma {:induction false} StatusSearchEnds(l: string, s0: nat)
    requires s0 <= |l| && StatusSearch(l, s0)
    ensures EndsWithStatusOk(l)
    decreases |l| - s0
  {
    if StatusAt(l, s0) {
      var g := RunEnd(l, s0, Space);
      assert l[g..] == l[|l| - 17..];
    } else {
      StatusSearchEnds(l, s0 + 1);
    }
  }

  /** The search succeeds exactly when the line ends with the OK status: the leading `\s*` constrains nothing. */
  lemma StatusSearchIffEndsWith(l: string)
    ensures StatusSearch(l, 0) <==> EndsWithStatusOk(l)
  {
    if EndsWithStatusOk(l) {
      var s := |l| - 17;
      assert l[s..][0] == l[s];
      RunEndIs(l, s, s, Space);
      StatusSearchFinds(l, 0, s);
    }
    if StatusSearch(l, 0) { StatusSearchEnds(l, 0); }
  }

  /** An accepted line ends with CR LF right after `OK`, and its code is 200. */
  lemma StatusOkShape(l: string)
    requires StatusSearch(l, 0)
    ensures |l| >= 17 && l[|l| - 2] == '\r' && l[|l| - 1] == '\n'
    ensures l[|l| - 8] == '2' && l[|l| - 7] == '0' && l[|l| - 6] == '0'
    ensures SameLetter(l[|l| - 4], 'O') && SameLetter(l[|l| - 3], 'K')
  {
    StatusSearchEnds(l, 0);
    var t := l[|l| - 17..];
    assert t[15] == l[|l| - 2] && t[16] == l[|l| - 1];
    assert t[9] == l[|l| - 8] && t[10] == l[|l| - 7] && t[11] == l[|l| - 6];
    assert t[13] == l[|l| - 4] && t[14] == l[|l| - 3];
  }

  lemma DowncaseSameLetter(c: char, upper: char)
    requires IsUpper(upper)
    ensures SameLetter(DowncaseChar(c), upper) <==> SameLetter(c, upper)
  {
  }

  /** Case does not matter: a line is accepted exactly when its downcased form is. */
  lemma StatusOkCaseInsensitive(l: string)
    ensures StatusSearch(l, 0) <==> StatusSearch(Downcase(l), 0)
  {
    StatusSearchIffEndsWith(l);
    StatusSearchIffEndsWith(Downcase(l));
    var d := Downcase(l);
    if |l| >= 17 {
      var t := l[|l| - 17..];
      var u := d[|l| - 17..];
      assert forall i :: 0 <= i < 17 ==> u[i] == DowncaseChar(t[i]);
      DowncaseSameLetter(t[0], 'H');
      DowncaseSameLetter(t[1], 'T');
      DowncaseSameLetter(t[3], 'P');
      DowncaseSameLetter(t[13], 'O');
      DowncaseSameLetter(t[14], 'K');
    }
  }

  /** Whatever precedes the status text does not matter. */
  lemma StatusOkAnyPrefix(prefix: string, l: string)
    requires |l| >= 17
    ensures StatusSearch(prefix + l, 0) <==> StatusSearch(l, 0)
  {
    StatusSearchIffEndsWith(l);
    StatusSearchIffEndsWith(prefix + l);
    assert (prefix + l)[|prefix + l| - 17..] == l[|l| - 17..];
  }

  /** The status line every HTTP/1.1 OK response starts with is the accepted text, in either case. */
  lemma StatusOkCanonical()
    ensures IsStatusOkText("HTTP/1.1 200 OK\r\n") && IsStatusOkText("http/1.1 200 ok\r\n")
  {
  }

  /** A line made of anything followed by the accepted text is accepted. */
  lemma StatusOkAccepts(prefix: string, t: string)
    requires IsStatusOkText(t)
    ensures StatusSearch(prefix + t, 0)
  {
    var l := prefix + t;
    assert l[|l| - 17..] == t;
    StatusSearchIffEndsWith(l);
  }

  /** A status line that stops after `OK` without CR LF is rejected. */
  lemma StatusOkNeedsCrLf(l: string)
    requires |l| < 2 || l[|l| - 2] != '\r' || l[|l| - 1] != '\n'
    ensures !StatusSearch(l, 0)
  {
    if StatusSearch(l, 0) { StatusOkShape(l); }
  }

  // ---------------------------------------------------------------------------
  // Response line `HTTP\/1\.1 (\d+) (.+)`

  /**
   * The pattern at start s, with the end of the status code: the greedy digit run
   * (a shorter one would be followed by a digit, not ' '), ' ', and at least one
   * character of the line for `(.+)`.
   */
  function ResponseAt(l: string, s: nat): (d: Option<nat>)
    requires s <= |l|
    ensures d.Some? ==> s + 9 < d.value && d.value + 1 < |l| && l[s..s + 9] == "HTTP/1.1 "
    ensures d.Some? ==> AllIn(l, s + 9, d.value, Digit) && l[d.value] == ' ' && l[d.value + 1] != '\n'
  {
    if s + 9 <= |l| && l[s..s + 9] == "HTTP/1.1 " then
      var d := RunEnd(l, s + 9, Digit);
      if s + 9 < d && d + 1 < |l| && l[d] == ' ' && l[d + 1] != '\n' then Some(d) else None
    else None
  }

  /** The first start, from s on, where the response pattern matches; with the end of the code. */
  function FirstResponse(l: string, s: nat): (h: Option<(nat, nat)>)
    requires s <= |l|
    ensures h.Some? ==> s <= h.value.0 <= |l| && ResponseAt(l, h.value.0) == Some(h.value.1)
    decreases |l| - s
  {
    match ResponseAt(l, s)
    case Some(d) => Some((s, d))
    case None => if s < |l| then FirstResponse(l, s + 1) else None
  }

  /** `$1` (the code) and `$2` (the reason, up to the end of the line, '\r' included). */
  function MatchResponseLine(l: string): (r: Option<(string, string)>)
    ensures r.Some? ==> r.value.0 != [] && forall i :: 0 <= i < |r.value.0| ==> IsDigit(r.value.0[i])
    ensures r.Some? ==> r.value.1 != [] && forall i :: 0 <= i < |r.value.1| ==> r.value.1[i] != '\n'
  {
    match FirstResponse(l, 0)
    case None => None
    case Some((s, d)) => Some((l[s + 9..d], l[d + 1..LineEnd(l, d + 1)]))
  }

  lemma {:induction false} FirstResponseFinds(l: string, s0: nat, s: nat)
    requires s0 <= s <= |l| && ResponseAt(l, s).Some?
    ensures FirstResponse(l, s0).Some? && FirstResponse(l, s0).value.0 <= s
    decreases s - s0
  {
    if s0 < s && ResponseAt(l, s0).None? { FirstResponseFinds(l, s0 + 1, s); }
  }

  /** The response line of a reply: `HTTP/1.1 <code> <reason>` up to the end of the line. */
  lemma ResponseLineOf(code: string, reason: string, tail: string)
    requires code != [] && forall i :: 0 <= i < |code| ==> IsDigit(code[i])
    requires reason != [] && forall i :: 0 <= i < |reason| ==> reason[i] != '\n'
    requires tail == [] || tail[0] == '\n'
    ensures MatchResponseLine("HTTP/1.1 " + code + " " + reason + tail) == Some((code, reason))
  {
    var l := "HTTP/1.1 " + code + " " + reason + tail;
    var d := 9 + |code|;
    assert l[0..9] == "HTTP/1.1 ";
    assert l[9..d] == code;
    assert AllIn(l, 9, d, Digit) by {
      forall t | 9 <= t < d ensures IsDigit(l[t]) { assert l[t] == code[t - 9]; }
    }
    assert l[d] == ' ';
    RunEndIs(l, 9, d, Digit);
    assert l[d + 1] == reason[0];
    forall t | d + 1 <= t < d + 1 + |reason| ensures l[t] != '\n' { assert l[t] == reason[t - d - 1]; }
    if tail != [] { assert l[d + 1 + |reason|] == tail[0]; }
    LineEndAt(l, d + 1, d + 1 + |reason|);
    assert l[d + 1..d + 1 + |reason|] == reason;
  }

  // ---------------------------------------------------------------------------
  // Header maps: `each_line`, match, `headers[$1.downcase] = $2.<cleanup>`

  /** The codecs `strip` a header value; the event subscribers `chomp` it. */
  datatype Cleanup = Stripped | Chomped

  function Clean(v: string, cleanup: Cleanup): (r: string)
    ensures |r| <= |v|
  {
    match cleanup
    case Stripped => Strip(v)
    case Chomped => Chomp(v)
  }

  /** The entry a header line contributes: the downcased name and the cleaned value; None when it does not match. */
  function HeaderEntry(l: string, names: CharClass, cleanup: Cleanup): (e: Option<(string, string)>)
    ensures e.Some? ==> e.value.0 != [] && NoUpper(e.value.0)
    ensures e.Some? <==> MatchHeaderLine(l, names).Some?
  {
    match MatchHeaderLine(l, names)
    case None => None
    case Some((name, value)) => DowncaseNoUpper(name); Some((Downcase(name), Clean(value, cleanup)))
  }

  predicate HasKey(l: string, k: string, names: CharClass, cleanup: Cleanup) {
    HeaderEntry(l, names, cleanup).Some? && HeaderEntry(l, names, cleanup).value.0 == k
  }

  /** The entries of the lines, in order. */
  function Entries(ls: seq<string>, names: CharClass, cleanup: Cleanup): (es: seq<Option<(string, string)>>)
    ensures |es| == |ls| && forall i :: 0 <= i < |ls| ==> es[i] == HeaderEntry(ls[i], names, cleanup)
  {
    seq(|ls|, i requires 0 <= i < |ls| => HeaderEntry(ls[i], names, cleanup))
  }

  /** The keys some entry carries. */
  function KeysOf(es: seq<Option<(string, string)>>): set<string> {
    set i | 0 <= i < |es| && es[i].Some? :: es[i].value.0
  }

  /** A hash filled in order with the entries that are present; a later entry overwrites an earlier one. */
  function EntryMap(es: seq<Option<(string, string)>>): (m: map<string, string>)
    ensures m.Keys <= KeysOf(es)
    decreases |es|
  {
    if es == [] then map[]
    else
      var init := es[..|es| - 1];
      var m := EntryMap(init);
      assert KeysOf(init) <= KeysOf(es) by {
        forall k | k in KeysOf(init) ensures k in KeysOf(es) {
          var i :| 0 <= i < |init| && init[i].Some? && init[i].value.0 == k;
          assert es[i] == init[i];
        }
      }
      match es[|es| - 1]
      case None => m
      case Some((k, v)) => assert k in KeysOf(es); m[k := v]
  }

  lemma {:induction false} EntryMapHasKeys(es: seq<Option<(string, string)>>, i: nat)
    requires i < |es| && es[i].Some?
    ensures es[i].value.0 in EntryMap(es)
    decreases |es|
  {
    if i < |es| - 1 {
      assert es[..|es| - 1][i] == es[i];
      EntryMapHasKeys(es[..|es| - 1], i);
    }
  }

  lemma EntryMapKeyFrom(es: seq<Option<(string, string)>>, k: string) returns (i: nat)
    requires k in EntryMap(es)
    ensures i < |es| && es[i].Some? && es[i].value.0 == k
  {
    assert k in KeysOf(es);
    i :| 0 <= i < |es| && es[i].Some? && es[i].value.0 == k;
  }

  lemma {:induction false} EntryMapLastWins(es: seq<Option<(string, string)>>, i: nat)
    requires i < |es| && es[i].Some?
    requires forall j :: i < j < |es| ==> es[j].None? || es[j].value.0 != es[i].value.0
    ensures es[i].value.0 in EntryMap(es) && EntryMap(es)[es[i].value.0] == es[i].value.1
    decreases |es|
  {
    if i < |es| - 1 {
      var init := es[..|es| - 1];
      assert init[i] == es[i];
      EntryMapLastWins(init, i);
    }
  }

  /** The hash after the loop has seen the lines `ls`, in order. */
  function HeaderMap(ls: seq<string>, names: CharClass, cleanup: Cleanup): (m: map<string, string>)
    ensures forall k :: k in m ==> k != [] && NoUpper(k)
  {
    EntryMap(Entries(ls, names, cleanup))
  }

  lemma HeaderMapHasNamedKey(ls: seq<string>, i: nat, k: string, names: CharClass, cleanup: Cleanup)
    requires i < |ls| && HasKey(ls[i], k, names, cleanup)
    ensures k in HeaderMap(ls, names, cleanup)
  {
    EntryMapHasKeys(Entries(ls, names, cleanup), i);
  }

  lemma HeaderMapKeyIsNamed(ls: seq<string>, k: string, names: CharClass, cleanup: Cleanup)
    requires k in HeaderMap(ls, names, cleanup)
    ensures exists i :: 0 <= i < |ls| && HasKey(ls[i], k, names, cleanup)
  {
    var es := Entries(ls, names, cleanup);
    var i := EntryMapKeyFrom(es, k);
    assert HasKey(ls[i], k, names, cleanup);
  }

  /** A key is in the map exactly when some line has that (downcased) name. */
  lemma HeaderMapKeys(ls: seq<string>, k: string, names: CharClass, cleanup: Cleanup)
    ensures k in HeaderMap(ls, names, cleanup) <==> exists i :: 0 <= i < |ls| && HasKey(ls[i], k, names, cleanup)
  {
    if exists i :: 0 <= i < |ls| && HasKey(ls[i], k, names, cleanup) {
      var i :| 0 <= i < |ls| && HasKey(ls[i], k, names, cleanup);
      HeaderMapHasNamedKey(ls, i, k, names, cleanup);
    }
    if k in HeaderMap(ls, names, cleanup) { HeaderMapKeyIsNamed(ls, k, names, cleanup); }
  }

  /** The last line with a given name decides its value: a repeated header keeps its last occurrence. */
  lemma HeaderMapLastWins(ls: seq<string>, i: nat, k: string, v: string, names: CharClass, cleanup: Cleanup)
    requires i < |ls| && HeaderEntry(ls[i], names, cleanup) == Some((k, v))
    requires forall j :: i < j < |ls| ==> !HasKey(ls[j], k, names, cleanup)
    ensures k in HeaderMap(ls, names, cleanup) && HeaderMap(ls, names, cleanup)[k] == v
  {
    var es := Entries(ls, names, cleanup);
    EntryMapLastWins(es, i);
  }

  /** Lines that match nothing leave the map empty; in particular no lines give the empty map. */
  lemma HeaderMapOfNoHeaders(ls: seq<string>, names: CharClass, cleanup: Cleanup)
    requires forall i :: 0 <= i < |ls| ==> HeaderEntry(ls[i], names, cleanup).None?
    ensures HeaderMap(ls, names, cleanup) == map[]
  {
    forall k | k in HeaderMap(ls, names, cleanup) ensures false { HeaderMapKeys(ls, k, names, cleanup); }
  }

  /** The `each_line` loop of the header readers: each matching line stores its cleaned value under its downcased name. */
  method CollectHeaders(ls: seq<string>, names: CharClass, cleanup: Cleanup) returns (headers: map<string, string>)
    ensures headers == HeaderMap(ls, names, cleanup)
  {
    headers := map[];
    var i := 0;
    while i < |ls|
      invariant 0 <= i <= |ls|
      invariant headers == HeaderMap(ls[..i], names, cleanup)
    {
      HeaderMapStep(ls, i, names, cleanup);
      match HeaderEntry(ls[i], names, cleanup) {
        case Some((k, v)) => headers := headers[k := v];
        case None =>
      }
      i := i + 1;
    }
    assert ls[..|ls|] == ls;
  }

  /** One more line of `ls` read: HeaderMapSnoc on a prefix. */
  lemma HeaderMapStep(ls: seq<string>, i: nat, names: CharClass, cleanup: Cleanup)
    requires i < |ls|
    ensures HeaderMap(ls[..i + 1], names, cleanup) ==
      match HeaderEntry(ls[i], names, cleanup)
      case None => HeaderMap(ls[..i], names, cleanup)
      case Some((k, v)) => HeaderMap(ls[..i], names, cleanup)[k := v]
  {
    assert ls[..i + 1] == ls[..i] + [ls[i]];
    HeaderMapSnoc(ls[..i], ls[i], names, cleanup);
  }

  lemma HeaderMapSnoc(ls: seq<string>, l: string, names: CharClass, cleanup: Cleanup)
    ensures HeaderMap(ls + [l], names, cleanup) ==
      match HeaderEntry(l, names, cleanup)
      case None => HeaderMap(ls, names, cleanup)
      case Some((k, v)) => HeaderMap(ls, names, cleanup)[k := v]
  {
    EntriesSnoc(ls, l, names, cleanup);
  }

  lemma EntriesSnoc(ls: seq<string>, l: string, names: CharClass, cleanup: Cleanup)
    ensures Entries(ls + [l], names, cleanup) == Entries(ls, names, cleanup) + [HeaderEntry(l, names, cleanup)]
  {
    var es := Entries(ls + [l], names, cleanup);
    var e0 := Entries(ls, names, cleanup);
    forall i | 0 <= i < |ls| ensures es[i] == e0[i] {
      assert (ls + [l])[i] == ls[i];
    }
    assert es[|ls|] == HeaderEntry(l, names, cleanup);
  }
}
