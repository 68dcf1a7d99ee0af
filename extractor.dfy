/**
 * The line extractor: the two fixed regular expressions applied to one
 * access-log line, written as scanners over the line.
 *
 *   IP : `(\d+\.\d+\.\d+\.\d+)` with `re.match`, anchored at the start only;
 *   URL: `"[A-Z]+\s(.*?)\sHTTP` with `re.search`, leftmost match, lazy group.
 *
 * `\d` is the ASCII digit class here; `\s` is the full set of characters
 * Python's `str` patterns treat as whitespace.
 */
module Extractor {
  import opened Wrappers

  /** One request pulled out of a log line. */
  datatype Record = Record(ip: string, url: string)

  predicate IsDigit(c: char)
  {
    '0' <= c <= '9'
  }

  /** `[A-Z]`: an ASCII upper-case letter. */
  predicate IsUpper(c: char)
  {
    'A' <= c <= 'Z'
  }

  /** `\s` on a `str` pattern: ASCII and Unicode whitespace. */
  predicate IsSpace(c: char)
  {
    || '\t' <= c <= '\r' || '\U{1C}' <= c <= ' ' || c == '\U{85}' || c == '\U{A0}'
    || c == '\U{1680}' || '\U{2000}' <= c <= '\U{200A}' || c == '\U{2028}' || c == '\U{2029}'
    || c == '\U{202F}' || c == '\U{205F}' || c == '\U{3000}'
  }

  /** End of the longest run of characters satisfying `P` that starts at `i` (a greedy `P+`/`P*`). */
  function RunEnd(s: string, i: nat, P: char -> bool): (e: nat)
    requires i <= |s|
    ensures i <= e <= |s|
    decreases |s| - i
  {
    if i == |s| || !P(s[i]) then i else RunEnd(s, i + 1, P)
  }

  /** The run found is made of `P` characters and cannot be extended. */
  lemma {:induction false} RunEndSpec(s: string, i: nat, P: char -> bool)
    requires i <= |s|
    ensures var e := RunEnd(s, i, P);
            && (forall t | i <= t < e :: P(s[t]))
            && (e == |s| || !P(s[e]))
    decreases |s| - i
  {
    if i < |s| && P(s[i]) {
      RunEndSpec(s, i + 1, P);
    }
  }

  // ---------------------------------------------------------------- IP

  predicate IsDigitRun(s: string)
  {
    |s| > 0 && forall t | 0 <= t < |s| :: IsDigit(s[t])
  }

  /** `s` is four digit runs with dots at positions `i`, `j` and `k`. */
  predicate QuadSplit(s: string, i: int, j: int, k: int)
  {
    && 0 < i < j < k && k + 1 < |s|
    && s[i] == '.' && s[j] == '.' && s[k] == '.'
    && IsDigitRun(s[..i]) && IsDigitRun(s[i + 1..j])
    && IsDigitRun(s[j + 1..k]) && IsDigitRun(s[k + 1..])
  }

  /** The textual shape `\d+\.\d+\.\d+\.\d+`; no numeric range is checked. */
  ghost predicate IsDottedQuad(s: string)
  {
    exists i, j, k :: QuadSplit(s, i, j, k)
  }

  /**
   * `ip` is what the anchored IP pattern captures on `line`: a dotted quad
   * that starts the line and is not followed by a further digit (the last
   * `\d+` is greedy; the first three cannot stop early, a digit is not a dot).
   */
  ghost predicate IpToken(line: string, ip: string)
  {
    IsDottedQuad(ip) && ip <= line && (|ip| == |line| || !IsDigit(line[|ip|]))
  }

  /** `re.match(r'(\d+\.\d+\.\d+\.\d+)', line)` and its group 1. */
  function MatchIp(line: string): Option<string>
  {
    var e1 := RunEnd(line, 0, IsDigit);
    if e1 == 0 || e1 == |line| || line[e1] != '.' then None else
    var e2 := RunEnd(line, e1 + 1, IsDigit);
    if e2 == e1 + 1 || e2 == |line| || line[e2] != '.' then None else
    var e3 := RunEnd(line, e2 + 1, IsDigit);
    if e3 == e2 + 1 || e3 == |line| || line[e3] != '.' then None else
    var e4 := RunEnd(line, e3 + 1, IsDigit);
    if e4 == e3 + 1 then None else Some(line[..e4])
  }

  /** A maximal run is determined by its start. */
  lemma {:induction false} RunEndAt(s: string, i: nat, P: char -> bool, e: nat)
    requires i <= e <= |s|
    requires forall t | i <= t < e :: P(s[t])
    requires e == |s| || !P(s[e])
    ensures RunEnd(s, i, P) == e
    decreases e - i
  {
    if i < e {
      RunEndAt(s, i + 1, P, e);
    }
  }

  /** `line[..n]` read in place: digit runs with dots at `i`, `j` and `k`. */
  predicate QuadRuns(line: string, n: int, i: int, j: int, k: int)
  {
    && 0 < i && i + 1 < j && j + 1 < k && k + 1 < n <= |line|
    && line[i] == '.' && line[j] == '.' && line[k] == '.'
    && (forall t | 0 <= t < i :: IsDigit(line[t]))
    && (forall t | i < t < j :: IsDigit(line[t]))
    && (forall t | j < t < k :: IsDigit(line[t]))
    && (forall t | k < t < n :: IsDigit(line[t]))
  }

  /** A run inside a prefix of `line` is a digit run exactly when those characters of `line` are digits. */
  lemma DigitRunInPrefix(line: string, n: nat, a: nat, b: nat)
    requires a < b <= n <= |line|
    ensures IsDigitRun(line[..n][a..b]) <==> forall t | a <= t < b :: IsDigit(line[t])
  {
    assert forall t | a <= t < b :: line[..n][a..b][t - a] == line[t];
  }

  /** The dotted-quad split of a prefix, stated on the line itself. */
  lemma QuadSplitInPrefix(line: string, n: nat, i: int, j: int, k: int)
    requires n <= |line|
    ensures QuadSplit(line[..n], i, j, k) <==> QuadRuns(line, n, i, j, k)
  {
    if 0 < i && i + 1 < j && j + 1 < k && k + 1 < n {
      var s := line[..n];
      assert s[..i] == s[0..i] && s[k + 1..] == s[k + 1..n];
      DigitRunInPrefix(line, n, 0, i);
      DigitRunInPrefix(line, n, i + 1, j);
      DigitRunInPrefix(line, n, j + 1, k);
      DigitRunInPrefix(line, n, k + 1, n);
    }
  }

  /** If four digit runs start the line, the matcher succeeds and captures at least them. */
  lemma QuadRunsMatched(line: string, n: nat, i: int, j: int, k: int)
    requires QuadRuns(line, n, i, j, k)
    ensures MatchIp(line).Some? && n <= |MatchIp(line).value|
    ensures n == |line| || !IsDigit(line[n]) ==> MatchIp(line) == Some(line[..n])
  {
    RunEndAt(line, 0, IsDigit, i);
    RunEndAt(line, i + 1, IsDigit, j);
    RunEndAt(line, j + 1, IsDigit, k);
    RunEndSpec(line, k + 1, IsDigit);
    if n == |line| || !IsDigit(line[n]) {
      RunEndAt(line, k + 1, IsDigit, n);
    }
  }

  /** If some prefix of `line` is a dotted quad, the matcher succeeds and captures at least that prefix. */
  lemma QuadPrefixMatched(line: string, n: nat, i: int, j: int, k: int)
    requires n <= |line| && QuadSplit(line[..n], i, j, k)
    ensures MatchIp(line).Some? && n <= |MatchIp(line).value|
    ensures n == |line| || !IsDigit(line[n]) ==> MatchIp(line) == Some(line[..n])
  {
    QuadSplitInPrefix(line, n, i, j, k);
    QuadRunsMatched(line, n, i, j, k);
  }

  /** Whatever the matcher captures is a dotted-quad prefix of the line that no digit follows. */
  lemma MatchIpSound(line: string)
    requires MatchIp(line).Some?
    ensures IpToken(line, MatchIp(line).value)
  {
    var e1 := RunEnd(line, 0, IsDigit);
    var e2 := RunEnd(line, e1 + 1, IsDigit);
    var e3 := RunEnd(line, e2 + 1, IsDigit);
    var e4 := RunEnd(line, e3 + 1, IsDigit);
    assert line[..e4] == MatchIp(line).value;
    assert 0 < e1 && e1 + 1 < e2 && e2 + 1 < e3 && e3 + 1 < e4 <= |line|;
    RunEndSpec(line, 0, IsDigit);
    RunEndSpec(line, e1 + 1, IsDigit);
    RunEndSpec(line, e2 + 1, IsDigit);
    RunEndSpec(line, e3 + 1, IsDigit);
    QuadSplitInPrefix(line, e4, e1, e2, e3);
  }

  /**
   * The IP extractor, characterised: it yields `ip` exactly when `ip` is the
   * dotted-quad token that starts the line, and it fails exactly when no
   * prefix of the line has the dotted-quad shape.
   */
  lemma MatchIpSpec(line: string)
    ensures forall ip :: MatchIp(line) == Some(ip) <==> IpToken(line, ip)
    ensures MatchIp(line).None? <==> forall n | 0 <= n <= |line| :: !IsDottedQuad(line[..n])
  {
    if MatchIp(line).Some? {
      MatchIpSound(line);
      var ip := MatchIp(line).value;
      assert line[..|ip|] == ip;
    }
    forall ip | IpToken(line, ip) ensures MatchIp(line) == Some(ip) {
      var i, j, k :| QuadSplit(ip, i, j, k);
      assert line[..|ip|] == ip;
      QuadPrefixMatched(line, |ip|, i, j, k);
    }
    forall n | 0 <= n <= |line| && IsDottedQuad(line[..n]) ensures MatchIp(line).Some? {
      var i, j, k :| QuadSplit(line[..n], i, j, k);
      QuadPrefixMatched(line, n, i, j, k);
    }
  }

  // ---------------------------------------------------------------- URL

  /** `\sHTTP` matches at index `k`. */
  predicate TailAt(line: string, k: int)
  {
    0 <= k && k + 5 <= |line| && IsSpace(line[k]) && line[k + 1..k + 5] == "HTTP"
  }

  /** No newline in `line[a..b]`, so `.*` can span it. */
  predicate NoNewline(line: string, a: int, b: int)
  {
    forall t | a <= t < b && 0 <= t < |line| :: line[t] != '\n'
  }

  /**
   * The URL pattern matches with the quote at `p`, the whitespace after the
   * method at `q` and the whitespace before `HTTP` at `k`; the captured URL
   * is `line[q + 1..k]`.
   */
  predicate RequestAt(line: string, p: int, q: int, k: int)
  {
    && 0 <= p && p + 1 < q < k
    && TailAt(line, k)
    && line[p] == '"'
    && (forall t | p < t < q :: IsUpper(line[t]))
    && IsSpace(line[q])
    && NoNewline(line, q + 1, k)
  }

  /** Positions of one match of the URL pattern (see `RequestAt`). */
  datatype Span = Span(quote: nat, methodEnd: nat, urlEnd: nat)

  /**
   * The match `re.search` reports: the leftmost start, and at that start the
   * shortest group (the lazy `.*?`).
   */
  ghost predicate FirstRequest(line: string, m: Span)
  {
    && RequestAt(line, m.quote, m.methodEnd, m.urlEnd)
    && forall p, q, k :: RequestAt(line, p, q, k) ==>
         m.quote < p || (m.quote == p && m.methodEnd == q && m.urlEnd <= k)
  }

  /** The lazy group `(.*?)\sHTTP` from `k` on: the first `\sHTTP` reached before any newline. */
  function LazyEnd(line: string, k: nat): (r: Option<nat>)
    requires k <= |line|
    ensures r.Some? ==> k <= r.value < |line|
    decreases |line| - k
  {
    if k == |line| then None
    else if TailAt(line, k) then Some(k)
    else if line[k] == '\n' then None
    else LazyEnd(line, k + 1)
  }

  /** The lazy group stops at the first `\sHTTP` it reaches, and fails when a newline comes first. */
  lemma {:induction false} LazyEndSpec(line: string, k: nat)
    requires k <= |line|
    ensures var r := LazyEnd(line, k);
            && (r.Some? ==> TailAt(line, r.value) && NoNewline(line, k, r.value))
            && (r.Some? ==> forall t | k <= t < r.value :: !TailAt(line, t))
            && (r.None? ==> forall e | k <= e && TailAt(line, e) :: !NoNewline(line, k, e))
    decreases |line| - k
  {
    if k < |line| && !TailAt(line, k) && line[k] != '\n' {
      LazyEndSpec(line, k + 1);
    }
  }

  /** The URL pattern tried with its quote at index `p`. */
  function MatchAt(line: string, p: nat): (r: Option<Span>)
    requires p < |line|
    ensures r.Some? ==> r.value.quote == p < r.value.methodEnd < r.value.urlEnd < |line|
  {
    if line[p] != '"' then None else
    var q := RunEnd(line, p + 1, IsUpper);
    if q == p + 1 || q == |line| || !IsSpace(line[q]) then None else
    match LazyEnd(line, q + 1)
    case None => None
    case Some(k) => Some(Span(p, q, k))
  }

  /** With the quote at `p`, the pattern matches exactly as reported, with the shortest group. */
  lemma MatchAtSpec(line: string, p: nat)
    requires p < |line|
    ensures var r := MatchAt(line, p);
            && (r.Some? ==> RequestAt(line, p, r.value.methodEnd, r.value.urlEnd))
            && (r.Some? ==> forall q, k :: RequestAt(line, p, q, k) ==> q == r.value.methodEnd && r.value.urlEnd <= k)
            && (r.None? ==> forall q, k :: !RequestAt(line, p, q, k))
  {
    if line[p] == '"' {
      var q := RunEnd(line, p + 1, IsUpper);
      RunEndSpec(line, p + 1, IsUpper);
      forall q', k | RequestAt(line, p, q', k) ensures q' == q {
      }
      if q < |line| && q != p + 1 && IsSpace(line[q]) {
        LazyEndSpec(line, q + 1);
      }
    }
  }

  /** `re.search` from index `p` on: start positions are tried left to right. */
  function SearchFrom(line: string, p: nat): (r: Option<Span>)
    requires p <= |line|
    ensures r.Some? ==> p <= r.value.quote < r.value.methodEnd < r.value.urlEnd < |line|
    decreases |line| - p
  {
    if p == |line| then None
    else match MatchAt(line, p)
      case Some(m) => Some(m)
      case None => SearchFrom(line, p + 1)
  }

  /** The search from `p` reports the leftmost match at or after `p`, and fails only when there is none. */
  lemma {:induction false} SearchFromSpec(line: string, p: nat)
    requires p <= |line|
    ensures var r := SearchFrom(line, p);
            && (r.Some? ==> RequestAt(line, r.value.quote, r.value.methodEnd, r.value.urlEnd))
            && (r.Some? ==> forall a, q, k :: p <= a && RequestAt(line, a, q, k) ==>
                  r.value.quote < a || (r.value.quote == a && r.value.methodEnd == q && r.value.urlEnd <= k))
            && (r.None? ==> forall a, q, k :: p <= a ==> !RequestAt(line, a, q, k))
    decreases |line| - p
  {
    if p < |line| {
      MatchAtSpec(line, p);
      if MatchAt(line, p).None? {
        SearchFromSpec(line, p + 1);
      }
    }
  }

  /** `re.search(r'\"[A-Z]+\s(.*?)\sHTTP', line)`: the match Python reports, or none. */
  function SearchRequest(line: string): Option<Span>
  {
    SearchFrom(line, 0)
  }

  /** The search reports the leftmost, shortest match, and fails only when there is no match at all. */
  lemma SearchRequestSpec(line: string)
    ensures SearchRequest(line).Some? ==> FirstRequest(line, SearchRequest(line).value)
    ensures SearchRequest(line).None? <==> forall p, q, k :: !RequestAt(line, p, q, k)
  {
    SearchFromSpec(line, 0);
  }

  /** Group 1 of the URL search. */
  function MatchUrl(line: string): Option<string>
  {
    match SearchRequest(line)
    case None => None
    case Some(m) => Some(line[m.methodEnd + 1..m.urlEnd])
  }

  /**
   * Shape of an extracted URL: it sits between `"METHOD<ws>` and `<ws>HTTP`,
   * holds no newline, and, the group being lazy, holds no `<ws>HTTP` of its own.
   */
  lemma MatchUrlShape(line: string)
    requires MatchUrl(line).Some?
    ensures var m := SearchRequest(line).value;
            && MatchUrl(line).value == line[m.methodEnd + 1..m.urlEnd]
            && line[m.quote] == '"' && m.quote + 1 < m.methodEnd
            && (forall t | m.quote < t < m.methodEnd :: IsUpper(line[t]))
            && IsSpace(line[m.methodEnd]) && TailAt(line, m.urlEnd)
    ensures '\n' !in MatchUrl(line).value
    ensures forall t :: !TailAt(MatchUrl(line).value, t)
  {
    SearchRequestSpec(line);
    var m := SearchRequest(line).value;
    var url := MatchUrl(line).value;
    var g := m.methodEnd + 1;
    assert forall t | 0 <= t < |url| :: url[t] == line[g + t];
    forall t | TailAt(url, t) ensures false {
      assert url[t + 1..t + 5] == line[g + t + 1..g + t + 5];
      assert RequestAt(line, m.quote, m.methodEnd, g + t);
    }
  }

  // ---------------------------------------------------------------- both

  /** Some prefix of the line has the dotted-quad shape. */
  ghost predicate HasIpPrefix(line: string)
  {
    exists n | 0 <= n <= |line| :: IsDottedQuad(line[..n])
  }

  /** The URL pattern matches somewhere in the line. */
  ghost predicate HasRequest(line: string)
  {
    exists p, q, k :: RequestAt(line, p, q, k)
  }

  /** A line yields a record only when both patterns match. */
  function Extract(line: string): Option<Record>
  {
    match (MatchIp(line), MatchUrl(line))
    case (Some(ip), Some(url)) => Some(Record(ip, url))
    case _ => None
  }

  /** The IP pattern matches exactly when some prefix of the line is a dotted quad. */
  lemma MatchIpIffPrefix(line: string)
    ensures MatchIp(line).Some? <==> HasIpPrefix(line)
  {
    MatchIpSpec(line);
    if MatchIp(line).Some? {
      var ip := MatchIp(line).value;
      assert line[..|ip|] == ip;
    }
  }

  /** The URL pattern matches exactly when a request occurs, and captures the first one's URL. */
  lemma MatchUrlIffRequest(line: string)
    ensures MatchUrl(line).Some? <==> HasRequest(line)
    ensures MatchUrl(line).Some? ==>
              exists m :: FirstRequest(line, m) && MatchUrl(line).value == line[m.methodEnd + 1..m.urlEnd]
  {
    SearchRequestSpec(line);
    if MatchUrl(line).Some? {
      assert FirstRequest(line, SearchRequest(line).value);
    }
  }

  /**
   * A line yields a record exactly when it starts with a dotted quad and
   * holds a quoted request; the record is the IP token and the URL of the
   * first request.
   */
  lemma ExtractSpec(line: string)
    ensures Extract(line).Some? <==> HasIpPrefix(line) && HasRequest(line)
    ensures Extract(line).Some? ==>
              && IpToken(line, Extract(line).value.ip)
              && exists m :: FirstRequest(line, m) && Extract(line).value.url == line[m.methodEnd + 1..m.urlEnd]
  {
    MatchIpIffPrefix(line);
    MatchUrlIffRequest(line);
    if Extract(line).Some? {
      MatchIpSpec(line);
    }
  }

  /** The IP token stops after the fourth digit run... */
  lemma IpStopsAtFourthRun()
    ensures MatchIp("1.2.3.4.5 - -") == Some("1.2.3.4")
  {
    var a := "1.2.3.4.5 - -";
    assert QuadRuns(a, 7, 1, 3, 5);
    QuadRunsMatched(a, 7, 1, 3, 5);
    assert a[..7] == "1.2.3.4";
  }

  /** ...its runs are not range-checked... */
  lemma IpNotRangeChecked()
    ensures MatchIp("999.1.1.1 - -") == Some("999.1.1.1")
  {
    var b := "999.1.1.1 - -";
    assert QuadRuns(b, 9, 3, 5, 7);
    QuadRunsMatched(b, 9, 3, 5, 7);
    assert b[..9] == "999.1.1.1";
  }

  /** ...and three runs are not enough. */
  lemma IpNeedsFourRuns()
    ensures MatchIp("1.2.3 - -") == None
  {
  }

  /** The request line used by the examples below. */
  const PlainLine: string := "10.0.0.1 - - \"GET /index.html HTTP/1.1\" 200\n"

  lemma PlainLineIp(line: string)
    requires line == PlainLine
    ensures MatchIp(line) == Some("10.0.0.1")
  {
    var head := "10.0.0.1 ";
    assert forall t | 0 <= t < 9 :: line[t] == head[t];
    assert QuadRuns(line, 8, 2, 4, 6);
    QuadRunsMatched(line, 8, 2, 4, 6);
    assert !IsDigit(line[8]);
    assert line[..8] == head[..8] == "10.0.0.1";
  }

  /** Where the request sits in `PlainLine`... */
  lemma PlainLineRequest(line: string)
    requires line == PlainLine
    ensures RequestAt(line, 13, 17, 29)
  {
    assert forall t | 0 <= t < 4 :: line[30 + t] == "HTTP"[t];
  }

  /** ...no quote comes before it... */
  lemma PlainLineNoEarlierQuote(line: string)
    requires line == PlainLine
    ensures forall t | 0 <= t < 13 :: line[t] != '"'
  {
    assert forall t | 0 <= t < 13 :: line[t] == "10.0.0.1 - - "[t];
  }

  /** ...and the path holds no whitespace. */
  lemma PlainLinePath(line: string)
    requires line == PlainLine
    ensures forall t | 18 <= t < 29 :: !IsSpace(line[t])
    ensures line[18..29] == "/index.html"
  {
    assert forall t | 0 <= t < 11 :: line[18 + t] == "/index.html"[t];
  }

  lemma PlainLineUrl(line: string)
    requires line == PlainLine
    ensures MatchUrl(line) == Some("/index.html")
  {
    SearchRequestSpec(line);
    PlainLineRequest(line);
    PlainLineNoEarlierQuote(line);
    PlainLinePath(line);
  }

  /** A plain access-log line yields its client address and requested path. */
  lemma ExtractPlainLine()
    ensures Extract(PlainLine) == Some(Record("10.0.0.1", "/index.html"))
  {
    PlainLineIp(PlainLine);
    PlainLineUrl(PlainLine);
  }
}
