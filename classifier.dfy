/**
 * The attack classifier: three fixed lists of literal substrings and the
 * test "does the URL contain any pattern of this list" for each of them.
 * Matching is case-sensitive and done on the raw, undecoded URL.
 */
module Classifier {

  /** Cross-site-scripting indicators, in the order the program lists them. */
  const XssPatterns: seq<string> :=
    ["%3C", "<img", "<a href", "<body", "<script", "<b", "<h", "<marquee"]

  /** SQL-injection indicators. */
  const SqliPatterns: seq<string> :=
    ["%27", "--", "%3B", "exec", "union+", "union*", "system(", "eval(",
     "group_concat", "column_name", "order by", "insert into", "@version"]

  /** Path-traversal / restricted-file ("IDOR") indicators. */
  const IdorPatterns: seq<string> :=
    ["../", "%2e%2f", "%2e%2e/", ".%2f", "..%c1%9", "..%c0%af", "/usr/", "/passwd",
     "/grub", "boot.ini", "/conf/", "/etc/", "/proc/", "/opt/", "/sbin/", "/dev/",
     "/tmp/", "/kern/", "/root/", "/sys/", "/system/", "/windows/", "/winnt/",
     "/inetpub/", "/localstart/", "/boot/"]

  /** The three verdicts for one URL; any combination is possible. */
  datatype Flags = Flags(xss: bool, sqli: bool, idor: bool)

  /** The three attack categories, each with its own counter. */
  datatype Category = Xss | Sqli | Idor

  /** The verdict for category `c`. */
  function Flag(f: Flags, c: Category): bool
  {
    match c
    case Xss => f.xss
    case Sqli => f.sqli
    case Idor => f.idor
  }

  /** `p` occurs in `s` starting at index `i`. */
  predicate OccursAt(s: string, p: string, i: int)
  {
    0 <= i && i + |p| <= |s| && s[i..i + |p|] == p
  }

  /** Scans `s` from index `i` onwards for an occurrence of `p`. */
  function ContainsFrom(s: string, p: string, i: nat): bool
    decreases |s| - i
  {
    if i + |p| > |s| then false
    else if s[i..i + |p|] == p then true
    else ContainsFrom(s, p, i + 1)
  }

  /** Python's `p in s` on strings: substring containment. */
  function Contains(s: string, p: string): bool
  {
    ContainsFrom(s, p, 0)
  }

  /** `any(pattern in url for pattern in pats)`. */
  function AnyOccurs(url: string, pats: seq<string>): bool
  {
    if |pats| == 0 then false
    else Contains(url, pats[0]) || AnyOccurs(url, pats[1..])
  }

  /** The scan from `i` finds `p` exactly when `p` occurs at some index `i` or later. */
  lemma {:induction false} ContainsFromSpec(s: string, p: string, i: nat)
    ensures ContainsFrom(s, p, i) <==> exists j :: i <= j && OccursAt(s, p, j)
    decreases |s| - i
  {
    if i + |p| > |s| {
    } else if s[i..i + |p|] == p {
      assert OccursAt(s, p, i);
    } else {
      ContainsFromSpec(s, p, i + 1);
      assert !OccursAt(s, p, i);
    }
  }

  /** `Contains` is substring containment. */
  lemma ContainsSpec(s: string, p: string)
    ensures Contains(s, p) <==> exists j :: OccursAt(s, p, j)
  {
    ContainsFromSpec(s, p, 0);
  }

  /** A list fires exactly when one of its patterns is contained in the URL. */
  lemma {:induction false} AnyOccursSpec(url: string, pats: seq<string>)
    ensures AnyOccurs(url, pats) <==> exists n :: 0 <= n < |pats| && Contains(url, pats[n])
    decreases |pats|
  {
    if |pats| > 0 {
      AnyOccursSpec(url, pats[1..]);
      assert forall n | 1 <= n < |pats| :: pats[n] == pats[1..][n - 1];
    }
  }

  /** The three independent checks made on every extracted URL. */
  function Classify(url: string): Flags
  {
    Flags(AnyOccurs(url, XssPatterns), AnyOccurs(url, SqliPatterns), AnyOccurs(url, IdorPatterns))
  }

  /** The patterns of category `c`. */
  function PatternsOf(c: Category): seq<string>
  {
    match c
    case Xss => XssPatterns
    case Sqli => SqliPatterns
    case Idor => IdorPatterns
  }

  /**
   * Each flag is raised exactly when some pattern of its own list is a
   * substring of the URL; the other lists play no part.
   */
  lemma ClassifySpec(url: string, c: Category)
    ensures Flag(Classify(url), c) <==> exists n :: 0 <= n < |PatternsOf(c)| && Contains(url, PatternsOf(c)[n])
  {
    assert Flag(Classify(url), c) == AnyOccurs(url, PatternsOf(c));
    AnyOccursSpec(url, PatternsOf(c));
  }

  /** Containment is transitive: a pattern inside `mid` is inside anything holding `mid`. */
  lemma ContainsTransitive(big: string, mid: string, p: string)
    requires Contains(big, mid) && Contains(mid, p)
    ensures Contains(big, p)
  {
    ContainsSpec(big, mid);
    ContainsSpec(mid, p);
    var i :| OccursAt(big, mid, i);
    var j :| OccursAt(mid, p, j);
    assert forall t :: 0 <= t < |mid| ==> mid[t] == big[i + t];
    assert forall t :: 0 <= t < |p| ==> p[t] == mid[j + t];
    assert OccursAt(big, p, i + j);
    ContainsSpec(big, p);
    assert OccursAt(big, p, i + j);
  }

  /** A list check that fires on `url` fires on every string containing `url`. */
  lemma AnyOccursMonotone(url: string, big: string, pats: seq<string>)
    requires Contains(big, url) && AnyOccurs(url, pats)
    ensures AnyOccurs(big, pats)
  {
    AnyOccursSpec(url, pats);
    AnyOccursSpec(big, pats);
    var n :| 0 <= n < |pats| && Contains(url, pats[n]);
    ContainsTransitive(big, url, pats[n]);
  }

  /** Classification is monotone: embedding a URL in a longer string never clears a flag. */
  lemma ClassifyMonotone(url: string, big: string)
    requires Contains(big, url)
    ensures Classify(url).xss ==> Classify(big).xss
    ensures Classify(url).sqli ==> Classify(big).sqli
    ensures Classify(url).idor ==> Classify(big).idor
  {
    if Classify(url).xss { AnyOccursMonotone(url, big, XssPatterns); }
    if Classify(url).sqli { AnyOccursMonotone(url, big, SqliPatterns); }
    if Classify(url).idor { AnyOccursMonotone(url, big, IdorPatterns); }
  }

  /** `s` has character `a` immediately followed by character `b` somewhere. */
  predicate Adjacent(s: string, a: char, b: char)
  {
    exists j :: 0 <= j && j + 1 < |s| && s[j] == a && s[j + 1] == b
  }

  /** A pattern holding two neighbouring characters that are never neighbours in `s` does not occur in `s`. */
  lemma MissingPairNotContained(s: string, p: string, k: int)
    requires 0 <= k && k + 1 < |p| && !Adjacent(s, p[k], p[k + 1])
    ensures !Contains(s, p)
  {
    forall j | 0 <= j && j + |p| <= |s| ensures !OccursAt(s, p, j) {
      assert s[j..j + |p|][k] == s[j + k] && s[j..j + |p|][k + 1] == s[j + k + 1];
    }
    ContainsSpec(s, p);
  }

  /**
   * A list fires on `s` only if one of its patterns occurs in `s`; `ks` names, for each
   * pattern, a position whose two characters are never neighbours in `s`.
   */
  lemma NoPatternFires(s: string, pats: seq<string>, ks: seq<nat>)
    requires |ks| == |pats|
    requires forall n | 0 <= n < |pats| :: ks[n] + 1 < |pats[n]| && !Adjacent(s, pats[n][ks[n]], pats[n][ks[n] + 1])
    ensures !AnyOccurs(s, pats)
  {
    forall n | 0 <= n < |pats| ensures !Contains(s, pats[n]) {
      MissingPairNotContained(s, pats[n], ks[n]);
    }
    AnyOccursSpec(s, pats);
  }

  /** Every XSS pattern starts with `<` or `%3`, so a URL holding neither is not flagged as XSS. */
  lemma XssNeedsMarkup(url: string)
    requires forall j | 0 <= j < |url| :: url[j] != '<'
    requires !Adjacent(url, '%', '3')
    ensures !Classify(url).xss
  {
    NoPatternFires(url, XssPatterns, [0, 0, 0, 0, 0, 0, 0, 0]);
  }

  /** A pattern holding a character that never occurs in `s` does not occur in `s`. */
  lemma MissingCharNotContained(s: string, p: string, k: int)
    requires 0 <= k < |p| && forall j | 0 <= j < |s| :: s[j] != p[k]
    ensures !Contains(s, p)
  {
    forall j | 0 <= j && j + |p| <= |s| ensures !OccursAt(s, p, j) {
      assert s[j..j + |p|][k] == s[j + k];
    }
    ContainsSpec(s, p);
  }

  /** The URL made of `<b` (XSS), `--` (SQL injection) and `../` (IDOR), each piece present when its flag is asked for. */
  function Sample(xss: bool, sqli: bool, idor: bool): (url: string)
    ensures xss ==> OccursAt(url, "<b", 0)
    ensures sqli ==> OccursAt(url, "--", if xss then 2 else 0)
    ensures idor ==> OccursAt(url, "../", |url| - 3)
  {
    (if xss then "<b" else "") + (if sqli then "--" else "") + (if idor then "../" else "")
  }

  /** Which characters `Sample` is made of: only those of the pieces asked for. */
  lemma SampleChars(xss: bool, sqli: bool, idor: bool)
    ensures forall j | 0 <= j < |Sample(xss, sqli, idor)| ::
              var ch := Sample(xss, sqli, idor)[j];
              && (ch == '<' || ch == 'b' || ch == '-' || ch == '.' || ch == '/')
              && (!xss ==> ch != '<' && ch != 'b')
              && (!sqli ==> ch != '-')
              && (!idor ==> ch != '.' && ch != '/')
  {
    var a, b, c := (if xss then "<b" else ""), (if sqli then "--" else ""), (if idor then "../" else "");
    assert Sample(xss, sqli, idor) == a + b + c;
  }

  /** A list none of whose patterns can occur, because each holds a character missing from `s`. */
  lemma NoPatternCharFires(s: string, pats: seq<string>, ks: seq<nat>)
    requires |ks| == |pats|
    requires forall n | 0 <= n < |pats| :: ks[n] < |pats[n]| && forall j | 0 <= j < |s| :: s[j] != pats[n][ks[n]]
    ensures !AnyOccurs(s, pats)
  {
    forall n | 0 <= n < |pats| ensures !Contains(s, pats[n]) {
      MissingCharNotContained(s, pats[n], ks[n]);
    }
    AnyOccursSpec(s, pats);
  }

  lemma SampleXss(xss: bool, sqli: bool, idor: bool)
    ensures Classify(Sample(xss, sqli, idor)).xss == xss
  {
    var url := Sample(xss, sqli, idor);
    if xss {
      ContainsSpec(url, XssPatterns[5]);
      AnyOccursSpec(url, XssPatterns);
    } else {
      SampleChars(xss, sqli, idor);
      NoPatternCharFires(url, XssPatterns, [0, 0, 0, 0, 0, 0, 0, 0]);
    }
  }

  lemma SampleSqli(xss: bool, sqli: bool, idor: bool)
    ensures Classify(Sample(xss, sqli, idor)).sqli == sqli
  {
    var url := Sample(xss, sqli, idor);
    if sqli {
      ContainsSpec(url, SqliPatterns[1]);
      AnyOccursSpec(url, SqliPatterns);
    } else {
      SampleChars(xss, sqli, idor);
      NoPatternCharFires(url, SqliPatterns, [0, 0, 0, 0, 0, 0, 0, 0, 0, 0, 0, 0, 0]);
    }
  }

  lemma SampleIdor(xss: bool, sqli: bool, idor: bool)
    ensures Classify(Sample(xss, sqli, idor)).idor == idor
  {
    var url := Sample(xss, sqli, idor);
    if idor {
      ContainsSpec(url, IdorPatterns[0]);
      AnyOccursSpec(url, IdorPatterns);
    } else {
      SampleChars(xss, sqli, idor);
      NoPatternCharFires(url, IdorPatterns,
                         [0, 0, 0, 0, 0, 0, 0, 0, 0, 1, 0, 0, 0, 0, 0, 0, 0, 0, 0, 0, 0, 0, 0, 0, 0, 0]);
    }
  }

  /**
   * The three checks are independent: every combination of flags is raised
   * by some URL, here the one made of `<b`, `--` and `../` for the flags
   * asked for.
   */
  lemma ClassifyAnyCombination(xss: bool, sqli: bool, idor: bool)
    ensures Classify(Sample(xss, sqli, idor)) == Flags(xss, sqli, idor)
  {
    SampleXss(xss, sqli, idor);
    SampleSqli(xss, sqli, idor);
    SampleIdor(xss, sqli, idor);
  }

  lemma PlainPageNoSqli()
    ensures !AnyOccurs("/index.html", SqliPatterns)
  {
    NoPatternFires("/index.html", SqliPatterns, [0, 0, 0, 1, 0, 0, 0, 0, 0, 0, 0, 1, 0]);
  }

  lemma PlainPageNoIdor()
    ensures !AnyOccurs("/index.html", IdorPatterns)
  {
    NoPatternFires("/index.html", IdorPatterns,
                   [0, 0, 0, 0, 0, 0, 0, 0, 0, 0, 0, 0, 0, 0, 0, 0, 0, 0, 0, 0, 0, 0, 0, 2, 0, 0]);
  }

  /** A plain page request raises no flag. */
  lemma ClassifyPlainPage()
    ensures Classify("/index.html") == Flags(false, false, false)
  {
    XssNeedsMarkup("/index.html");
    PlainPageNoSqli();
    PlainPageNoIdor();
  }

  lemma TraversalNoSqli()
    ensures !AnyOccurs("/../../etc/passwd", SqliPatterns)
  {
    NoPatternFires("/../../etc/passwd", SqliPatterns, [0, 0, 0, 0, 0, 0, 0, 0, 0, 0, 0, 0, 0]);
  }

  lemma TraversalIdor()
    ensures AnyOccurs("/../../etc/passwd", IdorPatterns)
  {
    assert OccursAt("/../../etc/passwd", IdorPatterns[0], 1);
    ContainsSpec("/../../etc/passwd", IdorPatterns[0]);
    AnyOccursSpec("/../../etc/passwd", IdorPatterns);
  }

  /** A traversal to /etc/passwd raises the IDOR flag and nothing else. */
  lemma ClassifyTraversal()
    ensures Classify("/../../etc/passwd") == Flags(false, false, true)
  {
    XssNeedsMarkup("/../../etc/passwd");
    TraversalNoSqli();
    TraversalIdor();
  }

  /** An encoded quote raises the SQL-injection flag. */
  lemma ClassifyEncodedQuote()
    ensures Classify("/page?id=%27").sqli
  {
    assert OccursAt("/page?id=%27", SqliPatterns[0], 9);
    ContainsSpec("/page?id=%27", SqliPatterns[0]);
    AnyOccursSpec("/page?id=%27", SqliPatterns);
  }

  /** The flags are not exclusive: one URL can raise all three. */
  lemma ClassifyAllThree()
    ensures Classify("/<b--../") == Flags(true, true, true)
  {
    var url := "/<b--../";
    assert OccursAt(url, XssPatterns[5], 1);
    ContainsSpec(url, XssPatterns[5]);
    AnyOccursSpec(url, XssPatterns);
    assert OccursAt(url, SqliPatterns[1], 3);
    ContainsSpec(url, SqliPatterns[1]);
    AnyOccursSpec(url, SqliPatterns);
    assert OccursAt(url, IdorPatterns[0], 5);
    ContainsSpec(url, IdorPatterns[0]);
    AnyOccursSpec(url, IdorPatterns);
  }
}
