/**
 * `parse_logs`: one pass over the lines of a file, collecting a record for
 * every line both patterns match and counting the records each attack list
 * flags. The file's contents are given as its sequence of lines.
 */
module LogParser {
  import opened Wrappers
  import opened Extractor
  import opened Classifier

  /** What `parse_logs` returns: the records in line order and the three counters. */
  datatype Tally = Tally(records: seq<Record>, xss: nat, sqli: nat, idor: nat)

  /** The counter kept for category `c`. */
  function Counter(t: Tally, c: Category): nat
  {
    match c
    case Xss => t.xss
    case Sqli => t.sqli
    case Idor => t.idor
  }

  function Bump(n: nat, flag: bool): nat
  {
    if flag then n + 1 else n
  }

  /** One iteration of the loop over the lines. */
  function Step(t: Tally, line: string): Tally
  {
    match Extract(line)
    case None => t
    case Some(r) =>
      var f := Classify(r.url);
      Tally(t.records + [r], Bump(t.xss, f.xss), Bump(t.sqli, f.sqli), Bump(t.idor, f.idor))
  }

  /** The loop's state after the given lines, starting from no records and zero counters. */
  function ParseSpec(lines: seq<string>): Tally
    decreases |lines|
  {
    if |lines| == 0 then Tally([], 0, 0, 0)
    else Step(ParseSpec(lines[..|lines| - 1]), lines[|lines| - 1])
  }

  /** The loop of `parse_logs` over the lines of one file. */
  method ParseLogs(lines: seq<string>) returns (data: seq<Record>, xssAttempts: nat, sqliAttempts: nat, idorAttempts: nat)
    ensures Tally(data, xssAttempts, sqliAttempts, idorAttempts) == ParseSpec(lines)
    ensures xssAttempts <= |data| && sqliAttempts <= |data| && idorAttempts <= |data|
  {
    data := [];
    xssAttempts, sqliAttempts, idorAttempts := 0, 0, 0;
    var i := 0;
    while i < |lines|
      invariant 0 <= i <= |lines|
      invariant Tally(data, xssAttempts, sqliAttempts, idorAttempts) == ParseSpec(lines[..i])
      invariant xssAttempts <= |data| && sqliAttempts <= |data| && idorAttempts <= |data|
    {
      var line := lines[i];
      ghost var before := Tally(data, xssAttempts, sqliAttempts, idorAttempts);
      var ipMatch := MatchIp(line);
      var urlMatch := MatchUrl(line);
      if ipMatch.Some? && urlMatch.Some? {
        var ip, url := ipMatch.value, urlMatch.value;
        assert Extract(line) == Some(Record(ip, url));
        if AnyOccurs(url, XssPatterns) {
          xssAttempts := xssAttempts + 1;
        }
        assert xssAttempts == Bump(before.xss, Classify(url).xss);
        if AnyOccurs(url, SqliPatterns) {
          sqliAttempts := sqliAttempts + 1;
        }
        assert sqliAttempts == Bump(before.sqli, Classify(url).sqli);
        if AnyOccurs(url, IdorPatterns) {
          idorAttempts := idorAttempts + 1;
        }
        assert idorAttempts == Bump(before.idor, Classify(url).idor);
        data := data + [Record(ip, url)];
        assert Tally(data, xssAttempts, sqliAttempts, idorAttempts) == Step(before, line);
      } else {
        assert Extract(line) == None;
      }
      assert lines[..i + 1][..i] == lines[..i];
      assert ParseSpec(lines[..i + 1]) == Step(ParseSpec(lines[..i]), line);
      i := i + 1;
    }
    assert lines[..|lines|] == lines;
  }

  /**
   * One line either adds exactly the record it yields, raising each counter
   * whose list fires on its URL by one, or changes nothing at all.
   */
  lemma StepSpec(t: Tally, line: string, c: Category)
    ensures Extract(line).None? ==> Step(t, line) == t
    ensures Extract(line).Some? ==> Step(t, line).records == t.records + [Extract(line).value]
    ensures Counter(t, c) <= Counter(Step(t, line), c) <= Counter(t, c) + 1
    ensures Counter(Step(t, line), c) == Counter(t, c) + 1 <==>
              Extract(line).Some? && Flag(Classify(Extract(line).value.url), c)
  {
  }

  /** The record a single line contributes, if any. */
  function RecordOf(line: string): seq<Record>
  {
    match Extract(line)
    case None => []
    case Some(r) => [r]
  }

  /** Reference definition: the records of the lines that match, in line order. */
  function Matched(lines: seq<string>): seq<Record>
  {
    if |lines| == 0 then [] else RecordOf(lines[0]) + Matched(lines[1..])
  }

  /** Reading one more line adds that line's record, if any, at the end. */
  lemma {:induction false} MatchedInit(lines: seq<string>)
    requires |lines| > 0
    ensures Matched(lines) == Matched(lines[..|lines| - 1]) + RecordOf(lines[|lines| - 1])
    decreases |lines|
  {
    if |lines| > 1 {
      MatchedInit(lines[1..]);
      assert lines[1..][..|lines| - 2] == lines[..|lines| - 1][1..];
    }
  }

  lemma StepRecords(t: Tally, line: string)
    ensures Step(t, line).records == t.records + RecordOf(line)
  {
  }

  /** The records `parse_logs` returns are exactly the matching lines' records, in order. */
  lemma {:induction false} ParseRecords(lines: seq<string>)
    ensures ParseSpec(lines).records == Matched(lines)
    decreases |lines|
  {
    if |lines| > 0 {
      ParseRecords(lines[..|lines| - 1]);
      StepRecords(ParseSpec(lines[..|lines| - 1]), lines[|lines| - 1]);
      MatchedInit(lines);
    }
  }

  /** How many of the records raise the flag of category `c`. */
  function CountFlagged(rs: seq<Record>, c: Category): nat
  {
    if |rs| == 0 then 0
    else (if Flag(Classify(rs[0].url), c) then 1 else 0) + CountFlagged(rs[1..], c)
  }

  lemma {:induction false} CountFlaggedAppend(a: seq<Record>, b: seq<Record>, c: Category)
    ensures CountFlagged(a + b, c) == CountFlagged(a, c) + CountFlagged(b, c)
    decreases |a|
  {
    if |a| == 0 {
      assert a + b == b;
    } else {
      assert (a + b)[1..] == a[1..] + b;
      CountFlaggedAppend(a[1..], b, c);
    }
  }

  lemma {:induction false} CountFlaggedBound(rs: seq<Record>, c: Category)
    ensures CountFlagged(rs, c) <= |rs|
    decreases |rs|
  {
    if |rs| > 0 {
      CountFlaggedBound(rs[1..], c);
    }
  }

  /**
   * Each counter `parse_logs` returns is the number of returned records whose
   * URL raises that category, so it never exceeds the number of records.
   */
  lemma {:induction false} ParseCounts(lines: seq<string>, c: Category)
    ensures Counter(ParseSpec(lines), c) == CountFlagged(ParseSpec(lines).records, c)
    ensures Counter(ParseSpec(lines), c) <= |ParseSpec(lines).records|
    decreases |lines|
  {
    if |lines| > 0 {
      var init := lines[..|lines| - 1];
      var line := lines[|lines| - 1];
      ParseCounts(init, c);
      match Extract(line)
      case None =>
      case Some(r) =>
        CountFlaggedAppend(ParseSpec(init).records, [r], c);
        assert CountFlagged([r], c) == if Flag(Classify(r.url), c) then 1 else 0;
    }
    CountFlaggedBound(ParseSpec(lines).records, c);
  }
}
