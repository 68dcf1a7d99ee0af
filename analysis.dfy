/**
 * `analyze_all_logs_in_directory`: every regular file of the directory whose
 * name ends in `.log` is parsed, the per-file records are concatenated in
 * listing order and the per-file counters summed; the combined records are
 * then ranked by (IP, URL) pair. The directory listing is given as a
 * sequence of entries, each with its name, whether it is a regular file, and
 * the lines it holds.
 */
module Analysis {
  import opened Wrappers
  import opened Extractor
  import opened Classifier
  import opened LogParser
  import opened Aggregate

  /** One entry of the directory listing. */
  datatype DirEntry = DirEntry(name: string, isFile: bool, lines: seq<string>)

  /** `s.endswith(suffix)`. */
  predicate EndsWith(s: string, suffix: string)
  {
    |suffix| <= |s| && s[|s| - |suffix|..] == suffix
  }

  /** `os.path.isfile(file_path) and filename.endswith('.log')`. */
  predicate IsLogFile(e: DirEntry)
  {
    e.isFile && EndsWith(e.name, ".log")
  }

  /** The entries the directory loop processes, in listing order. */
  function LogFiles(entries: seq<DirEntry>): seq<DirEntry>
  {
    if |entries| == 0 then []
    else
      var last := entries[|entries| - 1];
      LogFiles(entries[..|entries| - 1]) + (if IsLogFile(last) then [last] else [])
  }

  /** `pd.concat(frames, ignore_index=True)` on the record lists: their rows in order. */
  function Concat(frames: seq<seq<Record>>): seq<Record>
  {
    if |frames| == 0 then [] else Concat(frames[..|frames| - 1]) + frames[|frames| - 1]
  }

  /** Reference definition: for each file, the records of its matching lines. */
  function FileFrames(files: seq<DirEntry>): seq<seq<Record>>
  {
    seq(|files|, i requires 0 <= i < |files| => Matched(files[i].lines))
  }

  /** The state of the directory loop: the per-file record lists and the three totals. */
  datatype Collected = Collected(frames: seq<seq<Record>>, xss: nat, sqli: nat, idor: nat)

  function Total(t: Collected, c: Category): nat
  {
    match c
    case Xss => t.xss
    case Sqli => t.sqli
    case Idor => t.idor
  }

  /** One iteration of the directory loop. */
  function CollectStep(t: Collected, e: DirEntry): Collected
  {
    if !IsLogFile(e) then t
    else
      var p := ParseSpec(e.lines);
      Collected(t.frames + [p.records], t.xss + p.xss, t.sqli + p.sqli, t.idor + p.idor)
  }

  /** The loop's state after the given entries, starting from nothing. */
  function CollectSpec(entries: seq<DirEntry>): Collected
  {
    if |entries| == 0 then Collected([], 0, 0, 0)
    else CollectStep(CollectSpec(entries[..|entries| - 1]), entries[|entries| - 1])
  }

  /** The directory loop of `analyze_all_logs_in_directory`. */
  method CollectLogs(entries: seq<DirEntry>)
    returns (allData: seq<seq<Record>>, totalXss: nat, totalSqli: nat, totalIdor: nat)
    ensures Collected(allData, totalXss, totalSqli, totalIdor) == CollectSpec(entries)
  {
    allData := [];
    totalXss, totalSqli, totalIdor := 0, 0, 0;
    var i := 0;
    while i < |entries|
      invariant 0 <= i <= |entries|
      invariant Collected(allData, totalXss, totalSqli, totalIdor) == CollectSpec(entries[..i])
    {
      var entry := entries[i];
      if entry.isFile && EndsWith(entry.name, ".log") {
        var dataFrame, xssAttempts, sqliAttempts, idorAttempts := ParseLogs(entry.lines);
        allData := allData + [dataFrame];
        totalXss := totalXss + xssAttempts;
        totalSqli := totalSqli + sqliAttempts;
        totalIdor := totalIdor + idorAttempts;
      }
      assert entries[..i + 1][..i] == entries[..i];
      i := i + 1;
    }
    assert entries[..|entries|] == entries;
  }

  /** Only the `.log` files count: the loop over the whole listing does what it does over those alone. */
  lemma {:induction false} CollectOnlyLogFiles(entries: seq<DirEntry>)
    ensures CollectSpec(entries) == CollectSpec(LogFiles(entries))
    decreases |entries|
  {
    if |entries| > 0 {
      var init := entries[..|entries| - 1];
      var last := entries[|entries| - 1];
      CollectOnlyLogFiles(init);
      if IsLogFile(last) {
        var files := LogFiles(init) + [last];
        assert LogFiles(entries) == files;
        assert files[..|files| - 1] == LogFiles(init);
        assert files[|files| - 1] == last;
        assert CollectSpec(files) == CollectStep(CollectSpec(LogFiles(init)), last);
      } else {
        assert LogFiles(entries) == LogFiles(init) + [] == LogFiles(init);
        assert CollectSpec(entries) == CollectStep(CollectSpec(init), last) == CollectSpec(init);
      }
    }
  }

  /**
   * One record list per `.log` file, in listing order, each holding exactly
   * the records of that file's matching lines.
   */
  lemma {:induction false} CollectFrames(entries: seq<DirEntry>)
    ensures CollectSpec(entries).frames == FileFrames(LogFiles(entries))
    decreases |entries|
  {
    if |entries| > 0 {
      var init := entries[..|entries| - 1];
      var last := entries[|entries| - 1];
      CollectFrames(init);
      if IsLogFile(last) {
        ParseRecords(last.lines);
        var files := LogFiles(init) + [last];
        assert LogFiles(entries) == files;
        assert FileFrames(files) == FileFrames(LogFiles(init)) + [Matched(last.lines)];
      }
    }
  }

  /**
   * Each total is the number of combined records whose URL raises that
   * category, so it never exceeds the number of combined records.
   */
  lemma {:induction false} CollectTotals(entries: seq<DirEntry>, c: Category)
    ensures Total(CollectSpec(entries), c) == CountFlagged(Concat(CollectSpec(entries).frames), c)
    ensures Total(CollectSpec(entries), c) <= |Concat(CollectSpec(entries).frames)|
    decreases |entries|
  {
    var t := CollectSpec(entries);
    if |entries| > 0 {
      var init := entries[..|entries| - 1];
      var last := entries[|entries| - 1];
      CollectTotals(init, c);
      if IsLogFile(last) {
        var p := ParseSpec(last.lines);
        ParseCounts(last.lines, c);
        assert t.frames[..|t.frames| - 1] == CollectSpec(init).frames;
        CountFlaggedAppend(Concat(CollectSpec(init).frames), p.records, c);
        assert Total(t, c) == Total(CollectSpec(init), c) + Counter(p, c);
      }
    }
    CountFlaggedBound(Concat(t.frames), c);
  }

  /** Why the source stops before producing a ranking. */
  datatype AnalysisError =
    | NoLogFiles   // `pd.concat([])` raises: no entry is a `.log` file
    | NoRecords    // the combined frame has no columns, so `groupby(['IP', 'URL'])` raises

  /** What the function writes out and prints: the rankings and the three totals. */
  datatype Report = Report(ranking: seq<Entry>, top10: seq<Entry>, top100: seq<Entry>, xss: nat, sqli: nat, idor: nat)

  /** The records of every `.log` file of the listing, file after file. */
  function AllRecords(entries: seq<DirEntry>): seq<Record>
  {
    Concat(FileFrames(LogFiles(entries)))
  }

  /**
   * `analyze_all_logs_in_directory` up to its output: it fails when there is
   * no `.log` file or no record, and otherwise ranks the records of all
   * `.log` files by pair, keeps the first 10 and 100 rows, and reports for
   * each category how many of those records raise it.
   */
  method AnalyzeAllLogsInDirectory(entries: seq<DirEntry>) returns (res: Result<Report, AnalysisError>)
    ensures res == Failure(NoLogFiles) <==> |LogFiles(entries)| == 0
    ensures res == Failure(NoRecords) <==> |LogFiles(entries)| > 0 && |AllRecords(entries)| == 0
    ensures res.Success? ==>
              && IsRanking(res.value.ranking, AllRecords(entries))
              && SumCounts(res.value.ranking) == |AllRecords(entries)|
              && res.value.top10 == Head(res.value.ranking, 10)
              && res.value.top100 == Head(res.value.ranking, 100)
              && res.value.xss == CountFlagged(AllRecords(entries), Xss)
              && res.value.sqli == CountFlagged(AllRecords(entries), Sqli)
              && res.value.idor == CountFlagged(AllRecords(entries), Idor)
  {
    var allData, totalXss, totalSqli, totalIdor := CollectLogs(entries);
    CollectFrames(entries);
    if |allData| == 0 {
      return Failure(NoLogFiles);
    }
    var combinedData := Concat(allData);
    if |combinedData| == 0 {
      return Failure(NoRecords);
    }
    var ipUrlCounts := RankByCount(combinedData);
    RankByCountSpec(combinedData);
    CollectTotals(entries, Xss);
    CollectTotals(entries, Sqli);
    CollectTotals(entries, Idor);
    res := Success(Report(ipUrlCounts, Head(ipUrlCounts, 10), Head(ipUrlCounts, 100), totalXss, totalSqli, totalIdor));
  }

  /** Which names the filter accepts. */
  lemma NameFilter(lines: seq<string>)
    ensures IsLogFile(DirEntry("access.log", true, lines))
    ensures !IsLogFile(DirEntry("notes.txt", true, lines))
    ensures !IsLogFile(DirEntry("old.log", false, lines))
  {
    assert "access.log"[6..] == ".log";
    assert "notes.txt"[5..] == ".txt";
  }

  /** The plain request line makes a one-line file with one record. */
  lemma PlainLineFile(lines: seq<string>)
    requires lines == [PlainLine]
    ensures Matched(lines) == [Record("10.0.0.1", "/index.html")]
  {
    ExtractPlainLine();
    assert lines[1..] == [];
  }

  /** A listing with one `.log` file and one `.txt` file holding the same line: only the `.log` file is read. */
  lemma LogAndTextFile(log: DirEntry, txt: DirEntry)
    requires log == DirEntry("access.log", true, [PlainLine])
    requires txt == DirEntry("notes.txt", true, [PlainLine])
    ensures LogFiles([log, txt]) == [log]
    ensures AllRecords([log, txt]) == [Record("10.0.0.1", "/index.html")]
  {
    NameFilter([PlainLine]);
    var entries := [log, txt];
    assert entries[..1] == [log] && [log][..0] == [];
    assert LogFiles([log]) == [log];
    assert LogFiles(entries) == [log];
    PlainLineFile(log.lines);
    var m := Matched(log.lines);
    assert FileFrames([log]) == [m];
    assert [m][..0] == [];
    assert Concat([m]) == Concat([]) + m;
  }
}
