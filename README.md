# Apache access-log attack counter, modelled in Dafny

`Parser/main.py` reads every `.log` file of a directory line by line. From
each access-log line it takes two things. The client IP is the dotted quad
that starts the line. The requested URL is the text between `"METHOD ` and
` HTTP`. Each matched line becomes an (IP, URL) record.

It also flags the URL against three fixed lists of literal substrings, for
cross-site scripting, SQL injection and path traversal (IDOR), and counts
the flagged records per category. The records of all files are then grouped
by (IP, URL) pair and ranked by how often each pair occurs. The first 10 and
100 rows of the ranking are kept, and the three totals are reported.

The model has six modules:

- `Wrappers` (`wrappers.dfy`): `Option` and `Result`.
- `Classifier` (`classifier.dfy`):
  - the three pattern lists, copied verbatim;
  - Python's `pattern in url` as a substring scan;
  - the `any(...)` tests, and the flags they raise.
- `Extractor` (`extractor.dfy`): the two fixed regular expressions as scanners over the line.
  - `MatchIp` is `re.match(r'(\d+\.\d+\.\d+\.\d+)', line)`.
  - `MatchUrl` is `re.search(r'\"[A-Z]+\s(.*?)\sHTTP', line)`.
  - Each has a declarative description of what the pattern matches, which the scanner is proved to follow: `IpToken`, `RequestAt` and `FirstRequest`.
- `LogParser` (`parser.dfy`): `parse_logs`, a method with the source's loop.
  - It is proved against the fold `ParseSpec`.
  - `ParseSpec` is in turn related to an independent filter (`Matched`) and count (`CountFlagged`).
- `Aggregate` (`aggregate.dfy`):
  - `groupby(['IP', 'URL']).size()` as `GroupSize`;
  - `sort_values(by='Count', ascending=False)` as `SortByCount`;
  - `head(k)` as `Head`;
  - `IsRanking`, which states what the ranking promises without fixing the order of equal counts.
- `Analysis` (`analysis.dfy`): `analyze_all_logs_in_directory`.
  - The directory loop is a method proved against the fold `CollectSpec`.
  - The whole function is a method that returns either the report or the error the source raises.

The directory listing is an input: a sequence of entries, each with a name, whether it is a regular file, and the lines of the file. A line is a string as Python's file iteration yields it, so it may end in `'\n'`.

Both `\d` and `[A-Z]` are ASCII here. `\s` is the exact set of characters that Python's `str` patterns treat as whitespace.

## Model

| member | source | states |
|---|---|---|
| Classifier.ContainsFromSpec | Parser/main.py:28-32 | scanning from index `i` finds the pattern exactly when it occurs at some index `i` or later |
| Classifier.ContainsSpec | Parser/main.py:28-32 | `pattern in url` holds exactly when the pattern occurs in the URL as a contiguous substring, case-sensitively, with no decoding |
| Classifier.AnyOccursSpec | Parser/main.py:28-32 | `any(pattern in url for pattern in pats)` holds exactly when some pattern of the list is contained in the URL |
| Classifier.ClassifySpec | Parser/main.py:28-33 | each of the three flags is raised exactly when some pattern of its own fixed list is a substring of the URL; the other lists play no part |
| Classifier.AnyOccursMonotone | Parser/main.py:28-33 | if a list fires on a URL, it fires on every string that contains that URL |
| Classifier.ClassifyMonotone | Parser/main.py:28-33 | a flag raised for a URL stays raised for every string containing it |
| Classifier.ContainsTransitive | Parser/main.py:28-32 | substring containment is transitive |
| Classifier.XssNeedsMarkup | Parser/main.py:28-29 | every XSS pattern starts with `<` or `%3`, so a URL with no `<` and no `%3` is never flagged as XSS |
| Classifier.ClassifyPlainPage | Parser/main.py:28-33 | `/index.html` raises no flag |
| Classifier.ClassifyTraversal | Parser/main.py:28-33 | `/../../etc/passwd` raises the IDOR flag alone |
| Classifier.ClassifyEncodedQuote | Parser/main.py:30-31 | a URL holding the encoded quote `%27` raises the SQL-injection flag |
| Classifier.ClassifyAllThree | Parser/main.py:28-33 | one URL can raise all three flags at once |
| Classifier.ClassifyAnyCombination | Parser/main.py:28-33 | the three checks are independent: each of the eight combinations of flags is raised exactly by a URL built from `<b`, `--` and `../` |
| Extractor.RunEndSpec | Parser/main.py:20 | a greedy run consists of matching characters and is followed by the end of the line or a non-matching one |
| Extractor.QuadPrefixMatched | Parser/main.py:20 | if some prefix of the line is a dotted quad, the IP pattern matches and captures at least that prefix, and exactly that prefix when no digit follows it |
| Extractor.MatchIpSound | Parser/main.py:20-24 | what the IP pattern captures is a dotted quad that starts the line and is not followed by a digit |
| Extractor.MatchIpSpec | Parser/main.py:20-24 | the IP pattern yields `ip` if and only if `ip` is the dotted-quad token starting the line; it fails if and only if no prefix of the line is a dotted quad |
| Extractor.MatchIpIffPrefix | Parser/main.py:20 | the anchored IP match succeeds exactly when some prefix of the line has the dotted-quad shape |
| Extractor.LazyEndSpec | Parser/main.py:21 | the lazy group `(.*?)\sHTTP` stops at the first whitespace-then-`HTTP`, and fails if a newline comes first |
| Extractor.MatchAtSpec | Parser/main.py:21 | with the quote at a given index, the URL pattern matches exactly as reported, with the shortest group; otherwise no match starts there |
| Extractor.SearchFromSpec | Parser/main.py:21 | the search reports the leftmost match at or after a position, and fails only when there is none |
| Extractor.SearchRequestSpec | Parser/main.py:21 | `re.search` reports the leftmost, then shortest, match of the URL pattern; it fails if and only if the pattern matches nowhere |
| Extractor.MatchUrlShape | Parser/main.py:21-25 | the URL follows a quote, upper-case letters and one whitespace character, is followed by whitespace and `HTTP`, and holds no newline and no whitespace-then-`HTTP` of its own |
| Extractor.MatchUrlIffRequest | Parser/main.py:21-25 | the URL search succeeds exactly when a request occurs in the line, and captures the URL of the first one |
| Extractor.ExtractSpec | Parser/main.py:20-25 | a line yields a record if and only if it starts with a dotted quad and holds a quoted request; the record is the IP token and the first request's URL |
| Extractor.IpStopsAtFourthRun | Parser/main.py:20-24 | `1.2.3.4.5 - -` yields the IP `1.2.3.4` |
| Extractor.IpNotRangeChecked | Parser/main.py:20-24 | `999.1.1.1` is accepted: the digit runs are not range-checked |
| Extractor.IpNeedsFourRuns | Parser/main.py:20 | three dotted runs are not an IP |
| Extractor.PlainLineIp | Parser/main.py:20-24 | the line `10.0.0.1 - - "GET /index.html HTTP/1.1" 200` yields the IP `10.0.0.1` |
| Extractor.PlainLineUrl | Parser/main.py:21-25 | the same line yields the URL `/index.html` |
| Extractor.ExtractPlainLine | Parser/main.py:20-25 | the same line yields the record (`10.0.0.1`, `/index.html`) |
| LogParser.ParseLogs | Parser/main.py:12-37 | the loop over the lines returns the records and the three counters that `ParseSpec` assigns to the lines, and no counter exceeds the number of records |
| LogParser.StepSpec | Parser/main.py:20-35 | a line on which either pattern fails changes nothing; otherwise it appends exactly its record, and each counter grows by one if its list fires on the URL and stays the same if not |
| LogParser.MatchedInit | Parser/main.py:19-35 | one more line adds that line's record, if any, at the end |
| LogParser.ParseRecords | Parser/main.py:19-35 | the records returned are exactly the records of the matching lines, in line order |
| LogParser.CountFlaggedAppend | Parser/main.py:28-33 | the flagged records of two lists add up |
| LogParser.ParseCounts | Parser/main.py:14-35 | each counter equals the number of returned records whose URL raises its category, so it is at most the number of records |
| Aggregate.AddRecordSpec | Parser/main.py:67 | counting one record raises the count of its pair by one and leaves every other pair's count alone; it adds the pair to the keys and keeps keys distinct and counts positive |
| Aggregate.GroupSizeSpec | Parser/main.py:67 | `groupby().size()` yields one row per distinct pair of the records, with distinct keys and positive counts; the count of a pair is its number of records, and the counts sum to the number of records |
| Aggregate.CountOfRow | Parser/main.py:67 | with distinct keys, a row's count is the count of its key |
| Aggregate.InsertByCountRows | Parser/main.py:68 | inserting adds exactly one row and its count |
| Aggregate.InsertByCountOrder | Parser/main.py:68 | inserting into a list ordered by non-increasing count keeps it so ordered |
| Aggregate.SortByCountSpec | Parser/main.py:68 | `sort_values(by='Count', ascending=False)` orders the rows by non-increasing count and is a permutation of them |
| Aggregate.DistinctPermutation | Parser/main.py:68 | reordering rows keeps their keys distinct |
| Aggregate.RankByCountSpec | Parser/main.py:67-68 | the grouped and sorted rows are a ranking of the records, and their counts sum to the number of records |
| Aggregate.RankingUnique | Parser/main.py:67-68 | any two rankings of the same records hold the same rows; only the order of equal counts may differ |
| Aggregate.RankingPermuted | Parser/main.py:67-68 | whether rows are a ranking of the records depends only on how often each record occurs, not on the records' order |
| Aggregate.RankByCountPermuted | Parser/main.py:67-68 | aggregating a reordering of the records gives the same rows, possibly in another order |
| Aggregate.Head | Parser/main.py:72-73 | `head(k)` is the prefix of length `min(k, n)`; on a ranking, each of its rows counts at least as much as every row left out |
| Aggregate.TwoIdenticalRecords | Parser/main.py:67-68 | two records with the same pair give a single row with count 2 |
| Analysis.CollectLogs | Parser/main.py:41-61 | the directory loop returns the per-file record lists and totals that `CollectSpec` assigns to the listing |
| Analysis.CollectOnlyLogFiles | Parser/main.py:47-51 | only regular files named `*.log` count: the loop over the whole listing gives the same result as the loop over those entries alone |
| Analysis.CollectFrames | Parser/main.py:51-58 | there is one record list per `.log` file, in listing order, holding exactly that file's matching lines' records |
| Analysis.CollectTotals | Parser/main.py:55-64 | each total, a sum of per-file counters, equals the number of records of the concatenated lists whose URL raises that category, and is at most their number |
| Analysis.AnalyzeAllLogsInDirectory | Parser/main.py:40-73 | with no `.log` file the function fails at `pd.concat`; with `.log` files but no records it fails at `groupby`. Otherwise it returns a ranking of the records of all `.log` files whose counts sum to their number, the first 10 and 100 rows of that ranking, and per category the number of those records that raise it |
| Analysis.NameFilter | Parser/main.py:51 | `access.log` passes the filter; `notes.txt` and a non-file named `old.log` do not |
| Analysis.PlainLineFile | Parser/main.py:19-35 | a file holding the plain request line yields its one record |
| Analysis.LogAndTextFile | Parser/main.py:47-64 | in a listing with a `.log` and a `.txt` file holding the same line, only the `.log` file's record is collected |

## Left out

- File and directory access (`open`, `os.listdir`, `os.path.join`, `os.path.isfile`, Parser/main.py:18,47-51) is not modelled. The listing and each file's lines are inputs, so a file that cannot be read, which aborts the whole run in the source, is not modelled.
- Console output (Parser/main.py:52,83-85) is not modelled. The three totals it prints are returned in `Report` instead.
- The CSV files (Parser/main.py:71-73) and the bar chart (Parser/main.py:76-80) are not modelled. The rows they would hold are the `ranking`, `top10` and `top100` fields of `Report`.
- The module-level call with the hard-coded path `./` (Parser/main.py:88-89) is not modelled.
- `IsDigit` matches ASCII `0`-`9` only. In Python 3, `\d` on a `str` pattern also matches every other Unicode decimal digit, so lines whose IP uses non-ASCII digits are not modelled.
- Aggregate.GroupSize: rows appear in order of first occurrence. Pandas' `groupby` orders them by key instead. This order is lost anyway, because `sort_values` uses an unstable sort. So the model promises only `IsRanking`: the rows, their counts and the non-increasing order. `RankingUnique` shows that this fixes the rows up to the order of equal counts.
- Aggregate.SortByCount: it breaks ties by a fixed insertion order. Pandas' tie order is unspecified, and `Analysis.AnalyzeAllLogsInDirectory` does not promise any tie order.
- Pandas `DataFrame`s are modelled as their rows: a `seq<Record>`, or a `seq<Entry>` after grouping. A frame built from no records has no columns, which is why `groupby` then raises. The model shows this as the `NoRecords` error, not as a frame.
