# Historical robots.txt scraper — a Dafny model

This project models the scraper of archived `robots.txt` files, Code/main.py and Code/blocked.py, and proves properties of the model.
It covers five parts:

- **Blocked-crawler extraction** (`extract_all_blocked_crawlers`).
  One pass over the lines of a snapshot.
  The pass tracks the most recent `user-agent:` value.
  It collects every agent that has a `disallow:` line in its scope.
  It joins the collected set with `", "`.
- **User-agent extraction** (`extract_user_agent`).
  The value of every line that starts with `user-agent:` in any case, in line order.
- **Timestamps** (`convert_to_timestamp`).
  14-digit Wayback timestamps `YYYYMM01000000`, compared as strings.
- **Index filtering** (the pure part of `fetch_cdx_data`).
  Column 1 of every data row of the index (CDX) answer, kept when it lies in the window.
  It fails soft: every failure gives the empty list.
- **Record assembly** (`process_domain` and `scrape_historical_robots`).
  One record per user agent of every present, non-empty snapshot, in timestamp order.
  The per-domain lists are concatenated in the order of the domains.

The network is replaced by its outcomes:

- a `CdxReply` holds what the index request produced, for each domain;
- an `Option<string>` per timestamp holds what fetching that snapshot produced.

Python's string operations are written out in module `Text`:

- `splitlines`, with its full set of line breaks; "\r\n" counts as one break, and a trailing break starts no empty line;
- `strip`, with the full `str.isspace` set;
- `lower`, for ASCII letters;
- `split(':', 1)[1]`, `join`, and `<=` on `str`.

Modules:

- `Wrappers` holds `Option`.
- `Text` holds the Python string operations.
- `Seqs` holds the list comprehensions that filter, map and flatten.
- `Blocked` models Code/blocked.py.
- `UserAgents`, `Timestamps`, `Cdx` and `Pipeline` model Code/main.py.

Imperative source code is modelled as methods with loops:

- `ExtractAllBlockedCrawlers`
- `ExtractUserAgent`
- `ProcessDomain` and its inner loop
- `GatherDomains`

Each of these methods is proved equal to a specification function:

- `Blocked.Scan`
- `UserAgents.UserAgentsOf`
- `Pipeline.DomainRecords`
- `Pipeline.Results`

The lemmas then characterise those functions.

## Model

| member | source | states |
|---|---|---|
| Blocked.ExtractAllBlockedCrawlers | Code/blocked.py:3-24 | An absent snapshot gives "". Otherwise the result is "" exactly when no agent is blocked. Otherwise it is the blocked set joined by ", " in some enumeration of the set. The loop is proved to compute the fold `Scan` of the lines. |
| Blocked.JoinBlocked | Code/blocked.py:24 | For a set of non-empty names, the result is "" iff the set is empty. It is the names joined by ", " in some order that lists each member once. |
| Blocked.EnumerateSet | Code/blocked.py:24 | Iterating a set yields a sequence with the same multiset of elements as the set. |
| Blocked.EnumerationDistinct | Code/blocked.py:5-24 | No agent appears twice in the reported list, however many `disallow:` lines it has. |
| Blocked.AgentRuleIsNotDisallow | Code/blocked.py:16-20 | No normalized line is both a `user-agent:` line and a `disallow:` line. |
| Blocked.ClassifyDisallow | Code/blocked.py:13-20 | A line is read as a `disallow:` rule iff its stripped, lowercased form starts with `disallow:`. The `elif` hides no rule. |
| Blocked.ScanAppend | Code/blocked.py:12-22 | Running the loop over `p + q` equals running it over `p` and then over `q`. |
| Blocked.NoAgentKeepsInitial | Code/blocked.py:10-22 | Without a `user-agent:` line the state stays `(None, {})`. |
| Blocked.LeadingLinesIgnored | Code/blocked.py:10-22 | Lines before the first `user-agent:` line, `disallow:` lines included, do not change the result. |
| Blocked.NoAgentLineNothingBlocked | Code/blocked.py:10-24 | A snapshot with no `user-agent:` line blocks nobody, whatever its `disallow:` lines. |
| Blocked.CurrentIsMostRecent | Code/blocked.py:10-17 | The agent in scope is the value of the most recent `user-agent:` line: each new one replaces the previous. It is `None` iff no such line has been read. Both directions are proved. |
| Blocked.BlockedIffRules | Code/blocked.py:12-22 | Over rules, an agent is blocked iff it is not "" and some `disallow:` rule follows its `user-agent:` rule with no other `user-agent:` rule between. |
| Blocked.BlockedIff | Code/blocked.py:12-22 | The same for the lines of a snapshot. An agent is blocked iff it is non-empty and some `disallow:` line falls while it is the most recent agent. An empty `User-agent:` value therefore shields the `disallow:` lines after it. |
| Blocked.AgentNameOfLowered | Code/blocked.py:13-17 | On a lowered line, the agent name is the lowered, stripped text after the first colon of the original line. |
| Blocked.AgentNameNormalized | Code/blocked.py:13-17 | Every name a `user-agent:` line puts in scope is stripped and lowercase. |
| Blocked.BlockedNamesNormalizedRules | Code/blocked.py:13-22 | If every agent rule names a stripped, lowercase value, then every blocked name is non-empty, stripped and lowercase. The same holds for a truthy agent in scope. |
| Blocked.BlockedNamesNormalized | Code/blocked.py:13-22 | Every reported name is non-empty, has no surrounding whitespace and no ASCII upper-case letter. |
| Blocked.CaseInsensitive | Code/blocked.py:9-17 | Lowering the whole snapshot first does not change the blocked set. |
| Blocked.WhitespaceTolerant | Code/blocked.py:13 | Stripping every line first does not change the loop's result. |
| UserAgents.ColonAfterPrefix | Code/main.py:14-15 | In a matching line, the first colon is the one right after `user-agent`, so `split(':', 1)` cannot fail. |
| UserAgents.ExtractUserAgent | Code/main.py:11-16 | The loop computes `UserAgentsOf` of the lines of the text. |
| UserAgents.UserAgentsByPosition | Code/main.py:12-16 | There is one entry per line whose lowercase form starts with `user-agent:`, in line order. Entry `k` is the value of the `k`-th matching line, and every matching line has an entry. |
| UserAgents.UserAgentCount | Code/main.py:13-15 | The number of agents equals the number of matching lines. |
| UserAgents.LeadingSpaceNotMatched | Code/main.py:14 | A line with whitespace before `user-agent:` is not matched. |
| UserAgents.AgentValueKeepsCase | Code/main.py:15 | The value is the stripped text after the 11-character prefix, in its original case. |
| Timestamps.ZeroPadded | Code/main.py:8 | `%0wd` gives `w` decimal digits that denote `n` when `n < 10^w`. |
| Timestamps.ConvertToTimestamp | Code/main.py:7-8 | For years 1000-9999 and months 1-12: 14 digits, where the first four denote the year, the next two the month, and the rest are "01000000". |
| Timestamps.LexLeConcat | Code/main.py:27 | Comparing two strings with heads of equal length compares the heads first, then the tails. |
| Timestamps.DigitStringOrder | Code/main.py:27 | For digit strings of one width, string `<=` is numeric `<=`, and string equality is numeric equality. |
| Timestamps.DecimalValueAppend | Code/main.py:8 | The value of concatenated digit strings is the head's value shifted by the tail's width, plus the tail's value. |
| Timestamps.TimestampHead | Code/main.py:7-8 | A timestamp is a six-digit head denoting `100 * year + month`, followed by "01000000". |
| Timestamps.TimestampOrder | Code/main.py:7-8 | Timestamps compare as strings exactly as their (year, month) pairs compare chronologically. Equal timestamps have equal pairs. |
| Cdx.TimestampColumn | Code/main.py:26 | Column 1 of every row, or `None` iff some row has fewer than two fields; `entry[1]` raises in that case. |
| Cdx.DataRows | Code/main.py:26 | `data[1:]`: every row after the header, or nothing. |
| Cdx.FetchCdxData | Code/main.py:22-33 | Every returned timestamp lies in `[start, end]`. A transport error, a non-200 status or an unreadable body gives []. |
| Cdx.ShortRowFailsSoft | Code/main.py:26-33 | A data row without column 1 makes the result [] rather than an error. |
| Cdx.HeaderIgnored | Code/main.py:26 | Replacing the header row does not change the result. |
| Cdx.WellFormedColumn | Code/main.py:26 | When every data row has column 1, the column is exactly those values. |
| Cdx.WindowSubsequence | Code/main.py:26-27 | For a well-formed answer, the result is the order-preserving subsequence of the column-1 values of the data rows that lie in the window. Every such value is kept. |
| Seqs.Filter | Code/main.py:27 | A filtered element comes from the input and passes the test. The result is no longer than the input. |
| Seqs.PositionsExact | Code/main.py:27 | The passing positions are increasing and in range, and contain exactly the indices whose element passes. |
| Seqs.FilterAtPositions | Code/main.py:27 | The filtered list is the input read at the passing positions. |
| Seqs.FilterMapLength | Code/main.py:13-15 | Filtering and then mapping keeps one result per passing element. |
| Seqs.FilterMapAtPositions | Code/main.py:13-15 | Entry `k` of the mapped list is the function applied to the element at the `k`-th passing position. |
| Seqs.FlattenAppend | Code/main.py:94 | Flattening distributes over concatenation of the outer list. |
| Seqs.FlattenLength | Code/main.py:94 | The flattened list has the total length of the inner lists. |
| Seqs.FlattenMembership | Code/main.py:94 | An element is in the flattened list iff it is in one of the inner lists. |
| Seqs.FlattenPrefixNext | Code/main.py:62-76 | Flattening one more inner list appends it. |
| Pipeline.AppendAgentRecords | Code/main.py:70-76 | The inner loop appends exactly one record per user agent, in order. |
| Pipeline.AgentRecordsPointwise | Code/main.py:70-76 | Record `k` carries the domain, the timestamp, agent `k` and the full text. There is one record per agent. |
| Pipeline.SnapshotRecordOrder | Code/main.py:67-76 | Within a snapshot, records follow the order of its `user-agent:` lines. |
| Pipeline.SnapshotRecordCount | Code/main.py:67-76 | A snapshot yields as many records as it has user agents. An absent or empty snapshot yields none. |
| Pipeline.SnapshotRecordsMembership | Code/main.py:67-76 | A record comes from a snapshot iff it has that domain and timestamp, the snapshot's full non-empty text, and one of its agents. |
| Pipeline.ProcessDomain | Code/main.py:51-80 | The nested loops compute `DomainRecords` of the window's timestamps. With no timestamps the result is [] and nothing is fetched. |
| Pipeline.PerSnapshotTotal | Code/main.py:62-76 | The per-snapshot lists add up to the agent count of all snapshots. |
| Pipeline.DomainRecordCount | Code/main.py:62-76 | A domain yields as many records as the user agents of its present, non-empty snapshots add up to. |
| Pipeline.RecordProvenance | Code/main.py:62-76 | A record belongs to a domain iff both of these hold:<br>- it carries the domain, a timestamp the index gave, and the full non-empty text fetched for that timestamp;<br>- its user agent is one the text declares. |
| Pipeline.DomainRecordsSplit | Code/main.py:62-76 | The records of the first `i` snapshots come before those of the rest. |
| Pipeline.FailedIndexNoRecords | Code/main.py:55-59 | A domain whose index request failed or answered non-200 contributes no records. |
| Pipeline.GatherDomains | Code/main.py:88-91 | The per-domain tasks' results come back in the order of `domains`. |
| Pipeline.ScrapeHistoricalRobots | Code/main.py:83-94 | The output is the window's per-domain record lists, flattened in the order of `domains`. |
| Pipeline.ResultsTotal | Code/main.py:88-94 | The per-domain lists add up to the agent count of every domain's snapshots. |
| Pipeline.FleetRecordCount | Code/main.py:94 | The flattened output has as many records as all domains' present, non-empty snapshots declare user agents. |
| Pipeline.FleetOrder | Code/main.py:94 | Each domain's records stay together, in the order of `domains`. |
| Text.SplitLines | Code/blocked.py:9 | No line contains a line break. The text is empty iff it has no lines. |
| Text.SplitLinesNewline | Code/blocked.py:9 | A break-free line followed by '\n' is the first line, and the lines of the rest follow it. |
| Text.SplitLinesJoin | Code/blocked.py:9 | When every line break is '\n', joining the lines with "\n" gives back the text, less a single final '\n'. |
| Text.SplitLinesLower | Code/blocked.py:9-13 | Lowering a text lowers each of its lines and keeps the line structure. |
| Text.Strip | Code/blocked.py:13 | The result has no whitespace at either end and is no longer than the input. |
| Text.StripSlice | Code/blocked.py:13 | The result is a slice `s[i..j]` of the input, and everything outside the slice is whitespace. |
| Text.TrimStart | Code/blocked.py:13 | Drops exactly the leading whitespace and keeps a suffix. |
| Text.TrimEnd | Code/blocked.py:13 | Drops exactly the trailing whitespace and keeps a prefix. |
| Text.StripLower | Code/blocked.py:13 | Stripping and lowering commute. |
| Text.StripIdempotent | Code/blocked.py:13 | Stripping twice is stripping once. |
| Text.AfterFirstColon | Code/blocked.py:17 | The result is the suffix after the first colon, and no colon comes before that one. |
| Text.AfterFirstColonLower | Code/blocked.py:13-17 | Lowering commutes with taking the text after the first colon. |
| Text.JoinNonEmpty | Code/blocked.py:24 | A join of a non-empty list whose first element is non-empty is itself non-empty. |

## Left out

- Network I/O (`aiohttp` requests in `fetch_cdx_data` and `fetch_robots_txt`): replaced by inputs.
  - Each domain gets one `CdxReply`: a transport error, or a status with the body parsed as rows.
  - Each timestamp gets one `Option<string>` fetch outcome. `None` stands for a failed fetch or a non-200 answer.
- Pipeline.ProcessDomain and Pipeline.ScrapeHistoricalRobots require one fetch outcome per timestamp the index yields. This aligns the inputs; it is not a demand on callers of the source.
- The server-side `filter=statuscode:200` of the index URL is outside the model.
- Concurrency and pacing are left out: `asyncio.sleep(sleep_interval)` and the concurrent scheduling of `asyncio.gather`. The tasks run one after the other. Only gather's order guarantee is kept.
- CSV and pandas I/O are left out:
  - reading and writing with pandas, and building the DataFrame;
  - the write-only-when-non-empty branch;
  - the module-level script of Code/blocked.py (lines 26-36);
  - `run_scraper` and its fixed domain list and dates.
- `pd.isna` is modelled as the `None` case of `Option<string>`.
- `print` diagnostics are logging only and are left out.
- Timestamps.ConvertToTimestamp requires year 1000-9999 and month 1-12. `datetime` raises outside these ranges, and `strftime` pads years below 1000 differently on different platforms.
- Text.Lower lowers ASCII letters only. Python's `lower()` also maps non-ASCII upper-case letters, which the model leaves unchanged.
- JSON rows are modelled as sequences of strings. A body holding non-string values counts as unreadable and gives []. Python can differ in three cases:
  - column 1 of every data row is a string, but some other field is not;
  - the header row is not an array of strings, though Python never reads it;
  - a data row is a JSON string of two or more characters, whose second character Python takes as `entry[1]`.
- The truthiness test on `current_agent` at Code/blocked.py:20 treats the empty name as no agent. So an empty name is never reported, and `Disallow:` lines after it are ignored.
