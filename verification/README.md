# Access checker: a Dafny model of the access-label classifier

The access checker reads a table of e-resource links. The URL is in the last
column of each row. It loads each URL in a browser and labels the row with what
the page shows about access: "access ok", "no access", "not found", "check" and
so on. The operator picks one platform (package) code for the whole run. Each
platform has an ordered chain of content tests over the page HTML. The first
test that matches decides the label, and otherwise the platform's default
applies. The Duke University Press platform (`duphw`) takes two stages. It
reads the e-Duke reader title segment from the landing page, builds the address
of the title's page 25, fetches that page raw, and classifies it. The output
table is the input with one `access` column appended. The table is read with a
header row, and its headers are those of its first data row. That row takes
the header row's columns, padded with nil headers when the line has more
fields. A data line shorter than the header row is padded with nil fields. A
table with no data rows, or whose first data line is blank, reports no headers,
so its output header is `access` alone.

The model is functional:

- `Text` defines case-sensitive substring containment. `Contains` is the
  specification and `Includes` is the executable search proved equal to it.
  Every `include?` test in the source, and every `match` whose pattern has no
  regex metacharacters, is such a test.
- `Platforms` holds the closed set of fourteen platform codes and the exact
  string comparison that selects one.
- `Rules` holds the rule tables: `(marker, access)` pairs in declaration order
  plus a fallback. `FirstHit` finds the first matching rule, `Evaluate` applies
  it, and `Registry` holds the table of each platform.
- `DukeReader` models the landing-page regular expression
  `http://reader\.dukeupress\.edu/([^/]*)/\d+`. `RegexMatchAt` is its
  declarative meaning at one start position. `ExtractSegment` returns the
  capture of the leftmost match, and `ContentUrl` builds the page-25 address.
  `ContentRules` is the second-stage chain.
- `Classifier` holds `Classify` (platform, page, raw fetch → label) and
  `Access` (typed code → `access`, which is nil for an unknown code). `Chain` is
  an independent, branch-by-branch transcription of the if/elsif chain, and
  `AccessAgreesWithChain` proves the table-driven classifier equal to it.
- `Batch` shapes the header and the rows. `RunBatch` is the per-row loop: it
  writes the header, then one row per input row, and stops at the first row on
  which the checker raises.

The two network fetches are parameters of type `string -> string`, collected
in the `Web` datatype. `render` stands for the browser's `goto` + `html`, and
`raw` for the open-uri read of the Duke content page. Apart from failed fetches,
the source raises in two places, and both become a `Crash` value instead of a precondition. `NoUrlField`
is a row with no fields, or whose last field is an unquoted empty cell (the CSV
parser reads it as nil): `pop` yields nil and the browser is sent to nil.
Fields are `Option<string>` for that reason, and a nil access value is
appended as nil.
`NoTitleSegment` is a Duke landing page on which the pattern does not match:
`.captures` is called on nil.

An unknown platform code does not abort the run. No branch assigns `access`, so
the row is written with a nil (empty) access cell. A failed fetch has no sentinel
label either: the fetch is a total function here, and failures are left out.

## Model

| member | source | states |
|---|---|---|
| Text.Includes | access_checker.rb:80 | the left-to-right search returns true exactly when the marker occurs somewhere in the page, as `include?` and a metacharacter-free `match` decide |
| Platforms.ParsePlatform | access_checker.rb:72-205 | a typed code selects the platform whose code it is, compared exactly; a code equal to no platform's code selects nothing |
| Platforms.ParseCodeRoundTrip | access_checker.rb:72-205 | each of the fourteen codes selects its own platform, so no two platforms share a code |
| Rules.FirstHit | access_checker.rb:79-88 | the index found is a rule whose marker occurs and no earlier rule's marker occurs; no index means no marker occurs |
| Rules.EvaluateFirstMatchWins | access_checker.rb:79-88 | the first matching rule decides the outcome whatever later rules would match |
| Rules.EvaluateFallback | access_checker.rb:86-87 | a page matching no rule gets the fallback; any other page gets the label of its first matching rule |
| Rules.EvaluateInOutcomes | access_checker.rb:72-212 | the outcome is always one of the chain's own labels or its fallback |
| DukeReader.MatchCaptureUnique | access_checker.rb:96 | at a fixed start the pattern's capture is unique (the maximal run of non-`/` characters) |
| DukeReader.RunEnd | access_checker.rb:96 | the scan stops at the first `/` or the end, with no `/` before it: the extent `[^/]*` consumes |
| DukeReader.SegmentAt | access_checker.rb:96 | the capture returned at a start is a match of the pattern there, and any match there has exactly this capture |
| DukeReader.NoMatchWithoutSlashDigit | access_checker.rb:96 | if the maximal non-`/` run is not followed by `/` and a digit, the pattern does not match at that start |
| DukeReader.FindFrom | access_checker.rb:96 | the start found is the first at or after the given one where the pattern matches; none found means no match at any later start |
| DukeReader.ExtractSegment | access_checker.rb:96 | the segment returned is the capture of the leftmost match and contains no `/`; no segment means the pattern matches nowhere |
| DukeReader.ContentUrlRoundTrip | access_checker.rb:96-97 | the page-25 address built from a `/`-free segment is itself matched by the pattern with that segment as capture, so distinct segments give distinct addresses |
| Classifier.ContentAccess | access_checker.rb:107-113 | the log-in marker gives "no access" before the page-navigation marker gives "full text access"; neither gives "check access manually" |
| Classifier.PlatformAgreesWithChain | access_checker.rb:72-212 | for every platform code, the table-driven label equals the branch-by-branch if/elsif transcription on every page and content fetch |
| Classifier.AccessAgreesWithChain | access_checker.rb:72-213 | for every code, including unknown ones (access stays nil), the table-driven result equals the transcribed chain |
| Classifier.ClassifyInVocabulary | access_checker.rb:72-212 | every label a platform assigns lies in that platform's finite label set |
| Classifier.SinglePageDecides | access_checker.rb:72-212 | every platform but duphw decides on the landing page alone, never fails, and its label does not depend on any content fetch |
| Classifier.NoMarkerGetsDefault | access_checker.rb:72-212 | a page with none of the platform's markers gets the platform's default: "check", "check manually" (ss), "possible ghost record - check" (end) or "no related volumes section" (nccorv) |
| Classifier.FirstMarkerWins | access_checker.rb:72-212 | on any platform, the first of its markers that occurs decides the label |
| Classifier.AspPageNotFoundWins | access_checker.rb:79-88 | on asp a page containing "Page Not Found" is "not found" even if it also contains "error" or "Browse" |
| Classifier.SprDenialWins | access_checker.rb:167-178 | on spr a page containing `viewType="Denial"` is "restricted" regardless of the later markers |
| Classifier.UnknownCodeLeavesAccessNil | access_checker.rb:72-213 | a code equal to no platform's code leaves `access` nil (no label), without failing |
| Classifier.SsNoJournalMeansNoAccess | access_checker.rb:189-191 | on ss a page containing "SS_NoJournalFoundMsg" is "no access" |
| Classifier.WolFullTextNoticeMeansFull | access_checker.rb:205-207 | on wol a page containing "You have full text access to this content" is "full", even if it also contains "DOI Not Found" |
| Classifier.DukeLanding | access_checker.rb:90-97 | on duphw "DOI Not Found" decides "not found - DOI error" with no content address; otherwise a missing capture fails the row, and a found `/`-free segment leads to exactly `http://reader.dukeupress.edu/<segment>/25` |
| Classifier.DukeBadDoiNeedsNoContent | access_checker.rb:91-92 | on duphw a bad DOI decides the label whatever any content page would say |
| Classifier.DukeSecondStage | access_checker.rb:90-113 | on duphw, with no bad DOI and a title segment found, the page-25 content page decides: the log-in marker gives "no access" before the page-navigation marker gives "full text access", and neither gives "check access manually" |
| Batch.TableRow | access_checker.rb:64-65 | a blank line is a row with no fields; any other line keeps its fields in order and is padded with nil fields up to the header row's width |
| Batch.RowHeaders | access_checker.rb:49-54 | a blank line's row has no headers; any other row has the header row's columns in order, padded with nil headers up to the line's width |
| Batch.ShortLineHasNoUrl | access_checker.rb:64-66 | a non-blank line shorter than the header row ends in a padded nil field, so it has no URL and raises |
| Batch.AccessHeader | access_checker.rb:54-55 | the output header is the reported header with exactly one trailing column, "access" |
| Batch.SplitRow | access_checker.rb:65-69 | popping the URL leaves fields that, with the URL put back, rebuild the row; a row that is empty or ends in a nil cell has no URL and raises |
| Batch.ProcessRow | access_checker.rb:64-216 | an output row is the input row with exactly one cell appended, the access value (nil for an unknown code); a row without a URL or a failed classification yields no row |
| Batch.RowWithUrlSucceeds | access_checker.rb:64-216 | under any code other than duphw, known or not, a row with a URL always yields an output row |
| Batch.RunBatch | access_checker.rb:52-224 | the header is written first (just "access" when the table has no data rows or its first data line is blank, the header row when the first line is no wider than it), then one output row per data line, in input order, each from that line's padded table row; the run stops exactly at the first row that raises, and every row before it was written |

## Left out

- The interactive platform prompt and the progress lines on the console (access_checker.rb:23-44, 220) are user interface. The platform code is a parameter.
- CSV reading and append-mode writing (access_checker.rb:49, 57-59, 215-217), and the `to_csv.parse_csv` round trip of each row (line 65), are file I/O and library behaviour. A row is a sequence of `Option<string>` cells, nil standing for an unquoted empty field; the textual CSV encoding is not modelled.
- The Celerity browser session with `goto`/`html` (lines 61, 69-70) and the open-uri fetch (lines 102-105) are network I/O. They are the `render` and `raw` functions of `Web`, which are total and deterministic.
- Fetch failures, timeouts and malformed responses are left out: the source has no handling for them.
- Batch.RunBatch: the reported headers and the padding of rows follow the Ruby 1.9 CSV library's table and row behaviour (headers from the first data row, a blank line as a row with no fields, nil padding on either side); the library's source is not part of this model.
- Batch.RunBatch: an exception ends the whole process. The model records which row raised and why, and returns what had been written. It does not model exceptions other than the two `Crash` cases.
- The one-second `sleep` between rows (lines 222-223) is timing only.
- Regular-expression semantics beyond the single pattern at line 96: the other `match` patterns have no metacharacters, so they are plain substring tests. `\d` is taken to be an ASCII digit.
