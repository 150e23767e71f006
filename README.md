# Czech district election scraper — verified model

This project models the extraction and normalisation core of a scraper for Czech
election results (`main.py`). Given a district results page, the scraper lists
the municipalities linked from it. From each municipality's page it reads three
summary counts and the votes per party. It then assembles one table: five fixed
columns (`cislo`, `nazev`, `volici_v_seznamu`, `vydane_obalky`, `platne_hlasy`)
followed by the party columns, which the first municipality fixes.

Modules, one per component:

- `Results`: `Option`, `Result` and the `Error` kinds that replace `ValueError`, `parser.error` and `sys.exit`.
- `PyText`: the Python string behaviour the scraper relies on. This is `strip()`, `isdigit()`, `lower()`, `replace(c, "")`, the `in` substring test and base-10 `int()`, with the surrounding whitespace `int()` skips (`IsIntSpace`, narrower than `str.isspace()`), a sign and single underscores between digits.
- `OrderedMaps`: Python's insertion-ordered `dict`.
- `Document`: a parsed page reduced to its links and its table rows.
- `Arguments`: the checks and the `.csv` suffix rule of `parse_args`.
- `Listing`: `get_municipalities`.
- `Summaries`: `vote_summary` and its inner `value`.
- `Tally`: `total_votes_for_party`.
- `Assembly`: `parse_municipality` and `main`.

Each loop of the source is a method with a `while` loop. Each such method is proved equal to a function written by recursion on the processed prefix. The lemmas state the source's promises about those functions.

Page fetching and `urljoin` are parameters: `fetch: string -> Result<Page>` and `join: (string, string) -> string`. The assembly loop is stated over a `Reader` (municipality to summary and tally). `PageReader(fetch)` instantiates it with fetch, `vote_summary` and `total_votes_for_party`, in the source's order.

Points where the code's behaviour is easy to misread:

- The vote cell drops only NBSP and the ASCII space (main.py:86), not all whitespace.
- A number cell is read with Python's `int()`, which also accepts a sign, surrounding whitespace and underscores (main.py:68). `int()` skips less whitespace than `str.strip()`: the ASCII separators U+001C..U+001F count as whitespace for `strip()` but not for `int()`, so a cell such as ",\x1c5" survives `strip()` and then fails in `int()`.
- A party named like a fixed column (for example `cislo`) overwrites that column in the row dictionary (main.py:113-114). `Assembly.RowColumns` states the fixed values only for columns no party shadows.

## Model

| member | source | states |
|---|---|---|
| `PyText.StripIdempotent` | main.py:19-20 | stripping an argument twice gives the same text as stripping it once |
| `PyText.WithoutCounts` | main.py:67 | `replace(c, "")` removes every `c` and keeps every other character as often as it occurs |
| `PyText.ParseIntOfDigits` | main.py:89 | `int()` of a non-empty ASCII digit string is the number those digits denote |
| `PyText.ParseIntRoundTrip` | main.py:68 | `int(str(n)) == n` for every natural `n` |
| `PyText.ParseIntOfNegatedDigits` | main.py:68 | `int()` accepts a leading minus sign and negates the digits' value |
| `PyText.ParseIntNeedsADigit` | main.py:68 | `int()` fails on text with no digit, the empty text included |
| `PyText.ParseIntKeepsSeparators` | main.py:67-68 | a U+001C separator before digits is removed by `strip()` but makes `int()` fail |
| `OrderedMaps.Put` | main.py:89 | assigning a key keeps the dictionary well formed; a new key goes last, an existing key keeps its place and takes the new value |
| `Arguments.NormalisedArgs` | main.py:19-31 | on success the URL contains "ps32", the file name is non-empty and ends in ".csv" in some letter case; it fails with `InvalidUrl` exactly when the stripped URL lacks "ps32", and with `EmptyOutputName` exactly when the URL passes and the stripped name is empty; a stripped URL containing "ps32" with a non-empty stripped name is accepted, and the stripped URL is returned |
| `Arguments.CsvAppended` | main.py:28-29 | appending ".csv" always yields a name that ends in ".csv" |
| `Arguments.FileNameSuffix` | main.py:28-29 | a stripped name already ending in ".csv"/".CSV" is returned unchanged; any other gets ".csv" appended |
| `Arguments.NormalisationIdempotent` | main.py:19-29 | normalising accepted arguments a second time returns them unchanged |
| `Listing.Municipalities` | main.py:43-57 | the listing has at most as many entries as there are links, and every code is all digits |
| `Listing.GetMunicipalities` | main.py:43-57 | the loop returns exactly the listing of the page's links |
| `Listing.ListingFollowsDocumentOrder` | main.py:46-56 | the k-th triple comes from the k-th qualifying link, in document order; each such link has a digit text, an href containing "ps311" and a following cell, and gives (text, cell text, join(base, href)); every qualifying link contributes one triple |
| `Listing.MunicipalitiesConcat` | main.py:45-56 | listing a concatenation of links concatenates their listings |
| `Listing.SkippedLinkContributesNothing` | main.py:49-53 | a link with a non-digit text, an href without "ps311" or no following cell leaves the listing unchanged |
| `Summaries.FindCell` | main.py:64 | returns the first cell carrying the id among its `headers`, or none exactly when no cell carries it |
| `Summaries.Value` | main.py:63-68 | fails with `ValueMissing` exactly when no cell carries the id; any other failure is `NotAnInteger` |
| `Summaries.ValueReadsFirstCarryingCell` | main.py:64-68 | reads the first cell carrying the id: the integer of its cleaned text, or `NotAnInteger` of that text |
| `Summaries.VoteSummary` | main.py:59-73 | sa2, sa3 and sa6 are read in that order, and the first failing read is the summary's failure |
| `Summaries.SummaryAllOrNothing` | main.py:70-73 | the summary succeeds exactly when sa2, sa3 and sa6 all read, and then holds them in that order |
| `Summaries.SummaryFailsWhenCellMissing` | main.py:64-66 | a missing sa2, sa3 or sa6 cell gives `ValueMissing` for that id and fails the whole summary |
| `Summaries.CleanGrouped` | main.py:67 | removing NBSP and commas from a number written with either as a thousands separator leaves exactly its digits |
| `Summaries.ValueOfGroupedCell` | main.py:63-68 | a cell showing `n` with NBSP or comma thousands separators reads as `n` |
| `Summaries.ValueOfDigitCell` | main.py:63-68 | a cell holding plain digits reads as the number they denote |
| `Summaries.SummaryExample` | main.py:59-73 | cells "1,234", "500" and "480" for sa2, sa3 and sa6 give (1234, 500, 480) |
| `Tally.TallyOf` | main.py:77-89 | the dictionary built from any rows is well formed: distinct keys, exactly those of the mapping |
| `Tally.TotalVotesForParty` | main.py:75-92 | the loop returns the tally of the party rows, or `NoVotes` when it is empty |
| `Tally.TallyEntries` | main.py:78-89 | every party row's party is in the tally; every party in the tally comes from its last party row and holds that row's vote count |
| `Tally.LastRowWins` | main.py:89 | a party's count is the vote count of its last party row, so a later duplicate overwrites an earlier one |
| `Tally.FailsExactlyWithoutPartyRows` | main.py:80-92 | the tally fails, with `NoVotes`, exactly when no row has at least 3 cells, a digit rank and a digit vote text; on success it is non-empty |
| `Tally.TallyKeysInFirstSeenOrder` | main.py:77-89 | the tally lists its parties in the order each first appears among the party rows |
| `Assembly.FixedRow` | main.py:105-111 | the row starts with exactly the five fixed columns, in order |
| `Assembly.FixedRowValues` | main.py:105-111 | the fixed columns hold the code, the name, the registered voters, the envelopes and the valid votes |
| `Assembly.RowKeys` | main.py:113-114 | filling the parties keeps the earlier columns first and adds exactly the header parties |
| `Assembly.RowPartyValues` | main.py:113-114 | each header party holds its tally count, or 0 when the tally lacks it |
| `Assembly.RowOtherValues` | main.py:113-114 | a column that is not a header party keeps its earlier value |
| `Assembly.RowColumns` | main.py:105-114 | a row's columns are the fixed five followed by exactly the header parties; each party holds its count or 0; unshadowed fixed columns keep their values; tally parties outside the header are absent |
| `Assembly.BuildRow` | main.py:105-114 | the row-filling loop returns the municipality's row under the header |
| `Assembly.ParseMunicipality` | main.py:94-116 | fetches, summarises and tallies in that order, stopping at the first failure; the header returned is the given one, or the tally's keys when none was given |
| `Assembly.FailureIsFinal` | main.py:145-148 | once processing fails, no later municipality changes the outcome |
| `Assembly.AssembleRows` | main.py:142-148 | the loop returns the rows and header of processing the municipalities in listing order |
| `Assembly.AssemblySucceedsExactly` | main.py:145-148 | the loop succeeds exactly when every municipality is read without failure |
| `Assembly.AssemblyRowsAndHeader` | main.py:142-148 | on success: one row per municipality in listing order, the header is the first municipality's tally keys, and every row is built under that header |
| `Assembly.RowFitsHeader` | main.py:150-154 | every column of a row is in the written header, so the row writer accepts it |
| `Assembly.DistrictTable` | main.py:136-154 | a successful run has one row per listed municipality, in order; the header is the fixed columns then the first municipality's parties; each row is that municipality's row; no row has a column outside the header |
| `Assembly.EmptyDistrictStops` | main.py:138-140 | a district page listing no municipality ends the run with `NoMunicipalities` |
| `Assembly.OneFailureStopsTheRun` | main.py:145-148 | one municipality that cannot be fetched or parsed fails the whole run |
| `Assembly.RunDistrict` | main.py:134-154 | everything after argument checking computes the district table |
| `Assembly.MunicipalitiesTable` | main.py:142-152 | the loop and the header extension compute the table of a non-empty listing |
| `Assembly.Run` | main.py:130-155 | `main` computes the table of the normalised arguments |
| `Assembly.RunTable` | main.py:130-154 | a successful run had accepted arguments with a ".csv" file name and a URL containing "ps32" |
| `Assembly.HeaderFixationExample` | main.py:102-116 | with header [X, Y], a tally {Y: 5, Z: 7} gives X = 0, Y = 5 and no Z column |
| `Assembly.TwoMunicipalitiesExample` | main.py:138-152 | Alpha {PartyA: 50, PartyB: 38}, then Beta {PartyA: 70, PartyC: 79}: the header is [PartyA, PartyB], and Beta's row has 70 and 0 and no PartyC |

## Left out

- Page fetching (`get_soup`, `requests`, timeout and HTTP status, main.py:33-41): it is the `fetch` parameter, whose failure is any `Err` it returns.
- `urljoin` (main.py:55, 135): it is the `join` parameter.
- BeautifulSoup: a page is a list of links and a list of table rows. Texts are taken as already stripped by `get_text(strip=True)`. A link carries the text of the first `<td>` after it. `<td>` cells outside any `<tr>`, nested tables and `<th>` cells are not modelled.
- `write_csv` (main.py:118-128): file I/O, the UTF-8 byte-order mark and CSV serialisation are not modelled. `Assembly.RowFitsHeader` states the one precondition the row writer puts on the rows.
- `argparse`, the `print` progress messages and the exit codes: a failure of any kind, including an uncaught `ValueError`, is an `Err` value.
- `PyText.ParseInt`: reads ASCII digits only, where Python's `int()` also accepts other Unicode decimal digits.
- `Listing.IsMunicipalityLink`: tests the link text for ASCII digits only, where `code.isdigit()` (main.py:49) also accepts other Unicode digits.
- `Tally.IsPartyRow`: tests for ASCII digits only. Python's `str.isdigit()` also accepts other Unicode digits, including some that `int()` then rejects.
- `Arguments.EndsWithCsv`: lower-cases ASCII letters only, where `str.lower()` covers all of Unicode.
- The second, identical NBSP removal at main.py:67 is one removal in the model; removing a character twice is the same as once.
