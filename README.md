# Fund Holdings Analyzer backend: a verified model

This project models the backend of Fund-Holdings-Analyzer in Dafny. The
backend serves one route, `/api/cik/<cik>`. For a fund's SEC Central Index
Key (CIK) it:

1. checks that the CIK is numeric and at most ten digits long;
2. downloads the fund's submissions index from `data.sec.gov`, using the
   CIK zero-padded to ten digits;
3. keeps the filings of form `NPORT-P` and sorts them newest first by
   (filing date, accession number);
4. downloads the primary XML document of the newest filing from
   `www.sec.gov/Archives`, using the CIK as an integer and the accession
   number without dashes;
5. extracts one holding per `invstOrSec` element of that document, keyed by
   position;
6. answers with the holdings, or with one of two HTML error pages.

Modules:

- `Outcomes` (outcomes.dfy): the Python exceptions that can reach the handler, and
  `Outcome<T>` (`Ok` or `Raised`). It is a failure-compatible type, so `:-`
  passes an exception on the way Python does.
- `Decimal` (decimal.dfy): `str.isdigit`, `str.zfill`, `int()` on a digit
  string (`Value`) and `str()` of a natural number (`NatToDecimal`).
- `FilingOrder` (filing_order.dfy): Python's `<` on strings and on
  (date, accession) tuples. It also holds the descending sort and the proof
  that the descending permutation is unique.
- `Utils` (utils.dfy): the four helpers of `backend/utils/utils.py`.
  `getHoldingsfromXML` is a method with the source's loop, proved equal to
  the function `HoldingsFromXml`.
- `UtilsProperties` (utils_properties.dfy): the lemmas about `Utils`.
- `Server` (server.dfy): `get_cik` and its lemmas.

Everything outside the repository is a field of `Utils.Env<F>`:

- `get` stands for `requests.get`. It maps a (URL, User-Agent) request to a
  reply, or to none, which means a connection error.
- `json` stands for `resp.json()`.
- `parseXml` stands for `BeautifulSoup(content, 'xml')` plus the element
  lookups.
- `toFloat` stands for Python's `float()`. `F` is the type of Python floats.

Every lemma holds for every `Env`. These calls only return options, and the
model types the `form`, `accessionNumber` and `filingDate` arrays as lists of
strings. So in the model an `AssertionError` can come only from the CIK
checks. In the source, the `type(accession) == str` assert at
backend/utils/utils.py:41 can also fire, on an accession that is not a
string in the JSON. See the `NPortFile` line under "## Left out".

Facts about the code that a reader might expect otherwise:

- backend/server.py has no document cache.
- An empty filing list makes `nport_filings_sorted[0]` raise IndexError
  (backend/server.py:27), so the handler answers with the generic error
  page.
- The handler returns bare HTML strings or the holdings dict
  (backend/server.py:33-39). It sets no status code and sends no fund name.
  backend/test.py (lines 30-73 and 76-92) expects status codes, a
  `fund_name` field, a 404 answer for an empty filing list and a cache.
- Every security must have a `curCd` element: `holding.find("curCd").text`
  at backend/utils/utils.py:59 raises AttributeError when it is missing.
- `getNPortFile` returns the reply body without checking the HTTP status
  (backend/utils/utils.py:47-48).

## Model

| member | source | states |
|---|---|---|
| `Utils.CheckCik` | backend/utils/utils.py:5-6 | the checks pass exactly for a non-empty all-digit CIK of at most 10 characters; they fail only with an AssertionError, and a non-digit CIK fails with the "must be numeric" message even when it is also too long |
| `UtilsProperties.InvalidCikRejected` | backend/utils/utils.py:5-7 | an invalid CIK makes getSubmissions, getSortedNPortFilings and getNPortFile raise the AssertionError whatever the network would answer, so no request is built |
| `Decimal.ZFill` | backend/utils/utils.py:7 | zfill keeps strings already at the width, pads shorter ones to exactly the width, and keeps a leading sign first |
| `Decimal.ZFillDigits` | backend/utils/utils.py:7 | zfill on a digit string is that string behind zeros, all digits, with the same value, and padding it again changes nothing |
| `UtilsProperties.PaddedCik` | backend/utils/utils.py:7 | a valid CIK padded to 10 has length exactly 10, is all digits, is the CIK behind leading zeros, keeps its numeric value, and is idempotent under padding |
| `UtilsProperties.SubmissionsUrlShape` | backend/utils/utils.py:8 | the submissions URL is the fixed prefix, then the ten padded digits, then ".json" |
| `UtilsProperties.SubmissionsUrlSameIffSameNumber` | backend/utils/utils.py:7-8 | two valid CIKs give the same submissions URL if and only if they denote the same number |
| `Utils.SubmissionsUrl` | backend/utils/utils.py:7-8 | the submissions URL; specified by SubmissionsUrlShape (prefix, the ten padded digits, ".json") and SubmissionsUrlSameIffSameNumber |
| `Utils.RaiseForStatus` | backend/utils/utils.py:13 | a reply passes raise_for_status exactly when its status is not 4xx or 5xx, and it passes unchanged |
| `Utils.GetSubmissions` | backend/utils/utils.py:4-14 | getSubmissions; specified by GetSubmissionsMeaning (when it succeeds and what it returns) and InvalidCikRejected (the AssertionError for an invalid CIK) |
| `UtilsProperties.GetSubmissionsMeaning` | backend/utils/utils.py:4-14 | getSubmissions succeeds exactly when the CIK is valid, the GET of the submissions URL with the identifying header gets a non-4xx/5xx reply and the body decodes; it then returns the decoded body, and a valid CIK never gives an AssertionError |
| `UtilsProperties.MissingKeyRaisesKeyError` | backend/utils/utils.py:20-22 | a submissions document missing `filings`, `recent`, `form`, `accessionNumber` or `filingDate` raises KeyError for the first missing key, in the order the source reads them |
| `Utils.SelectPrefix` | backend/utils/utils.py:24-28 | the comprehension over the first n forms; specified by SelectPrefixExact against the independent MatchIndices, and by NoNPortSelectsNothing |
| `Utils.SelectNPort` | backend/utils/utils.py:24-28 | the comprehension over all forms; specified by SelectPrefixExact with n the number of forms |
| `Utils.MatchIndices` | backend/utils/utils.py:26-27 | the indices below n whose form is "NPORT-P": every listed index matches, every matching index is listed, and they ascend |
| `UtilsProperties.SelectPrefixExact` | backend/utils/utils.py:24-28 | the comprehension succeeds exactly when every NPORT-P index lies inside both other arrays, and IndexError is its only failure; it yields exactly (dates[i], accessions[i]) for the NPORT-P indices i, in index order, and nothing else |
| `UtilsProperties.NoNPortSelectsNothing` | backend/utils/utils.py:24-28 | with no NPORT-P form the selection is the empty list, not an error, whatever the other arrays hold |
| `FilingOrder.StrLess` | backend/utils/utils.py:32 | Python's `<` on str; specified by StrLessIrreflexive, StrLessTransitive and StrLessTotal |
| `FilingOrder.FilingLess` | backend/utils/utils.py:32 | Python's `<` on the (date, accession) key; specified by FilingLessStrictTotal |
| `FilingOrder.StrLessTotal` | backend/utils/utils.py:32 | Python's string order is total: two different strings are ordered one way or the other |
| `FilingOrder.StrLessTransitive` | backend/utils/utils.py:32 | Python's string order is transitive |
| `FilingOrder.StrLessIrreflexive` | backend/utils/utils.py:32 | no string is smaller than itself |
| `FilingOrder.FilingLessStrictTotal` | backend/utils/utils.py:32 | the (date, accession) tuple order is irreflexive, asymmetric, transitive and total |
| `FilingOrder.Insert` | backend/utils/utils.py:30-34 | insertion adds exactly one occurrence of the filing, leaving every other occurrence as it was |
| `FilingOrder.SortDescending` | backend/utils/utils.py:30-34 | sorting is a permutation of its input |
| `FilingOrder.InsertKeepsSorted` | backend/utils/utils.py:30-34 | inserting into a descending list keeps it descending |
| `FilingOrder.SortDescendingCorrect` | backend/utils/utils.py:30-34 | the sort returns a descending permutation of its input |
| `FilingOrder.SortedPermutationUnique` | backend/utils/utils.py:30-34 | two descending lists with the same elements are equal, so any correct `sorted(..., reverse=True)` returns what the model returns |
| `FilingOrder.SortDescendingIdentity` | backend/utils/utils.py:30-34 | sorting an already descending list changes nothing |
| `FilingOrder.SortedDescendingMeaning` | backend/utils/utils.py:30-34 | in a descending list the first filing is the greatest, dates never increase, and filings with equal dates come by accession descending |
| `Utils.SortedNPortFilings` | backend/utils/utils.py:16-36 | its contract: a list it returns is in descending (date, accession) order and the CIK was valid; further specified by SortedNPortFilingsMeaning, MissingKeyRaisesKeyError and SortedNPortFilingsReadsOnlyIndex |
| `UtilsProperties.SortedNPortFilingsMeaning` | backend/utils/utils.py:16-36 | given a document with the three arrays, getSortedNPortFilings succeeds exactly when the selection does, fails only with IndexError, and returns a descending list with the same elements, counted with multiplicity, as the selection |
| `UtilsProperties.SortedNPortFilingsReadsOnlyIndex` | backend/utils/utils.py:16-36 | getSortedNPortFilings depends on the outside world only through the submissions reply and its decoding |
| `UtilsProperties.SingleFilingScenario` | backend/utils/utils.py:16-36 | CIK "320193" with one NPORT-P filing dated 2025-08-01 among other forms yields exactly that filing |
| `Utils.RemoveDashes` | backend/utils/utils.py:45 | the result contains no '-' and is shorter than the accession by its number of dashes |
| `UtilsProperties.RemoveDashesConcat` | backend/utils/utils.py:45 | removing dashes distributes over concatenation |
| `UtilsProperties.RemoveDashesNoDash` | backend/utils/utils.py:45 | a string without dashes is returned unchanged |
| `UtilsProperties.AccessionWithoutDashes` | backend/utils/utils.py:45 | an accession "NNNNNNNNNN-NN-NNNNNN" loses exactly its two dashes and becomes its 18 digits in order |
| `Decimal.NatToDecimal` | backend/utils/utils.py:46 | str() of a natural number is a non-empty digit string with no leading zero, except "0" for zero |
| `Decimal.ValueOfDecimal` | backend/utils/utils.py:46 | int(str(n)) == n |
| `Decimal.DecimalOfValue` | backend/utils/utils.py:46 | str(int(t)) == t for a digit string without a leading zero |
| `Decimal.CanonicalDecimal` | backend/utils/utils.py:46 | str(int(s)) is s without its leading zeros, or "0" for an all-zero s |
| `Decimal.SameWidthSameValue` | backend/utils/utils.py:7 | two digit strings of the same width with the same value are equal |
| `Decimal.Value` | backend/utils/utils.py:46 | `int()` on a digit string; specified by ValueOfDecimal, CanonicalDecimal and SameWidthSameValue |
| `Utils.ArchiveUrl` | backend/utils/utils.py:45-46 | the document URL; specified by ArchiveUrlShape, ArchiveUrlSameNumber and ArchiveUrlExample |
| `UtilsProperties.ArchiveUrlShape` | backend/utils/utils.py:45-46 | the document URL is the archive prefix, the CIK without leading zeros ("0" if all zeros), "/", the dash-stripped accession and "/primary_doc.xml" |
| `UtilsProperties.ArchiveUrlSameNumber` | backend/utils/utils.py:46 | CIKs with the same numeric value give the same document URL |
| `UtilsProperties.ArchiveUrlExample` | backend/utils/utils.py:46 | for CIK "0000320193" the URL lies under ".../edgar/data/320193/" |
| `Utils.NPortFile` | backend/utils/utils.py:38-48 | getNPortFile; specified by NPortFileIgnoresStatus and InvalidCikRejected |
| `UtilsProperties.NPortFileIgnoresStatus` | backend/utils/utils.py:46-48 | getNPortFile returns the body of any reply, error statuses included, and fails only when no reply arrives |
| `Utils.ExtractSecurity` | backend/utils/utils.py:55-66 | the loop body for one element; specified by ExtractSecurityMeaning |
| `Utils.ExtractPrefix` | backend/utils/utils.py:53-66 | the dict after n rounds; specified by ExtractPrefixOkIff, ExtractPrefixShape, ExtractPrefixFirstFailure and FailureSticks |
| `Utils.HoldingsFromXml` | backend/utils/utils.py:50-67 | getHoldingsfromXML as a function; specified by HoldingsFromXmlMeaning, and GetHoldingsFromXml is proved equal to it |
| `Utils.GetHoldingsFromXml` | backend/utils/utils.py:50-67 | the in-place loop over the elements returns exactly HoldingsFromXml: the same dict, or the same exception |
| `Utils.FailureSticks` | backend/utils/utils.py:54-66 | once an element raises, the loop's result is that exception whatever follows |
| `UtilsProperties.ExtractSecurityMeaning` | backend/utils/utils.py:55-66 | one element converts exactly when its five sub-elements are present and both numbers convert; the entry's fields are then that element's own; otherwise it raises AttributeError or ValueError |
| `UtilsProperties.ExtractPrefixOkIff` | backend/utils/utils.py:53-66 | the loop gets through n rounds exactly when each of the first n elements has all five sub-elements and both numbers convert |
| `UtilsProperties.ExtractPrefixShape` | backend/utils/utils.py:53-66 | after n successful rounds, the dict's keys are exactly 0..n-1 and entry k is what element k yields |
| `UtilsProperties.ExtractPrefixFirstFailure` | backend/utils/utils.py:53-66 | a loop that stops ends with the exception of an element all of whose predecessors convert, i.e. the first failing one |
| `UtilsProperties.ExtractPrefixMeaning` | backend/utils/utils.py:53-66 | after n rounds, the dict is keyed exactly 0..n-1, with entry k from element k, if all n elements convert; otherwise the result is the exception of the first element that does not |
| `UtilsProperties.HoldingsFromXmlMeaning` | backend/utils/utils.py:51-67 | a missing `invstOrSecs` container raises AttributeError; otherwise the result has one entry per element, keyed 0..n-1 in document order, each with its own title, cusip, converted balance and valUSD, and curCd; or it fails with the first failing element's exception |
| `UtilsProperties.EmptyContainerGivesNoHoldings` | backend/utils/utils.py:52-67 | a present but empty container gives the empty dict |
| `UtilsProperties.DuplicatesKept` | backend/utils/utils.py:54-66 | equal elements at different positions give equal entries under both keys: no deduplication |
| `UtilsProperties.OneSecurityScenario` | backend/utils/utils.py:50-67 | a document with one Apple Inc security yields the dict with that single entry under key 0 |
| `Server.HandleCik` | backend/server.py:24-33 | the try block; specified by NoAssertionAfterValidation, NoFilingsGivesErrorPage and SuccessMeaning |
| `Server.GetCik` | backend/server.py:23-39 | its contract: the only HTML answers are the "Invalid CIK format" page and the generic error page; further specified by InvalidCikPageIffInvalidCik, ErrorPageIffOtherFailure and SuccessMeaning |
| `Server.NoAssertionAfterValidation` | backend/server.py:24-34 | with a valid CIK nothing in the try block raises an AssertionError |
| `Server.InvalidCikPageIffInvalidCik` | backend/server.py:34-36 | the "Invalid CIK format" page is returned if and only if the CIK fails the checks |
| `Server.NonNumericCikScenario` | backend/server.py:34-36 | the CIK "notanumber" gets the "Invalid CIK format" page whatever the network does |
| `Server.ErrorPageIffOtherFailure` | backend/server.py:37-39 | the generic error page is returned if and only if the CIK is valid and some later step raised |
| `Server.NoFilingsGivesErrorPage` | backend/server.py:26-27 | an empty filing list gives the generic error page, and any outside world that answers the submissions request the same way gets the same page, so the document fetch and extraction play no part |
| `Server.NoNPortFormGivesErrorPage` | backend/server.py:26-39 | a submissions index with no NPORT-P form gives the generic error page |
| `Server.SuccessMeaning` | backend/server.py:26-33 | holdings are returned exactly when the list is non-empty, the first filing's document is fetched with the same CIK and that accession, and its content, unchanged, yields those holdings; the first filing is the greatest (date, accession), and its document URL is the one requested |

## Left out

- HTTP: `requests.get` is an abstract function from (URL, User-Agent) to a
  reply or nothing. Timeouts, redirects and the rest of the headers are not
  modelled.
- JSON decoding: `resp.json()` is abstract. The decoded document is reduced to
  the keys the code reads, with the three arrays as lists of strings. JSON
  values of other types in those places are not modelled.
- XML parsing: BeautifulSoup is abstract (`Env.parseXml`). The model takes
  the `invstOrSec` elements of the first `invstOrSecs` element and the text
  of each element's first `title`, `cusip`, `balance`, `valUSD` and `curCd`.
  How `find`/`find_all` search descendants is not modelled.
- `float()`: abstract (`Env.toFloat`) over an abstract float type. No
  floating point is modelled.
- `CheckCik`: a character counts as a digit only when it is ASCII '0'..'9'.
  Python's `str.isdigit` also accepts other Unicode digits, such as '²'.
- `CheckCik`: assertions are assumed enabled. Under `python -O` the asserts
  vanish, and the model does not cover that.
- `NPortFile`: the `assert type(accession) == str` at
  backend/utils/utils.py:41 always passes here, because accessions are
  strings in the model. In the source, a newest NPORT-P entry whose
  `accessionNumber` is `null` (or another non-string) makes this assert fail.
  Dates that differ mean `sorted` never compares such an accession. For a
  valid CIK, `get_cik` then answers with the "Invalid CIK format" page
  (backend/server.py:34-36). So `Server.InvalidCikPageIffInvalidCik` and
  `Server.NoAssertionAfterValidation` hold only for JSON whose arrays hold
  strings.
- Sorting: Python's `sorted` algorithm is not modelled. The model uses an
  insertion sort, and `SortedPermutationUnique` shows that any correct
  descending sort returns the same list.
- Logging (backend/server.py:7-12, 25, 28, 30, 32, 35, 38), Flask routing,
  the root route and `jsonify` are left out. `jsonify` turns the integer
  keys into JSON strings.
- The disk cache and `delete_cache` are imported by the tests but do not
  exist in backend/server.py. The cache is not part of this model.
- backend/test.py expects status codes, a `fund_name` field and a cache.
  It was written for a different revision of the server, so it is not
  modelled.
- frontend/src/App.jsx and frontend/src/components/DoughnutChart.jsx are UI
  rendering. They are not part of this model.
