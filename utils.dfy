/** The filing-selection and extraction helpers of backend/utils/utils.py:
    getSubmissions, getSortedNPortFilings, getNPortFile and
    getHoldingsfromXML.

    The calls into code outside the repository -- `requests.get`,
    `resp.json()`, BeautifulSoup's XML parser and Python's `float()` -- are
    the fields of an `Env`, so that every lemma holds for whatever they do. */
module Utils {
  import opened Outcomes
  import opened Decimal
  import opened FilingOrder

  /** The identifying header both requests send. */
  const UserAgent := "MyApp/1.0 acaoy2@gmail.com"
  const SubmissionsPrefix := "https://data.sec.gov/submissions/CIK"
  const SubmissionsSuffix := ".json"
  const ArchivePrefix := "https://www.sec.gov/Archives/edgar/data/"
  const DocumentSuffix := "/primary_doc.xml"
  const NPortForm := "NPORT-P"
  const CikWidth := 10
  const NotNumericMessage := "CIK must be numeric"
  const TooLongMessage := "CIK must be at most 10 digits"

  newtype byte = x: int | 0 <= x < 256

  /** The body of an HTTP reply (`resp.content`). */
  type Content = seq<byte>

  /** A GET request: the URL and the User-Agent header. */
  datatype Request = Request(url: string, userAgent: string)

  datatype Reply = Reply(status: int, content: Content)

  /** The three parallel arrays under `filings.recent` of a submissions
      document; `None` where the key is missing. */
  datatype Recent = Recent(
    form: Option<seq<string>>,
    accessionNumber: Option<seq<string>>,
    filingDate: Option<seq<string>>)

  datatype FilingsSection = FilingsSection(recent: Option<Recent>)

  /** A decoded submissions document, as far as the backend reads it. */
  datatype Submissions = Submissions(filings: Option<FilingsSection>)

  /** One `invstOrSec` element: the text of its first `title`, `cusip`,
      `balance`, `valUSD` and `curCd` descendants, `None` where there is no
      such descendant. */
  datatype Security = Security(
    title: Option<string>,
    cusip: Option<string>,
    balance: Option<string>,
    valUSD: Option<string>,
    curCd: Option<string>)

  /** A parsed document: the `invstOrSec` elements, in document order, of its
      first `invstOrSecs` element, or `None` when there is no such element. */
  datatype XmlDoc = XmlDoc(invstOrSecs: Option<seq<Security>>)

  /** One entry of the holdings dict; `F` is the type of Python floats. */
  datatype Holding<F> = Holding(title: string, cusip: string, units: F, value: F, currency: string)

  /** The outside world: `get` is `requests.get` (None: no reply, so a
      connection error), `json` is `resp.json()` (None: the body is not
      JSON), `parseXml` is `BeautifulSoup(content, 'xml')` followed by the
      element lookups, `toFloat` is `float()` (None: ValueError). */
  datatype Env<F> = Env(
    get: Request -> Option<Reply>,
    json: Content -> Option<Submissions>,
    parseXml: Content -> XmlDoc,
    toFloat: string -> Option<F>)

  // ---------------------------------------------------------------------
  // CIK validation and getSubmissions

  /** The two asserts every entry point begins with. */
  predicate ValidCik(cik: string) {
    IsDigitString(cik) && |cik| <= CikWidth
  }

  function CheckCik(cik: string): (r: Outcome<()>)
    ensures r.Ok? <==> ValidCik(cik)
    ensures r.Raised? ==> r.exception.AssertionError?
    ensures !IsDigitString(cik) ==> r == Raised(AssertionError(NotNumericMessage))
  {
    if !IsDigitString(cik) then Raised(AssertionError(NotNumericMessage))
    else if |cik| > CikWidth then Raised(AssertionError(TooLongMessage))
    else Ok(())
  }

  /** The URL of the submissions index for a CIK. */
  function SubmissionsUrl(cik: string): string {
    SubmissionsPrefix + ZFill(cik, CikWidth) + SubmissionsSuffix
  }

  function Fetch<F>(env: Env<F>, url: string): Outcome<Reply> {
    match env.get(Request(url, UserAgent))
    case None => Raised(ConnectionError)
    case Some(reply) => Ok(reply)
  }

  /** `requests.Response.raise_for_status()`. */
  function RaiseForStatus(reply: Reply): (r: Outcome<Reply>)
    ensures r.Ok? <==> !(400 <= reply.status < 600)
    ensures r.Ok? ==> r.value == reply
  {
    if 400 <= reply.status < 600 then Raised(HttpError(reply.status)) else Ok(reply)
  }

  /** getSubmissions(cik). */
  function GetSubmissions<F>(cik: string, env: Env<F>): Outcome<Submissions> {
    var valid :- CheckCik(cik);
    var reply :- Fetch(env, SubmissionsUrl(cik));
    var checked :- RaiseForStatus(reply);
    match env.json(checked.content)
    case None => Raised(JsonDecodeError)
    case Some(doc) => Ok(doc)
  }

  // ---------------------------------------------------------------------
  // getSortedNPortFilings

  /** `d[key]` on the decoded JSON. */
  function Lookup<T>(entry: Option<T>, key: string): Outcome<T> {
    match entry
    case None => Raised(KeyError(key))
    case Some(v) => Ok(v)
  }

  /** The indices below n of the forms equal to "NPORT-P", ascending. */
  function MatchIndices(forms: seq<string>, n: nat): (m: seq<nat>)
    requires n <= |forms|
    ensures forall k :: 0 <= k < |m| ==> m[k] < n && forms[m[k]] == NPortForm
    ensures forall i :: 0 <= i < n && forms[i] == NPortForm ==> i in m
    ensures forall k, l :: 0 <= k < l < |m| ==> m[k] < m[l]
  {
    if n == 0 then []
    else MatchIndices(forms, n - 1) + if forms[n - 1] == NPortForm then [n - 1] else []
  }

  /** The list comprehension over `enumerate(forms[:n])`: `(dates[i],
      accessions[i])` for each i whose form is "NPORT-P", raising IndexError
      when such an i is past the end of `dates` or `accessions`. */
  function SelectPrefix(forms: seq<string>, accessions: seq<string>, dates: seq<string>, n: nat): Outcome<seq<Filing>>
    requires n <= |forms|
  {
    if n == 0 then Ok([])
    else
      var earlier :- SelectPrefix(forms, accessions, dates, n - 1);
      var i := n - 1;
      if forms[i] != NPortForm then Ok(earlier)
      else if i < |dates| && i < |accessions| then Ok(earlier + [Filing(dates[i], accessions[i])])
      else Raised(IndexError)
  }

  function SelectNPort(forms: seq<string>, accessions: seq<string>, dates: seq<string>): Outcome<seq<Filing>> {
    SelectPrefix(forms, accessions, dates, |forms|)
  }

  /** getSortedNPortFilings(cik): a list it returns is newest first. */
  function SortedNPortFilings<F>(cik: string, env: Env<F>): (r: Outcome<seq<Filing>>)
    ensures r.Ok? ==> ValidCik(cik) && SortedDescending(r.value)
  {
    var valid :- CheckCik(cik);
    var submissions :- GetSubmissions(cik, env);
    var section :- Lookup(submissions.filings, "filings");
    var recent :- Lookup(section.recent, "recent");
    var forms :- Lookup(recent.form, "form");
    var accessions :- Lookup(recent.accessionNumber, "accessionNumber");
    var dates :- Lookup(recent.filingDate, "filingDate");
    var selected :- SelectNPort(forms, accessions, dates);
    SortDescendingCorrect(selected);
    Ok(SortDescending(selected))
  }

  // ---------------------------------------------------------------------
  // getNPortFile

  /** `accession.replace("-", "")`. */
  function RemoveDashes(s: string): (r: string)
    ensures '-' !in r
    ensures |r| == |s| - multiset(s)['-']
  {
    if s == [] then []
    else
      assert s == [s[0]] + s[1..];
      (if s[0] == '-' then [] else [s[0]]) + RemoveDashes(s[1..])
  }

  /** The URL of a filing's primary document. */
  function ArchiveUrl(cik: string, accession: string): string
    requires AllDigits(cik)
  {
    ArchivePrefix + NatToDecimal(Value(cik)) + "/" + RemoveDashes(accession) + DocumentSuffix
  }

  /** getNPortFile(cik, accession): the body of the reply, whatever its
      status, since the status is never checked. */
  function NPortFile<F>(cik: string, accession: string, env: Env<F>): Outcome<Content> {
    var valid :- CheckCik(cik);
    var reply :- Fetch(env, ArchiveUrl(cik, accession));
    Ok(reply.content)
  }

  // ---------------------------------------------------------------------
  // getHoldingsfromXML

  /** `tag.text`, where `tag` is the result of a `find`. */
  function Text(tag: Option<string>): Outcome<string> {
    match tag
    case None => Raised(AttributeError)
    case Some(text) => Ok(text)
  }

  function ToFloat<F>(toFloat: string -> Option<F>, text: string): Outcome<F> {
    match toFloat(text)
    case None => Raised(ValueError(text))
    case Some(x) => Ok(x)
  }

  /** The body of the loop for one `invstOrSec` element: the five lookups,
      then the two float conversions. */
  function ExtractSecurity<F>(sec: Security, toFloat: string -> Option<F>): Outcome<Holding<F>> {
    var title :- Text(sec.title);
    var cusip :- Text(sec.cusip);
    var balance :- Text(sec.balance);
    var value :- Text(sec.valUSD);
    var currency :- Text(sec.curCd);
    var units :- ToFloat(toFloat, balance);
    var usd :- ToFloat(toFloat, value);
    Ok(Holding(title, cusip, units, usd, currency))
  }

  /** An element the loop body gets through: all five sub-elements are there
      and both numbers convert. */
  predicate Extractable<F>(sec: Security, toFloat: string -> Option<F>) {
    && sec.title.Some? && sec.cusip.Some? && sec.balance.Some?
    && sec.valUSD.Some? && sec.curCd.Some?
    && toFloat(sec.balance.value).Some? && toFloat(sec.valUSD.value).Some?
  }

  /** The dict after the loop has run over the first n elements, or the
      exception it stopped with. */
  function ExtractPrefix<F>(secs: seq<Security>, toFloat: string -> Option<F>, n: nat): Outcome<map<nat, Holding<F>>>
    requires n <= |secs|
  {
    if n == 0 then Ok(map[])
    else
      var earlier :- ExtractPrefix(secs, toFloat, n - 1);
      var entry :- ExtractSecurity(secs[n - 1], toFloat);
      Ok(earlier[n - 1 := entry])
  }

  /** getHoldingsfromXML(content), stated as a function. */
  function HoldingsFromXml<F>(content: Content, env: Env<F>): Outcome<map<nat, Holding<F>>> {
    match env.parseXml(content).invstOrSecs
    case None => Raised(AttributeError)
    case Some(secs) => ExtractPrefix(secs, env.toFloat, |secs|)
  }

  /** Once the loop has stopped with an exception, the result is that
      exception whatever follows. */
  lemma {:induction false} FailureSticks<F>(secs: seq<Security>, toFloat: string -> Option<F>, i: nat, n: nat)
    requires i <= n <= |secs|
    requires ExtractPrefix(secs, toFloat, i).Raised?
    ensures ExtractPrefix(secs, toFloat, n) == ExtractPrefix(secs, toFloat, i)
  {
    if n > i {
      FailureSticks(secs, toFloat, i, n - 1);
    }
  }

  /** getHoldingsfromXML(content): the `for` loop over `enumerate(...)`
      filling the dict in place. */
  method GetHoldingsFromXml<F>(content: Content, env: Env<F>) returns (r: Outcome<map<nat, Holding<F>>>)
    ensures r == HoldingsFromXml(content, env)
  {
    var soup := env.parseXml(content);
    if soup.invstOrSecs.None? {
      return Raised(AttributeError);
    }
    var securities := soup.invstOrSecs.value;
    var holdings: map<nat, Holding<F>> := map[];
    var i := 0;
    while i < |securities|
      invariant 0 <= i <= |securities|
      invariant ExtractPrefix(securities, env.toFloat, i) == Ok(holdings)
    {
      var entry := ExtractSecurity(securities[i], env.toFloat);
      if entry.Raised? {
        FailureSticks(securities, env.toFloat, i + 1, |securities|);
        return Raised(entry.exception);
      }
      holdings := holdings[i := entry.value];
      i := i + 1;
    }
    return Ok(holdings);
  }
}
