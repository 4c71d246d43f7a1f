/** The `/api/cik/<cik>` handler `get_cik` of backend/server.py: pick the
    newest NPORT-P filing, fetch its primary document, extract the holdings,
    and turn every failure into one of two HTML pages. */
module Server {
  import opened Outcomes
  import opened Decimal
  import opened FilingOrder
  import opened Utils
  import opened UtilsProperties

  const InvalidCikPage := "<p>Invalid CIK format. Please enter a numeric CIK.</p>"
  const ErrorPage := "<p>An error occurred while processing your request.</p>"

  /** What the handler returns: the holdings dict (sent through `jsonify`)
      or a bare HTML string. */
  datatype Response<F> = Json(holdings: map<nat, Holding<F>>) | Html(page: string)

  /** The body of the `try` block: it returns the holdings or raises. */
  function HandleCik<F>(cik: string, env: Env<F>): Outcome<map<nat, Holding<F>>> {
    var filings :- SortedNPortFilings(cik, env);
    if |filings| == 0 then Raised(IndexError)   // `nport_filings_sorted[0]` on an empty list
    else
      var latest := filings[0];
      var content :- NPortFile(cik, latest.accession, env);
      HoldingsFromXml(content, env)
  }

  /** get_cik(cik): `except AssertionError` first, then `except Exception`. */
  function GetCik<F>(cik: string, env: Env<F>): (r: Response<F>)
    ensures r.Html? ==> r.page == InvalidCikPage || r.page == ErrorPage
  {
    match HandleCik(cik, env)
    case Ok(holdings) => Json(holdings)
    case Raised(AssertionError(_)) => Html(InvalidCikPage)
    case Raised(_) => Html(ErrorPage)
  }

  /** With a valid CIK nothing in the `try` block raises an AssertionError:
      only the CIK checks do. */
  lemma NoAssertionAfterValidation<F>(cik: string, env: Env<F>)
    requires ValidCik(cik)
    ensures HandleCik(cik, env).Raised? ==> !HandleCik(cik, env).exception.AssertionError?
  {
    var sorted := SortedNPortFilings(cik, env);
    if sorted.Raised? {
      var doc := GetSubmissions(cik, env);
      if doc.Ok? && doc.value.filings.Some? && doc.value.filings.value.recent.Some? {
        var recent := doc.value.filings.value.recent.value;
        if recent.form.Some? && recent.accessionNumber.Some? && recent.filingDate.Some? {
          SelectPrefixExact(recent.form.value, recent.accessionNumber.value, recent.filingDate.value, |recent.form.value|);
        }
      }
    } else if |sorted.value| > 0 {
      var file := NPortFile(cik, sorted.value[0].accession, env);
      if file.Ok? {
        var content := file.value;
        HoldingsFromXmlMeaning(content, env);
        var r := HoldingsFromXml(content, env);
        if r.Raised? && env.parseXml(content).invstOrSecs.Some? {
          var secs := env.parseXml(content).invstOrSecs.value;
          var k :| 0 <= k < |secs| && ExtractSecurity(secs[k], env.toFloat) == Raised(r.exception);
          ExtractSecurityMeaning(secs[k], env.toFloat);
        }
      }
    }
  }

  /** The "Invalid CIK format" page is returned exactly for the CIKs the
      asserts refuse, whatever the outside world does. */
  lemma InvalidCikPageIffInvalidCik<F>(cik: string, env: Env<F>)
    ensures GetCik(cik, env) == Html(InvalidCikPage) <==> !ValidCik(cik)
  {
    if ValidCik(cik) {
      NoAssertionAfterValidation(cik, env);
    } else {
      InvalidCikRejected(cik, "", env);
    }
  }

  /** A non-numeric CIK such as "notanumber" gets the "Invalid CIK format"
      page, and no reply from the outside world matters. */
  lemma NonNumericCikScenario<F>(cik: string, env: Env<F>)
    requires cik == "notanumber"
    ensures GetCik(cik, env) == Html(InvalidCikPage)
  {
    assert !IsDigit(cik[0]);
    InvalidCikPageIffInvalidCik(cik, env);
  }

  /** Every failure but a failed CIK check, from the index fetch, the JSON,
      the selection, the empty list, the document fetch or the extraction,
      ends in the same generic error page. */
  lemma ErrorPageIffOtherFailure<F>(cik: string, env: Env<F>)
    ensures GetCik(cik, env) == Html(ErrorPage) <==> ValidCik(cik) && HandleCik(cik, env).Raised?
  {
    if ValidCik(cik) {
      NoAssertionAfterValidation(cik, env);
    } else {
      InvalidCikRejected(cik, "", env);
    }
  }

  /** An empty list of NPORT-P filings is reported with the generic error
      page, and the document fetch and the extraction play no part: any
      world that answers the submissions request the same way gets the same
      page, whatever it does with every other request and document. */
  lemma NoFilingsGivesErrorPage<F>(cik: string, env: Env<F>, env': Env<F>)
    requires SortedNPortFilings(cik, env) == Ok([])
    requires env'.get(Request(SubmissionsUrl(cik), UserAgent)) == env.get(Request(SubmissionsUrl(cik), UserAgent))
    requires forall c :: env'.json(c) == env.json(c)
    ensures GetCik(cik, env) == Html(ErrorPage)
    ensures GetCik(cik, env') == Html(ErrorPage)
  {
    SortedNPortFilingsReadsOnlyIndex(cik, env, env');
  }

  /** End to end: a valid CIK whose submissions index lists no NPORT-P form
      gets the generic error page. */
  lemma NoNPortFormGivesErrorPage<F>(cik: string, env: Env<F>, forms: seq<string>, accessions: seq<string>, dates: seq<string>)
    requires GetSubmissions(cik, env) == Ok(RecentArrays(forms, accessions, dates))
    requires forall i :: 0 <= i < |forms| ==> forms[i] != NPortForm
    ensures GetCik(cik, env) == Html(ErrorPage)
  {
    NoNPortSelectsNothing(forms, accessions, dates, |forms|);
    assert SortDescending([]) == [];
  }

  /** The holdings are returned exactly when the filing list is non-empty,
      the document of its first filing -- the greatest (date, accession) --
      is fetched with the same CIK and that filing's accession, and the
      fetched content, passed on unchanged, yields them. */
  lemma SuccessMeaning<F>(cik: string, env: Env<F>, holdings: map<nat, Holding<F>>)
    ensures GetCik(cik, env) == Json(holdings) <==>
      && ValidCik(cik)
      && SortedNPortFilings(cik, env).Ok?
      && var filings := SortedNPortFilings(cik, env).value;
      && |filings| > 0
      && NPortFile(cik, filings[0].accession, env).Ok?
      && HoldingsFromXml(NPortFile(cik, filings[0].accession, env).value, env) == Ok(holdings)
    ensures GetCik(cik, env) == Json(holdings) ==>
      var filings := SortedNPortFilings(cik, env).value;
      && (forall f :: f in filings ==> !FilingLess(filings[0], f))
      && env.get(Request(ArchiveUrl(cik, filings[0].accession), UserAgent)).Some?
      && HoldingsFromXml(env.get(Request(ArchiveUrl(cik, filings[0].accession), UserAgent)).value.content, env)
        == Ok(holdings)
  {
    if GetCik(cik, env) == Json(holdings) {
      InvalidCikPageIffInvalidCik(cik, env);
      var filings := SortedNPortFilings(cik, env).value;
      SortedDescendingMeaning(filings);
    }
  }
}
