/** What backend/utils/utils.py promises, stated and proved about the model
    in module Utils. */
module UtilsProperties {
  import opened Outcomes
  import opened Decimal
  import opened FilingOrder
  import opened Utils

  // ---------------------------------------------------------------------
  // CIK validation, padding and the submissions URL

  /** A CIK with a non-digit character, an empty one, or one longer than ten
      characters is refused by an AssertionError before any request is
      built: getSubmissions, getSortedNPortFilings and getNPortFile all raise
      it whatever the outside world would have answered. */
  lemma InvalidCikRejected<F>(cik: string, accession: string, env: Env<F>)
    requires !ValidCik(cik)
    ensures var e := AssertionError(if IsDigitString(cik) then TooLongMessage else NotNumericMessage);
      && GetSubmissions(cik, env) == Raised(e)
      && SortedNPortFilings(cik, env) == Raised(e)
      && NPortFile(cik, accession, env) == Raised(e)
  {
  }

  /** `cik.zfill(10)` on a valid CIK: exactly ten digits, the CIK behind
      leading zeros, the same number, and padding again changes nothing. */
  lemma PaddedCik(cik: string)
    requires ValidCik(cik)
    ensures var padded := ZFill(cik, CikWidth);
      && |padded| == CikWidth
      && IsDigitString(padded)
      && padded == Zeros(CikWidth - |cik|) + cik
      && Value(padded) == Value(cik)
      && ZFill(padded, CikWidth) == padded
  {
    ZFillDigits(cik, CikWidth);
  }

  /** The submissions URL is the fixed prefix, the ten-digit padded CIK and
      ".json". */
  lemma SubmissionsUrlShape(cik: string)
    requires ValidCik(cik)
    ensures var url := SubmissionsUrl(cik);
      && |url| == |SubmissionsPrefix| + CikWidth + |SubmissionsSuffix|
      && url[..|SubmissionsPrefix|] == SubmissionsPrefix
      && url[|SubmissionsPrefix|..|SubmissionsPrefix| + CikWidth] == ZFill(cik, CikWidth)
      && url[|SubmissionsPrefix| + CikWidth..] == SubmissionsSuffix
  {
    PaddedCik(cik);
  }

  /** Two valid CIKs name the same submissions index exactly when they
      denote the same number ("320193" and "0000320193" do). */
  lemma SubmissionsUrlSameIffSameNumber(a: string, b: string)
    requires ValidCik(a) && ValidCik(b)
    ensures SubmissionsUrl(a) == SubmissionsUrl(b) <==> Value(a) == Value(b)
  {
    PaddedCik(a);
    PaddedCik(b);
    var pa, pb := ZFill(a, CikWidth), ZFill(b, CikWidth);
    if SubmissionsUrl(a) == SubmissionsUrl(b) {
      SubmissionsUrlShape(a);
      SubmissionsUrlShape(b);
      assert pa == pb;
    }
    if Value(a) == Value(b) {
      SameWidthSameValue(pa, pb);
    }
  }

  /** getSubmissions returns the decoded body exactly when the CIK is valid,
      the GET of the submissions URL with the identifying header got a reply
      whose status is not 4xx or 5xx, and that body is JSON. */
  lemma GetSubmissionsMeaning<F>(cik: string, env: Env<F>)
    ensures GetSubmissions(cik, env).Ok? <==>
      && ValidCik(cik)
      && env.get(Request(SubmissionsUrl(cik), UserAgent)).Some?
      && var reply := env.get(Request(SubmissionsUrl(cik), UserAgent)).value;
      && !(400 <= reply.status < 600)
      && env.json(reply.content).Some?
    ensures GetSubmissions(cik, env).Ok? ==>
      GetSubmissions(cik, env).value == env.json(env.get(Request(SubmissionsUrl(cik), UserAgent)).value.content).value
    ensures GetSubmissions(cik, env).Raised? ==> !ValidCik(cik) || !GetSubmissions(cik, env).exception.AssertionError?
  {
  }

  // ---------------------------------------------------------------------
  // NPORT-P selection and ordering

  /** The comprehension succeeds exactly when every "NPORT-P" index is inside
      both other arrays; it then yields, in index order, the pair (date,
      accession) of each "NPORT-P" index and nothing else. */
  lemma {:induction false} SelectPrefixExact(forms: seq<string>, accessions: seq<string>, dates: seq<string>, n: nat)
    requires n <= |forms|
    ensures SelectPrefix(forms, accessions, dates, n).Ok? <==>
      forall i :: 0 <= i < n && forms[i] == NPortForm ==> i < |dates| && i < |accessions|
    ensures SelectPrefix(forms, accessions, dates, n).Raised? ==>
      SelectPrefix(forms, accessions, dates, n) == Raised(IndexError)
    ensures SelectPrefix(forms, accessions, dates, n).Ok? ==>
      var selected := SelectPrefix(forms, accessions, dates, n).value;
      var m := MatchIndices(forms, n);
      && |selected| == |m|
      && forall k :: 0 <= k < |m| ==>
        m[k] < |dates| && m[k] < |accessions| && selected[k] == Filing(dates[m[k]], accessions[m[k]])
  {
    if n > 0 {
      SelectPrefixExact(forms, accessions, dates, n - 1);
      var m := MatchIndices(forms, n);
      var m' := MatchIndices(forms, n - 1);
      if forms[n - 1] == NPortForm {
        assert m == m' + [n - 1];
      } else {
        assert m == m';
      }
    }
  }

  /** With no "NPORT-P" form there is nothing to select: the list is empty,
      which is not an error, whatever the other two arrays hold. */
  lemma {:induction false} NoNPortSelectsNothing(forms: seq<string>, accessions: seq<string>, dates: seq<string>, n: nat)
    requires n <= |forms|
    requires forall i :: 0 <= i < n ==> forms[i] != NPortForm
    ensures SelectPrefix(forms, accessions, dates, n) == Ok([])
  {
    if n > 0 {
      NoNPortSelectsNothing(forms, accessions, dates, n - 1);
    }
  }

  /** The decoded submissions document carrying the three arrays. */
  function RecentArrays(forms: seq<string>, accessions: seq<string>, dates: seq<string>): Submissions {
    Submissions(Some(FilingsSection(Some(Recent(Some(forms), Some(accessions), Some(dates))))))
  }

  /** A submissions document without one of the keys read raises KeyError for
      the first missing one. */
  lemma MissingKeyRaisesKeyError<F>(cik: string, env: Env<F>, doc: Submissions)
    requires GetSubmissions(cik, env) == Ok(doc)
    ensures doc.filings.None? ==> SortedNPortFilings(cik, env) == Raised(KeyError("filings"))
    ensures doc.filings.Some? && doc.filings.value.recent.None? ==>
      SortedNPortFilings(cik, env) == Raised(KeyError("recent"))
    ensures doc.filings.Some? && doc.filings.value.recent.Some? ==>
      var recent := doc.filings.value.recent.value;
      && (recent.form.None? ==> SortedNPortFilings(cik, env) == Raised(KeyError("form")))
      && (recent.form.Some? && recent.accessionNumber.None? ==>
        SortedNPortFilings(cik, env) == Raised(KeyError("accessionNumber")))
      && (recent.form.Some? && recent.accessionNumber.Some? && recent.filingDate.None? ==>
        SortedNPortFilings(cik, env) == Raised(KeyError("filingDate")))
  {
  }

  /** getSortedNPortFilings on a document carrying the three arrays: it fails
      only by IndexError, exactly when an "NPORT-P" index is outside the other
      arrays; otherwise it returns the selected filings, each as often as it
      was selected, in descending (date, accession) order. */
  lemma SortedNPortFilingsMeaning<F>(cik: string, env: Env<F>, forms: seq<string>, accessions: seq<string>, dates: seq<string>)
    requires GetSubmissions(cik, env) == Ok(RecentArrays(forms, accessions, dates))
    ensures SortedNPortFilings(cik, env).Ok? <==>
      forall i :: 0 <= i < |forms| && forms[i] == NPortForm ==> i < |dates| && i < |accessions|
    ensures SortedNPortFilings(cik, env).Raised? ==> SortedNPortFilings(cik, env) == Raised(IndexError)
    ensures SortedNPortFilings(cik, env).Ok? ==>
      var sorted := SortedNPortFilings(cik, env).value;
      var selected := SelectNPort(forms, accessions, dates).value;
      && SelectNPort(forms, accessions, dates).Ok?
      && SortedDescending(sorted)
      && multiset(sorted) == multiset(selected)
      && |sorted| == |selected|
  {
    assert ValidCik(cik);
    SelectPrefixExact(forms, accessions, dates, |forms|);
    var s := SelectNPort(forms, accessions, dates);
    if s.Ok? {
      SortDescendingCorrect(s.value);
      assert |multiset(s.value)| == |s.value|;
    }
  }

  /** getSortedNPortFilings depends on the outside world only through the
      reply to the submissions request and the decoding of its body. */
  lemma SortedNPortFilingsReadsOnlyIndex<F>(cik: string, env: Env<F>, env': Env<F>)
    requires env'.get(Request(SubmissionsUrl(cik), UserAgent)) == env.get(Request(SubmissionsUrl(cik), UserAgent))
    requires forall c :: env'.json(c) == env.json(c)
    ensures SortedNPortFilings(cik, env') == SortedNPortFilings(cik, env)
  {
  }

  /** The example of a submissions index with a single NPORT-P filing among
      other forms: the result is exactly that filing. */
  lemma SingleFilingScenario<F>(env: Env<F>, reply: Reply)
    requires env.get(Request(SubmissionsUrl("320193"), UserAgent)) == Some(reply)
    requires reply.status == 200
    requires env.json(reply.content) == Some(RecentArrays(
      ["N-CSR", "NPORT-P"],
      ["0000000000-25-000007", "0000000000-25-000001"],
      ["2025-09-01", "2025-08-01"]))
    ensures SortedNPortFilings("320193", env) == Ok([Filing("2025-08-01", "0000000000-25-000001")])
  {
    assert ValidCik("320193");
    var forms, accessions, dates := ["N-CSR", "NPORT-P"], ["0000000000-25-000007", "0000000000-25-000001"],
      ["2025-09-01", "2025-08-01"];
    assert forms[0] != NPortForm by {
      assert forms[0][1] != NPortForm[1];
    }
    assert SelectPrefix(forms, accessions, dates, 1) == Ok([]);
    assert SelectPrefix(forms, accessions, dates, 2) == Ok([] + [Filing(dates[1], accessions[1])]);
    assert [] + [Filing(dates[1], accessions[1])] == [Filing("2025-08-01", "0000000000-25-000001")];
    assert SelectNPort(forms, accessions, dates) == Ok([Filing("2025-08-01", "0000000000-25-000001")]);
    assert SortDescending([Filing("2025-08-01", "0000000000-25-000001")]) == [Filing("2025-08-01", "0000000000-25-000001")];
  }

  // ---------------------------------------------------------------------
  // Dash stripping and the document URL

  lemma {:induction false} RemoveDashesConcat(a: string, b: string)
    ensures RemoveDashes(a + b) == RemoveDashes(a) + RemoveDashes(b)
  {
    if a == [] {
      assert a + b == b;
    } else {
      assert (a + b)[0] == a[0] && (a + b)[1..] == a[1..] + b;
      RemoveDashesConcat(a[1..], b);
    }
  }

  /** A string without dashes is left as it is. */
  lemma {:induction false} RemoveDashesNoDash(s: string)
    requires '-' !in s
    ensures RemoveDashes(s) == s
  {
    if s != [] {
      RemoveDashesNoDash(s[1..]);
    }
  }

  /** An accession number in its usual form "NNNNNNNNNN-NN-NNNNNN". */
  predicate AccessionForm(s: string) {
    && |s| == 20 && s[10] == '-' && s[13] == '-'
    && AllDigits(s[..10]) && AllDigits(s[11..13]) && AllDigits(s[14..])
  }

  lemma DigitsHaveNoDash(s: string)
    requires AllDigits(s)
    ensures '-' !in s
  {
  }

  /** Removing the dashes around and between two parts. */
  lemma RemoveDashesOfDash()
    ensures RemoveDashes("-") == []
  {
    var dash := "-";
    assert dash[1..] == [];
  }

  lemma {:induction false} RemoveDashesJoin(x: string, y: string)
    ensures RemoveDashes(x + "-" + y) == RemoveDashes(x) + RemoveDashes(y)
  {
    RemoveDashesConcat(x + "-", y);
    RemoveDashesConcat(x, "-");
    RemoveDashesOfDash();
  }

  lemma DashSeparatedDigits(p: string, q: string, r: string)
    requires AllDigits(p) && AllDigits(q) && AllDigits(r)
    ensures RemoveDashes(p + "-" + q + "-" + r) == p + q + r
  {
    RemoveDashesJoin(p + "-" + q, r);
    RemoveDashesJoin(p, q);
    DigitsHaveNoDash(p);
    DigitsHaveNoDash(q);
    DigitsHaveNoDash(r);
    RemoveDashesNoDash(p);
    RemoveDashesNoDash(q);
    RemoveDashesNoDash(r);
  }

  /** Stripping the dashes of such an accession number leaves its eighteen
      digits, in order. */
  lemma AccessionWithoutDashes(s: string)
    requires AccessionForm(s)
    ensures RemoveDashes(s) == s[..10] + s[11..13] + s[14..]
    ensures |RemoveDashes(s)| == 18 && AllDigits(RemoveDashes(s))
  {
    var p, q, r := s[..10], s[11..13], s[14..];
    assert s == p + "-" + q + "-" + r;
    DashSeparatedDigits(p, q, r);
    var t := p + q + r;
    assert forall i :: 0 <= i < |t| ==> t[i] == if i < 10 then p[i] else if i < 12 then q[i - 10] else r[i - 12];
  }

  /** The document URL embeds `int(cik)`: the CIK without its leading zeros
      ("0" for an all-zero CIK), then the dash-stripped accession and
      "/primary_doc.xml". */
  lemma ArchiveUrlShape(cik: string, accession: string)
    requires ValidCik(cik)
    ensures var stripped := StripLeadingZeros(cik);
      var segment := if stripped == [] then "0" else stripped;
      && ArchiveUrl(cik, accession) == ArchivePrefix + segment + "/" + RemoveDashes(accession) + DocumentSuffix
      && (segment[0] != '0' || segment == "0")
  {
    CanonicalDecimal(cik);
  }

  /** CIKs that denote the same number fetch the same document. */
  lemma ArchiveUrlSameNumber(a: string, b: string, accession: string)
    requires ValidCik(a) && ValidCik(b) && Value(a) == Value(b)
    ensures ArchiveUrl(a, accession) == ArchiveUrl(b, accession)
  {
  }

  lemma ExampleCikAsInteger(cik: string)
    requires cik == "0000320193"
    ensures ValidCik(cik) && NatToDecimal(Value(cik)) == "320193"
  {
    assert ValidCik(cik);
    CanonicalDecimal(cik);
    var t := cik[4..];
    assert t == "320193" && t[0] != '0';
    assert StripLeadingZeros(cik[3..]) == t by {
      assert cik[3..][0] == '0' && cik[3..][1..] == t;
    }
    assert StripLeadingZeros(cik[2..]) == t by {
      assert cik[2..][0] == '0' && cik[2..][1..] == cik[3..];
    }
    assert StripLeadingZeros(cik[1..]) == t by {
      assert cik[1..][0] == '0' && cik[1..][1..] == cik[2..];
    }
    assert cik[0] == '0' && cik[1..] == cik[1..];
  }

  /** The document URLs of CIK 0000320193 live under ".../data/320193/". */
  lemma ArchiveUrlExample(cik: string, accession: string)
    requires cik == "0000320193"
    ensures ArchiveUrl(cik, accession)
      == "https://www.sec.gov/Archives/edgar/data/320193/" + RemoveDashes(accession) + "/primary_doc.xml"
  {
    ExampleCikAsInteger(cik);
  }

  /** getNPortFile returns the body of whatever reply arrives, an error page
      with a 404 status included, and fails only when no reply arrives. */
  lemma NPortFileIgnoresStatus<F>(cik: string, accession: string, env: Env<F>)
    requires ValidCik(cik)
    ensures match env.get(Request(ArchiveUrl(cik, accession), UserAgent))
      case Some(reply) => NPortFile(cik, accession, env) == Ok(reply.content)
      case None => NPortFile(cik, accession, env) == Raised(ConnectionError)
  {
  }

  // ---------------------------------------------------------------------
  // Holdings extraction

  /** One element converts exactly when it is Extractable, and then each
      field of the entry is that element's own; otherwise it raises
      AttributeError (a missing sub-element) or ValueError (a bad number). */
  lemma ExtractSecurityMeaning<F>(sec: Security, toFloat: string -> Option<F>)
    ensures ExtractSecurity(sec, toFloat).Ok? <==> Extractable(sec, toFloat)
    ensures ExtractSecurity(sec, toFloat).Ok? ==>
      ExtractSecurity(sec, toFloat).value == Holding(
        sec.title.value, sec.cusip.value,
        toFloat(sec.balance.value).value, toFloat(sec.valUSD.value).value,
        sec.curCd.value)
    ensures ExtractSecurity(sec, toFloat).Raised? ==>
      ExtractSecurity(sec, toFloat).exception.AttributeError? || ExtractSecurity(sec, toFloat).exception.ValueError?
  {
  }

  /** The loop gets through n rounds exactly when each of the first n
      elements converts. */
  lemma {:induction false} ExtractPrefixOkIff<F>(secs: seq<Security>, toFloat: string -> Option<F>, n: nat)
    requires n <= |secs|
    ensures ExtractPrefix(secs, toFloat, n).Ok? <==> forall k :: 0 <= k < n ==> Extractable(secs[k], toFloat)
  {
    if n > 0 {
      ExtractPrefixOkIff(secs, toFloat, n - 1);
      ExtractSecurityMeaning(secs[n - 1], toFloat);
    }
  }

  /** After n successful rounds the dict is keyed 0..n-1, entry k coming
      from element k. */
  lemma {:induction false} ExtractPrefixShape<F>(secs: seq<Security>, toFloat: string -> Option<F>, n: nat)
    requires n <= |secs|
    requires ExtractPrefix(secs, toFloat, n).Ok?
    ensures var m := ExtractPrefix(secs, toFloat, n).value;
      && (forall k: nat :: k in m <==> k < n)
      && forall k :: 0 <= k < n ==> ExtractSecurity(secs[k], toFloat) == Ok(m[k])
  {
    if n > 0 {
      ExtractPrefixShape(secs, toFloat, n - 1);
      var earlier := ExtractPrefix(secs, toFloat, n - 1).value;
      var entry := ExtractSecurity(secs[n - 1], toFloat).value;
      assert ExtractPrefix(secs, toFloat, n).value == earlier[n - 1 := entry];
    }
  }

  /** A loop that stopped did so at the first element that does not
      convert, with that element's exception. */
  lemma {:induction false} ExtractPrefixFirstFailure<F>(secs: seq<Security>, toFloat: string -> Option<F>, n: nat)
    requires n <= |secs|
    requires ExtractPrefix(secs, toFloat, n).Raised?
    ensures exists k :: (
      && 0 <= k < n
      && (forall j :: 0 <= j < k ==> Extractable(secs[j], toFloat))
      && ExtractSecurity(secs[k], toFloat) == Raised(ExtractPrefix(secs, toFloat, n).exception))
  {
    if ExtractPrefix(secs, toFloat, n - 1).Raised? {
      ExtractPrefixFirstFailure(secs, toFloat, n - 1);
    } else {
      ExtractPrefixOkIff(secs, toFloat, n - 1);
      var k := n - 1;
      assert ExtractSecurity(secs[k], toFloat) == Raised(ExtractPrefix(secs, toFloat, n).exception);
    }
  }

  /** After n rounds the dict is keyed 0..n-1, entry k coming from element k,
      if all n elements convert; otherwise the loop stopped at the first
      element that does not, with that element's exception. */
  lemma ExtractPrefixMeaning<F>(secs: seq<Security>, toFloat: string -> Option<F>, n: nat)
    requires n <= |secs|
    ensures ExtractPrefix(secs, toFloat, n).Ok? <==> forall k :: 0 <= k < n ==> Extractable(secs[k], toFloat)
    ensures ExtractPrefix(secs, toFloat, n).Ok? ==>
      var m := ExtractPrefix(secs, toFloat, n).value;
      && (forall k: nat :: k in m <==> k < n)
      && forall k :: 0 <= k < n ==> ExtractSecurity(secs[k], toFloat) == Ok(m[k])
    ensures ExtractPrefix(secs, toFloat, n).Raised? ==>
      exists k :: 0 <= k < n
        && (forall j :: 0 <= j < k ==> Extractable(secs[j], toFloat))
        && ExtractSecurity(secs[k], toFloat) == Raised(ExtractPrefix(secs, toFloat, n).exception)
  {
    ExtractPrefixOkIff(secs, toFloat, n);
    if ExtractPrefix(secs, toFloat, n).Ok? {
      ExtractPrefixShape(secs, toFloat, n);
    } else {
      ExtractPrefixFirstFailure(secs, toFloat, n);
    }
  }

  /** getHoldingsfromXML: a document without an `invstOrSecs` element is an
      error, not an empty result; with one, the dict has one entry per
      `invstOrSec` element, keyed 0..n-1 in document order, whose fields are
      that element's title, cusip, converted balance and valUSD, and curCd --
      or the call fails with the exception of the first element that does
      not convert. */
  lemma HoldingsFromXmlMeaning<F>(content: Content, env: Env<F>)
    ensures env.parseXml(content).invstOrSecs.None? ==> HoldingsFromXml(content, env) == Raised(AttributeError)
    ensures env.parseXml(content).invstOrSecs.Some? ==>
      var secs := env.parseXml(content).invstOrSecs.value;
      var r := HoldingsFromXml(content, env);
      && (r.Ok? <==> forall k :: 0 <= k < |secs| ==> Extractable(secs[k], env.toFloat))
      && (r.Ok? ==>
        && (forall k: nat :: k in r.value <==> k < |secs|)
        && forall k :: 0 <= k < |secs| ==>
          && Extractable(secs[k], env.toFloat)
          && r.value[k] == Holding(
            secs[k].title.value, secs[k].cusip.value,
            env.toFloat(secs[k].balance.value).value, env.toFloat(secs[k].valUSD.value).value,
            secs[k].curCd.value))
      && (r.Raised? ==>
        exists k :: 0 <= k < |secs|
          && (forall j :: 0 <= j < k ==> Extractable(secs[j], env.toFloat))
          && ExtractSecurity(secs[k], env.toFloat) == Raised(r.exception))
  {
    if env.parseXml(content).invstOrSecs.Some? {
      var secs := env.parseXml(content).invstOrSecs.value;
      ExtractPrefixMeaning(secs, env.toFloat, |secs|);
      forall k | 0 <= k < |secs| {
        ExtractSecurityMeaning(secs[k], env.toFloat);
      }
    }
  }

  /** A container that is present but empty gives the empty dict. */
  lemma EmptyContainerGivesNoHoldings<F>(content: Content, env: Env<F>)
    requires env.parseXml(content).invstOrSecs == Some([])
    ensures HoldingsFromXml(content, env) == Ok(map[])
  {
  }

  /** No deduplication: two equal elements at different positions give two
      equal entries under their own keys. */
  lemma DuplicatesKept<F>(content: Content, env: Env<F>, i: nat, j: nat)
    requires env.parseXml(content).invstOrSecs.Some?
    requires HoldingsFromXml(content, env).Ok?
    requires var secs := env.parseXml(content).invstOrSecs.value;
      i < j < |secs| && secs[i] == secs[j]
    ensures var m := HoldingsFromXml(content, env).value;
      i in m && j in m && m[i] == m[j]
  {
    var secs := env.parseXml(content).invstOrSecs.value;
    ExtractPrefixMeaning(secs, env.toFloat, |secs|);
  }

  /** The example of a document with one security. */
  lemma OneSecurityScenario<F>(content: Content, env: Env<F>, units: F, value: F)
    requires env.parseXml(content) == XmlDoc(Some([
      Security(Some("Apple Inc"), Some("037833100"), Some("1000.5"), Some("50000.25"), Some("USD"))]))
    requires env.toFloat("1000.5") == Some(units) && env.toFloat("50000.25") == Some(value)
    ensures HoldingsFromXml(content, env) == Ok(map[0 := Holding("Apple Inc", "037833100", units, value, "USD")])
  {
    var secs := env.parseXml(content).invstOrSecs.value;
    var h := Holding("Apple Inc", "037833100", units, value, "USD");
    assert ExtractSecurity(secs[0], env.toFloat) == Ok(h);
    assert ExtractPrefix(secs, env.toFloat, 0) == Ok(map[]);
    assert map[][0 := h] == map[0 := h];
  }
}
