/** The order `sorted(..., key=lambda x: (x[0], x[1]), reverse=True)` puts
    NPORT-P filings in: Python's `<` on strings (code point by code point, a
    proper prefix first) lifted to the pair (filing date, accession number),
    and the unique descending arrangement of a list of such pairs. */
module FilingOrder {

  /** One filing as getSortedNPortFilings returns it: the pair
      (filingDate, accessionNumber). */
  datatype Filing = Filing(date: string, accession: string)

  /** Python's `a < b` on str. */
  predicate StrLess(a: string, b: string)
    decreases |a|
  {
    if |a| == 0 then |b| > 0
    else if |b| == 0 then false
    else if a[0] != b[0] then a[0] < b[0]
    else StrLess(a[1..], b[1..])
  }

  /** Python's `<` on the tuple (date, accession): by date, then by accession. */
  predicate FilingLess(x: Filing, y: Filing) {
    StrLess(x.date, y.date) || (x.date == y.date && StrLess(x.accession, y.accession))
  }

  /** Descending order: no filing is smaller than a filing after it. */
  predicate SortedDescending(s: seq<Filing>) {
    forall i, j :: 0 <= i < j < |s| ==> !FilingLess(s[i], s[j])
  }

  lemma {:induction false} StrLessIrreflexive(a: string)
    ensures !StrLess(a, a)
  {
    if |a| > 0 {
      StrLessIrreflexive(a[1..]);
    }
  }

  lemma {:induction false} StrLessTransitive(a: string, b: string, c: string)
    requires StrLess(a, b) && StrLess(b, c)
    ensures StrLess(a, c)
  {
    if |a| > 0 && a[0] == b[0] && b[0] == c[0] {
      StrLessTransitive(a[1..], b[1..], c[1..]);
    }
  }

  /** Any two different strings are ordered one way or the other. */
  lemma {:induction false} StrLessTotal(a: string, b: string)
    requires a != b
    ensures StrLess(a, b) || StrLess(b, a)
  {
    if |a| > 0 && |b| > 0 && a[0] == b[0] {
      assert a == [a[0]] + a[1..] && b == [b[0]] + b[1..];
      StrLessTotal(a[1..], b[1..]);
    }
  }

  lemma StrLessAsymmetric(a: string, b: string)
    requires StrLess(a, b)
    ensures !StrLess(b, a)
  {
    if StrLess(b, a) {
      StrLessTransitive(a, b, a);
      StrLessIrreflexive(a);
    }
  }

  /** The tuple order is a strict total order. */
  lemma FilingLessStrictTotal(x: Filing, y: Filing, z: Filing)
    ensures !FilingLess(x, x)
    ensures FilingLess(x, y) ==> !FilingLess(y, x)
    ensures FilingLess(x, y) && FilingLess(y, z) ==> FilingLess(x, z)
    ensures x != y ==> FilingLess(x, y) || FilingLess(y, x)
  {
    StrLessIrreflexive(x.date);
    StrLessIrreflexive(x.accession);
    if FilingLess(x, y) && FilingLess(y, x) {
      if StrLess(x.date, y.date) {
        StrLessAsymmetric(x.date, y.date);
      } else {
        StrLessAsymmetric(x.accession, y.accession);
      }
    }
    if FilingLess(x, y) && FilingLess(y, z) {
      if StrLess(x.date, y.date) && StrLess(y.date, z.date) {
        StrLessTransitive(x.date, y.date, z.date);
      } else if x.date == y.date && y.date == z.date {
        StrLessTransitive(x.accession, y.accession, z.accession);
      }
    }
    if x != y {
      if x.date != y.date {
        StrLessTotal(x.date, y.date);
      } else {
        StrLessTotal(x.accession, y.accession);
      }
    }
  }

  /** "Not smaller than" is transitive. */
  lemma NotLessTransitive(x: Filing, y: Filing, z: Filing)
    requires !FilingLess(x, y) && !FilingLess(y, z)
    ensures !FilingLess(x, z)
  {
    FilingLessStrictTotal(x, y, z);
    FilingLessStrictTotal(y, x, z);
  }

  /** Insert x before the first filing that is not greater than it. */
  function Insert(x: Filing, s: seq<Filing>): (r: seq<Filing>)
    ensures |r| == |s| + 1
    ensures multiset(r) == multiset(s) + multiset{x}
  {
    if s == [] || !FilingLess(x, s[0]) then [x] + s
    else
      assert s == [s[0]] + s[1..];
      [s[0]] + Insert(x, s[1..])
  }

  /** Insertion sort into descending order. */
  function SortDescending(s: seq<Filing>): (r: seq<Filing>)
    ensures multiset(r) == multiset(s)
  {
    if s == [] then []
    else
      assert s == [s[0]] + s[1..];
      Insert(s[0], SortDescending(s[1..]))
  }

  lemma SortedTail(s: seq<Filing>)
    requires SortedDescending(s) && |s| > 0
    ensures SortedDescending(s[1..])
  {
    forall i, j | 0 <= i < j < |s[1..]| ensures !FilingLess(s[1..][i], s[1..][j]) {
      assert s[1..][i] == s[i + 1] && s[1..][j] == s[j + 1];
    }
  }

  lemma HeadIsGreatest(s: seq<Filing>, f: Filing)
    requires SortedDescending(s) && f in s
    ensures !FilingLess(s[0], f)
  {
    var k :| 0 <= k < |s| && s[k] == f;
    if k == 0 {
      FilingLessStrictTotal(f, f, f);
    }
  }

  lemma MultisetTail(s: seq<Filing>)
    requires |s| > 0
    ensures multiset(s[1..]) == multiset(s) - multiset{s[0]}
  {
    assert s == [s[0]] + s[1..];
  }

  /** A filing not smaller than any filing of a descending list can go in
      front of it. */
  lemma SortedCons(h: Filing, t: seq<Filing>)
    requires SortedDescending(t)
    requires forall k :: 0 <= k < |t| ==> !FilingLess(h, t[k])
    ensures SortedDescending([h] + t)
  {
    var r := [h] + t;
    forall i, j | 0 <= i < j < |r| ensures !FilingLess(r[i], r[j]) {
      assert r[j] == t[j - 1];
      if i > 0 {
        assert r[i] == t[i - 1];
      }
    }
  }

  lemma {:induction false} InsertKeepsSorted(x: Filing, s: seq<Filing>)
    requires SortedDescending(s)
    ensures SortedDescending(Insert(x, s))
  {
    if s == [] || !FilingLess(x, s[0]) {
      forall k | 0 <= k < |s| ensures !FilingLess(x, s[k]) {
        if k > 0 {
          NotLessTransitive(x, s[0], s[k]);
        }
      }
      SortedCons(x, s);
    } else {
      var t := Insert(x, s[1..]);
      SortedTail(s);
      InsertKeepsSorted(x, s[1..]);
      FilingLessStrictTotal(x, s[0], x);
      forall k | 0 <= k < |t| ensures !FilingLess(s[0], t[k]) {
        assert t[k] in multiset(t);
        if t[k] != x {
          assert t[k] in multiset(s[1..]);
          var m :| 0 <= m < |s[1..]| && s[1..][m] == t[k];
          assert s[m + 1] == t[k];
        }
      }
      SortedCons(s[0], t);
    }
  }

  /** SortDescending returns a descending permutation of its input. */
  lemma {:induction false} SortDescendingCorrect(s: seq<Filing>)
    ensures SortedDescending(SortDescending(s))
    ensures multiset(SortDescending(s)) == multiset(s)
  {
    if s != [] {
      SortDescendingCorrect(s[1..]);
      InsertKeepsSorted(s[0], SortDescending(s[1..]));
    }
  }

  /** Two descending arrangements of the same filings are equal, so the
      descending permutation is unique: any correct sort, Python's `sorted`
      with `reverse=True` among them, returns what SortDescending returns. */
  lemma {:induction false} SortedPermutationUnique(a: seq<Filing>, b: seq<Filing>)
    requires SortedDescending(a) && SortedDescending(b)
    requires multiset(a) == multiset(b)
    ensures a == b
  {
    assert |a| == |multiset(a)| == |multiset(b)| == |b|;
    if a != [] {
      assert a[0] in multiset(b) && b[0] in multiset(a);
      HeadIsGreatest(b, a[0]);
      HeadIsGreatest(a, b[0]);
      FilingLessStrictTotal(a[0], b[0], a[0]);
      MultisetTail(a);
      MultisetTail(b);
      SortedTail(a);
      SortedTail(b);
      SortedPermutationUnique(a[1..], b[1..]);
      assert a == [a[0]] + a[1..] && b == [b[0]] + b[1..];
    }
  }

  /** Sorting a list that is already descending changes nothing. */
  lemma SortDescendingIdentity(s: seq<Filing>)
    requires SortedDescending(s)
    ensures SortDescending(s) == s
  {
    SortDescendingCorrect(s);
    SortedPermutationUnique(SortDescending(s), s);
  }

  /** In a descending list the first filing is the greatest one, dates never
      increase, and filings with the same date come by accession descending. */
  lemma SortedDescendingMeaning(s: seq<Filing>)
    requires SortedDescending(s) && |s| > 0
    ensures forall f :: f in s ==> !FilingLess(s[0], f)
    ensures forall i, j :: 0 <= i < j < |s| ==> !StrLess(s[i].date, s[j].date)
    ensures forall i, j :: 0 <= i < j < |s| && s[i].date == s[j].date ==>
      !StrLess(s[i].accession, s[j].accession)
  {
    forall f | f in s ensures !FilingLess(s[0], f) {
      HeadIsGreatest(s, f);
    }
  }
}
