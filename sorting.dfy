/** The second half of the visible sequence: a copy of the filtered records
    sorted by the comparator that the sort drop-down selects. The array sort
    it calls is stable, and so is the insertion sort that models it here. */
module Sorting {
  import opened Text
  import opened Records
  import opened Seqs
  import Filtering

  /** The cases of the comparator's `switch`; `Other` is its default. */
  datatype SortKey = DateAsc | DateDesc | CompanyAsc | CompanyDesc | SalaryAsc | SalaryDesc | Other

  /** The `case` label of each comparator. */
  function Label(k: SortKey): string
    requires k != Other
  {
    match k
    case DateAsc => "date-asc"
    case DateDesc => "date-desc"
    case CompanyAsc => "company-asc"
    case CompanyDesc => "company-desc"
    case SalaryAsc => "salary-asc"
    case SalaryDesc => "salary-desc"
  }

  /** The `switch` on the sort drop-down's value: the case whose label it
      is, or the default when it is none of them. */
  function KeyOf(sortBy: string): (k: SortKey)
    ensures k != Other ==> Label(k) == sortBy
    ensures k == Other ==> forall j: SortKey | j != Other :: Label(j) != sortBy
  {
    if sortBy == "date-asc" then DateAsc
    else if sortBy == "date-desc" then DateDesc
    else if sortBy == "company-asc" then CompanyAsc
    else if sortBy == "company-desc" then CompanyDesc
    else if sortBy == "salary-asc" then SalaryAsc
    else if sortBy == "salary-desc" then SalaryDesc
    else Other
  }

  /** Every case label selects its own case. */
  lemma KeyOfLabel(k: SortKey)
    requires k != Other
    ensures KeyOf(Label(k)) == k
  {
  }

  /** The comparator handed to `sort`: negative when `a` belongs before `b`,
      positive when after, 0 when the two tie. Dates compare as text, which
      is calendar order for `YYYY-MM-DD`. */
  function Cmp(key: SortKey, a: Application, b: Application): int {
    match key
    case DateAsc => Compare(a.date, b.date)
    case DateDesc => Compare(b.date, a.date)
    case CompanyAsc => Compare(a.company, b.company)
    case CompanyDesc => Compare(b.company, a.company)
    case SalaryAsc => SalaryValue(a.salary) - SalaryValue(b.salary)
    case SalaryDesc => SalaryValue(b.salary) - SalaryValue(a.salary)
    case Other => 0
  }

  /** Each descending comparator is the negation of its ascending one. */
  lemma DescNegatesAsc(a: Application, b: Application)
    ensures Cmp(DateDesc, a, b) == -Cmp(DateAsc, a, b)
    ensures Cmp(CompanyDesc, a, b) == -Cmp(CompanyAsc, a, b)
    ensures Cmp(SalaryDesc, a, b) == -Cmp(SalaryAsc, a, b)
  {
    CompareAntisymmetric(a.date, b.date);
    CompareAntisymmetric(a.company, b.company);
  }

  /** Every comparator is antisymmetric: swapping the records negates it. */
  lemma CmpAntisymmetric(sortBy: SortKey, a: Application, b: Application)
    ensures Cmp(sortBy, a, b) == -Cmp(sortBy, b, a)
  {
    CompareAntisymmetric(a.date, b.date);
    CompareAntisymmetric(a.company, b.company);
  }

  /** Every comparator is transitive, so it is a total preorder. */
  lemma CmpTransitive(sortBy: SortKey, a: Application, b: Application, c: Application)
    requires Cmp(sortBy, a, b) <= 0 && Cmp(sortBy, b, c) <= 0
    ensures Cmp(sortBy, a, c) <= 0
  {
    match sortBy
    case DateAsc => CompareTransitive(a.date, b.date, c.date);
    case DateDesc => CompareTransitive(c.date, b.date, a.date);
    case CompanyAsc => CompareTransitive(a.company, b.company, c.company);
    case CompanyDesc => CompareTransitive(c.company, b.company, a.company);
    case _ =>
  }

  /** Ties are an equivalence: two records tied with a third tie with each other. */
  lemma TiesShareClass(sortBy: SortKey, y: Application, a: Application, b: Application)
    requires Cmp(sortBy, y, a) == 0 && Cmp(sortBy, y, b) == 0
    ensures Cmp(sortBy, a, b) == 0
  {
    CmpAntisymmetric(sortBy, y, a);
    CmpAntisymmetric(sortBy, a, b);
    CmpTransitive(sortBy, a, y, b);
    CmpTransitive(sortBy, b, y, a);
  }

  /** Every earlier record is at most every later one. */
  predicate Sorted(sortBy: SortKey, s: seq<Application>) {
    forall i, j | 0 <= i < j < |s| :: Cmp(sortBy, s[i], s[j]) <= 0
  }

  /** Place `x` before the first record it does not strictly follow. */
  function Insert(sortBy: SortKey, x: Application, t: seq<Application>): (r: seq<Application>)
    ensures |r| == |t| + 1
  {
    if t == [] then [x]
    else if Cmp(sortBy, x, t[0]) > 0 then [t[0]] + Insert(sortBy, x, t[1..])
    else [x] + t
  }

  /** Inserting adds exactly `x` to the records of `t`. */
  lemma {:induction false} InsertPermutes(sortBy: SortKey, x: Application, t: seq<Application>)
    ensures multiset(Insert(sortBy, x, t)) == multiset([x] + t)
  {
    if t != [] && Cmp(sortBy, x, t[0]) > 0 {
      InsertPermutes(sortBy, x, t[1..]);
      assert t == [t[0]] + t[1..];
    }
  }

  /** `[...s].sort(cmp)` as a stable insertion sort on a copy. */
  function Sort(sortBy: SortKey, s: seq<Application>): (r: seq<Application>)
    ensures |r| == |s|
  {
    if s == [] then [] else Insert(sortBy, s[0], Sort(sortBy, s[1..]))
  }

  /** The sorted copy holds the same records, each as often, as the input. */
  lemma {:induction false} SortPermutes(sortBy: SortKey, s: seq<Application>)
    ensures multiset(Sort(sortBy, s)) == multiset(s)
  {
    if s != [] {
      SortPermutes(sortBy, s[1..]);
      InsertPermutes(sortBy, s[0], Sort(sortBy, s[1..]));
      assert s == [s[0]] + s[1..];
    }
  }

  lemma {:induction false} InsertSorted(sortBy: SortKey, x: Application, t: seq<Application>)
    requires Sorted(sortBy, t)
    ensures Sorted(sortBy, Insert(sortBy, x, t))
  {
    if t != [] {
      if Cmp(sortBy, x, t[0]) > 0 {
        InsertSorted(sortBy, x, t[1..]);
        InsertAfterHead(sortBy, x, t);
      } else {
        InsertAtFront(sortBy, x, t);
      }
    }
  }

  /** A sorted list stays sorted under a new head that precedes all of it. */
  lemma SortedCons(sortBy: SortKey, h: Application, t: seq<Application>)
    requires Sorted(sortBy, t)
    requires forall z | z in t :: Cmp(sortBy, h, z) <= 0
    ensures Sorted(sortBy, [h] + t)
  {
    var r := [h] + t;
    forall i, j | 0 <= i < j < |r| ensures Cmp(sortBy, r[i], r[j]) <= 0 {
      assert r[j] == t[j - 1];
      if i > 0 {
        assert r[i] == t[i - 1];
      }
    }
  }

  /** `x` goes in front of a sorted list whose head it does not follow. */
  lemma InsertAtFront(sortBy: SortKey, x: Application, t: seq<Application>)
    requires Sorted(sortBy, t) && t != [] && Cmp(sortBy, x, t[0]) <= 0
    ensures Sorted(sortBy, [x] + t)
  {
    forall z | z in t ensures Cmp(sortBy, x, z) <= 0 {
      var j :| 0 <= j < |t| && t[j] == z;
      if j > 0 {
        CmpTransitive(sortBy, x, t[0], t[j]);
      }
    }
    SortedCons(sortBy, x, t);
  }

  /** The head stays in front when `x` strictly follows it. */
  lemma InsertAfterHead(sortBy: SortKey, x: Application, t: seq<Application>)
    requires Sorted(sortBy, t) && t != [] && Cmp(sortBy, x, t[0]) > 0
    requires Sorted(sortBy, Insert(sortBy, x, t[1..]))
    ensures Sorted(sortBy, Insert(sortBy, x, t))
  {
    HeadPrecedesInserted(sortBy, x, t);
    SortedCons(sortBy, t[0], Insert(sortBy, x, t[1..]));
  }

  lemma HeadPrecedesInserted(sortBy: SortKey, x: Application, t: seq<Application>)
    requires Sorted(sortBy, t) && t != [] && Cmp(sortBy, x, t[0]) > 0
    ensures forall z | z in Insert(sortBy, x, t[1..]) :: Cmp(sortBy, t[0], z) <= 0
  {
    CmpAntisymmetric(sortBy, x, t[0]);
    InsertPermutes(sortBy, x, t[1..]);
    forall z | z in Insert(sortBy, x, t[1..]) ensures Cmp(sortBy, t[0], z) <= 0 {
      assert z in multiset([x] + t[1..]);
      if z != x {
        assert z in t[1..];
        var k :| 0 <= k < |t[1..]| && t[1..][k] == z;
        assert t[k + 1] == z;
      }
    }
  }

  /** The sorted copy is ordered by the comparator. */
  lemma {:induction false} SortSorted(sortBy: SortKey, s: seq<Application>)
    ensures Sorted(sortBy, Sort(sortBy, s))
  {
    if s != [] {
      SortSorted(sortBy, s[1..]);
      InsertSorted(sortBy, s[0], Sort(sortBy, s[1..]));
    }
  }

  /** The records of `s` that tie with `y`, in their order in `s`. */
  function Ties(sortBy: SortKey, y: Application, s: seq<Application>): seq<Application> {
    if s == [] then []
    else (if Cmp(sortBy, y, s[0]) == 0 then [s[0]] else []) + Ties(sortBy, y, s[1..])
  }

  lemma TiesCons(sortBy: SortKey, y: Application, a: Application, s: seq<Application>)
    ensures Ties(sortBy, y, [a] + s)
         == (if Cmp(sortBy, y, a) == 0 then [a] else []) + Ties(sortBy, y, s)
  {
    assert ([a] + s)[0] == a && ([a] + s)[1..] == s;
  }

  /** Inserting moves `x` only past records it strictly follows, never past
      one it ties with, so every tie class keeps its order. */
  lemma {:induction false} InsertKeepsTies(sortBy: SortKey, y: Application, x: Application, t: seq<Application>)
    ensures Ties(sortBy, y, Insert(sortBy, x, t)) == Ties(sortBy, y, [x] + t)
  {
    if t != [] && Cmp(sortBy, x, t[0]) > 0 {
      var h, rest := t[0], t[1..];
      var th := if Cmp(sortBy, y, h) == 0 then [h] else [];
      var tx := if Cmp(sortBy, y, x) == 0 then [x] else [];
      assert t == [h] + rest;
      assert Insert(sortBy, x, t) == [h] + Insert(sortBy, x, rest);
      InsertKeepsTies(sortBy, y, x, rest);
      TiesCons(sortBy, y, h, Insert(sortBy, x, rest));
      TiesCons(sortBy, y, x, rest);
      TiesCons(sortBy, y, x, t);
      TiesCons(sortBy, y, h, rest);
      if tx != [] && th != [] {
        TiesShareClass(sortBy, y, x, h);
        assert false;
      }
      SwapDisjoint(th, tx, Ties(sortBy, y, rest));
    }
  }

  /** Two pieces of which one is empty can be swapped. */
  lemma SwapDisjoint<T>(p: seq<T>, q: seq<T>, r: seq<T>)
    requires p == [] || q == []
    ensures p + (q + r) == q + (p + r)
  {
    if p == [] {
      assert p + (q + r) == q + r;
      assert q + (p + r) == q + r;
    } else {
      assert q + (p + r) == p + r;
      assert p + (q + r) == p + r;
    }
  }

  /** The sort is stable: the records tied with any `y` come out in the
      order they went in. */
  lemma {:induction false} SortStable(sortBy: SortKey, y: Application, s: seq<Application>)
    ensures Ties(sortBy, y, Sort(sortBy, s)) == Ties(sortBy, y, s)
  {
    if s != [] {
      SortStable(sortBy, y, s[1..]);
      InsertKeepsTies(sortBy, y, s[0], Sort(sortBy, s[1..]));
      TiesCons(sortBy, y, s[0], Sort(sortBy, s[1..]));
      TiesCons(sortBy, y, s[0], s[1..]);
      assert s == [s[0]] + s[1..];
    }
  }

  /** For a key none of the cases names, the comparator always answers 0 and
      the sort returns its input unchanged. */
  lemma {:induction false} SortUnknownKeyKeepsOrder(sortBy: SortKey, s: seq<Application>)
    requires sortBy == Other
    ensures Sort(sortBy, s) == s
  {
    if s != [] {
      SortUnknownKeyKeepsOrder(sortBy, s[1..]);
      assert s == [s[0]] + s[1..];
    }
  }

  /** The ascending and descending comparators of one column. */
  predicate Opposite(asc: SortKey, desc: SortKey) {
    (asc == DateAsc && desc == DateDesc) || (asc == CompanyAsc && desc == CompanyDesc)
    || (asc == SalaryAsc && desc == SalaryDesc)
  }

  /** No two different records of `s` tie under the comparator. */
  predicate NoTies(sortBy: SortKey, s: seq<Application>) {
    forall x, y | x in s && y in s && x != y :: Cmp(sortBy, x, y) != 0
  }

  /** The head of a sorted list is at most every record of it. */
  lemma HeadIsLeast(sortBy: SortKey, s: seq<Application>, z: Application)
    requires Sorted(sortBy, s) && s != [] && z in s
    ensures Cmp(sortBy, s[0], z) <= 0
  {
    var j :| 0 <= j < |s| && s[j] == z;
    if j == 0 {
      CmpAntisymmetric(sortBy, z, z);
    }
  }

  /** Two sorted lists with the same records and no ties start alike. */
  lemma SameHead(sortBy: SortKey, a: seq<Application>, b: seq<Application>)
    requires Sorted(sortBy, a) && Sorted(sortBy, b) && a != [] && b != []
    requires multiset(a) == multiset(b) && NoTies(sortBy, a)
    ensures a[0] == b[0]
  {
    assert a[0] in multiset(b) && b[0] in multiset(a);
    HeadIsLeast(sortBy, a, b[0]);
    HeadIsLeast(sortBy, b, a[0]);
    CmpAntisymmetric(sortBy, a[0], b[0]);
  }

  /** The tail of a sorted list is sorted. */
  lemma SortedTail(sortBy: SortKey, s: seq<Application>)
    requires Sorted(sortBy, s) && s != []
    ensures Sorted(sortBy, s[1..])
  {
    forall i, j | 0 <= i < j < |s[1..]| ensures Cmp(sortBy, s[1..][i], s[1..][j]) <= 0 {
      assert s[1..][i] == s[i + 1] && s[1..][j] == s[j + 1];
    }
  }

  /** Without ties a sorted order is unique: two sorted lists holding the
      same records are equal. */
  lemma {:induction false} SortedUnique(sortBy: SortKey, a: seq<Application>, b: seq<Application>)
    requires Sorted(sortBy, a) && Sorted(sortBy, b)
    requires multiset(a) == multiset(b) && NoTies(sortBy, a)
    ensures a == b
    decreases |a|
  {
    if a != [] {
      assert |b| == |multiset(b)| == |multiset(a)| == |a|;
      SameHead(sortBy, a, b);
      TailCounts(a, b);
      SortedTail(sortBy, a);
      SortedTail(sortBy, b);
      forall x, y | x in a[1..] && y in a[1..] && x != y ensures Cmp(sortBy, x, y) != 0 {
        assert x in a && y in a;
      }
      SortedUnique(sortBy, a[1..], b[1..]);
      assert a == [a[0]] + a[1..] && b == [b[0]] + b[1..];
    } else {
      assert |b| == |multiset(b)| == 0;
    }
  }

  /** Reading a list sorted ascending back to front gives it sorted
      descending. */
  lemma RevSorted(asc: SortKey, desc: SortKey, s: seq<Application>)
    requires Opposite(asc, desc) && Sorted(asc, s)
    ensures Sorted(desc, Rev(s))
  {
  }

  /** When no two records tie, sorting by a column descending gives exactly
      the reverse of sorting by it ascending. */
  lemma DescReversesAsc(asc: SortKey, desc: SortKey, s: seq<Application>)
    requires Opposite(asc, desc) && NoTies(asc, s)
    ensures Sort(desc, s) == Rev(Sort(asc, s))
  {
    var a, up := Sort(desc, s), Sort(asc, s);
    SortSorted(desc, s);
    SortSorted(asc, s);
    RevSorted(asc, desc, up);
    SortPermutes(desc, s);
    SortPermutes(asc, s);
    RevCounts(up);
    forall x, y | x in a && y in a && x != y ensures Cmp(desc, x, y) != 0 {
      assert x in multiset(s) && y in multiset(s);
      DescNegatesAsc(x, y);
    }
    SortedUnique(desc, a, Rev(up));
  }

  /** Records with different company names: `company-desc` lists them in
      exactly the reverse order of `company-asc`. */
  lemma CompanyDescReversesAsc(s: seq<Application>)
    requires forall x, y | x in s && y in s && x != y :: x.company != y.company
    ensures Sort(CompanyDesc, s) == Rev(Sort(CompanyAsc, s))
  {
    DescReversesAsc(CompanyAsc, CompanyDesc, s);
  }

  /** `sortedApplications`: the filtered records, sorted. */
  function Visible(apps: seq<Application>, term: string, filterStatus: string, sortBy: string): seq<Application> {
    Sort(KeyOf(sortBy), Filtering.Filter(apps, term, filterStatus))
  }

  /** The visible sequence holds each matching record as often as the
      collection does and no other record; it is ordered by the selected
      comparator; records that tie keep their collection order; and for a
      value no case names it is exactly the filtered list. */
  lemma VisibleSpec(apps: seq<Application>, term: string, filterStatus: string, sortBy: string)
    ensures forall x :: multiset(Visible(apps, term, filterStatus, sortBy))[x]
                     == if Filtering.Matches(x, term, filterStatus) then multiset(apps)[x] else 0
    ensures Sorted(KeyOf(sortBy), Visible(apps, term, filterStatus, sortBy))
    ensures forall y :: Ties(KeyOf(sortBy), y, Visible(apps, term, filterStatus, sortBy))
                     == Ties(KeyOf(sortBy), y, Filtering.Filter(apps, term, filterStatus))
    ensures KeyOf(sortBy) == Other ==> Visible(apps, term, filterStatus, sortBy) == Filtering.Filter(apps, term, filterStatus)
  {
    var f := Filtering.Filter(apps, term, filterStatus);
    var key := KeyOf(sortBy);
    SortPermutes(key, f);
    forall x ensures multiset(Visible(apps, term, filterStatus, sortBy))[x]
                   == if Filtering.Matches(x, term, filterStatus) then multiset(apps)[x] else 0 {
      Filtering.FilterCounts(apps, term, filterStatus, x);
    }
    SortSorted(key, f);
    forall y ensures Ties(key, y, Sort(key, f)) == Ties(key, y, f) {
      SortStable(key, y, f);
    }
    if key == Other {
      SortUnknownKeyKeepsOrder(key, f);
    }
  }

  /** Salaries "$50,000", "", "$120,000" and "abc" sort ascending as the
      two without digits (key 0) in their original order, then 50000, then
      120000. */
  lemma SalaryAscExample(a: Application, b: Application, c: Application, d: Application)
    requires a.salary == "$50,000" && b.salary == ""
    requires c.salary == "$120,000" && d.salary == "abc"
    ensures Sort(SalaryAsc, [a, b, c, d]) == [b, d, a, c]
  {
    SalaryOfFiftyThousand(a.salary);
    SalaryOfHundredTwentyThousand(c.salary);
    SalaryWithoutDigits(d.salary);
    SortFourRecords(SalaryAsc, a, b, c, d);
  }

  /** Sorting four records whose keys stand as in the example above. */
  lemma SortFourRecords(key: SortKey, a: Application, b: Application, c: Application, d: Application)
    requires Cmp(key, c, d) > 0 && Cmp(key, b, d) <= 0
    requires Cmp(key, a, b) > 0 && Cmp(key, a, d) > 0 && Cmp(key, a, c) <= 0
    ensures Sort(key, [a, b, c, d]) == [b, d, a, c]
  {
    SortCons(key, [a, b, c, d]);
    assert [a, b, c, d][1..] == [b, c, d];
    SortLastThree(key, b, c, d);
    InsertIntoThree(key, a, b, d, c);
  }

  lemma SortLastThree(key: SortKey, b: Application, c: Application, d: Application)
    requires Cmp(key, c, d) > 0 && Cmp(key, b, d) <= 0
    ensures Sort(key, [b, c, d]) == [b, d, c]
  {
    SortCons(key, [b, c, d]);
    assert [b, c, d][1..] == [c, d];
    SortSwapsTwo(key, c, d);
    InsertFront(key, b, [d, c]);
    assert [b] + [d, c] == [b, d, c];
  }

  lemma SortSwapsTwo(key: SortKey, c: Application, d: Application)
    requires Cmp(key, c, d) > 0
    ensures Sort(key, [c, d]) == [d, c]
  {
    SortCons(key, [c, d]);
    SortCons(key, [d]);
    assert [c, d][1..] == [d] && [d][1..] == [];
    assert Sort(key, [d]) == [d];
    InsertPast(key, c, [d]);
    assert Insert(key, c, [d]) == [d] + [c] == [d, c];
  }

  lemma InsertIntoThree(key: SortKey, a: Application, b: Application, d: Application, c: Application)
    requires Cmp(key, a, b) > 0 && Cmp(key, a, d) > 0 && Cmp(key, a, c) <= 0
    ensures Insert(key, a, [b, d, c]) == [b, d, a, c]
  {
    InsertPast(key, a, [b, d, c]);
    assert [b, d, c][1..] == [d, c] && [d, c][1..] == [c];
    InsertPast(key, a, [d, c]);
    InsertFront(key, a, [c]);
    assert Insert(key, a, [c]) == [a] + [c];
    assert Insert(key, a, [d, c]) == [d] + ([a] + [c]);
    assert Insert(key, a, [b, d, c]) == [b] + ([d] + ([a] + [c]));
    FourInOrder(b, d, a, c);
  }

  lemma FourInOrder<T>(w: T, x: T, y: T, z: T)
    ensures [w] + ([x] + ([y] + [z])) == [w, x, y, z]
  {
  }

  lemma SortCons(sortBy: SortKey, s: seq<Application>)
    requires s != []
    ensures Sort(sortBy, s) == Insert(sortBy, s[0], Sort(sortBy, s[1..]))
  {
  }

  lemma InsertFront(sortBy: SortKey, x: Application, t: seq<Application>)
    requires t != [] && Cmp(sortBy, x, t[0]) <= 0
    ensures Insert(sortBy, x, t) == [x] + t
  {
  }

  lemma InsertPast(sortBy: SortKey, x: Application, t: seq<Application>)
    requires t != [] && Cmp(sortBy, x, t[0]) > 0
    ensures Insert(sortBy, x, t) == [t[0]] + Insert(sortBy, x, t[1..])
  {
  }
}
