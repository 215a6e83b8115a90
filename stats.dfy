/** The dashboard figures derived from the collection: the total, one count
    per status, and the response rate (the rounded share of applications that
    are no longer pending). */
module Stats {
  import opened Records

  datatype Statistics = Statistics(
    total: nat,
    pending: nat,
    interviews: nat,
    offers: nat,
    rejected: nat,
    responseRate: nat)

  /** `apps.filter(app => app.status === status).length`. */
  function CountStatus(apps: seq<Application>, status: string): (n: nat)
    ensures n <= |apps|
    ensures n == 0 <==> forall i | 0 <= i < |apps| :: apps[i].status != status
    ensures n == |apps| <==> forall i | 0 <= i < |apps| :: apps[i].status == status
  {
    if apps == [] then 0
    else (if apps[0].status == status then 1 else 0) + CountStatus(apps[1..], status)
  }

  /** `Math.round(((total - pending) / total) * 100)` for a non-empty
      collection, computed exactly as round-half-up; 0 for an empty one. */
  function ResponseRate(total: nat, pending: nat): (r: nat)
    requires pending <= total
    ensures r <= 100
    ensures total == 0 ==> r == 0
    ensures total > 0 ==> 2 * total * r <= 200 * (total - pending) + total < 2 * total * (r + 1)
    ensures total > 0 && pending == 0 ==> r == 100
    ensures pending == total ==> r == 0
  {
    if total > 0 then RoundHalfUp(200 * (total - pending) + total, 2 * total, total) else 0
  }

  /** `n / d` for `n = 200 * k + t` and `d = 2 * t`: Euclidean division
      rounds down, so adding half the divisor first rounds half up. */
  function RoundHalfUp(n: nat, d: nat, t: nat): (q: nat)
    requires t > 0 && d == 2 * t && t <= n <= 201 * t
    ensures d * q <= n < d * (q + 1)
    ensures q <= 100
    ensures n == t ==> q == 0
    ensures n == 201 * t ==> q == 100
  {
    QuotientBounds(n, d, t);
    n / d
  }

  lemma QuotientBounds(n: nat, d: nat, t: nat)
    requires t > 0 && d == 2 * t && t <= n <= 201 * t
    ensures d * (n / d) <= n < d * (n / d + 1)
    ensures n / d <= 100
    ensures n == t ==> n / d == 0
    ensures n == 201 * t ==> n / d == 100
  {
    var q := n / d;
    assert n == d * q + n % d;
    if q > 100 {
      MulMonotone(d, 101, q);
      assert false;
    }
    if n == 201 * t && q < 100 {
      MulMonotone(d, q + 1, 100);
      assert false;
    }
  }

  lemma MulMonotone(d: nat, a: nat, b: nat)
    requires a <= b
    ensures d * a <= d * b
  {
  }

  /** The six figures shown on the dashboard. */
  function Compute(apps: seq<Application>): (s: Statistics)
    ensures s.total == |apps|
    ensures s.pending == CountStatus(apps, Pending) && s.interviews == CountStatus(apps, Interview)
    ensures s.offers == CountStatus(apps, Offer) && s.rejected == CountStatus(apps, Rejected)
    ensures s.responseRate == ResponseRate(s.total, s.pending)
    ensures s.pending <= s.total && s.interviews <= s.total && s.offers <= s.total && s.rejected <= s.total
    ensures s.responseRate <= 100
    ensures s.total == 0 ==> s.responseRate == 0
    ensures s.total > 0 && s.pending == 0 ==> s.responseRate == 100
    ensures s.pending == s.total ==> s.responseRate == 0
  {
    var p := CountStatus(apps, Pending);
    Statistics(|apps|, p, CountStatus(apps, Interview), CountStatus(apps, Offer),
               CountStatus(apps, Rejected), ResponseRate(|apps|, p))
  }

  /** When every record carries one of the four known statuses, the four
      counts add up to the total. */
  lemma {:induction false} CountsSumToTotal(apps: seq<Application>)
    requires forall i | 0 <= i < |apps| :: KnownStatus(apps[i].status)
    ensures CountStatus(apps, Pending) + CountStatus(apps, Interview)
          + CountStatus(apps, Offer) + CountStatus(apps, Rejected) == |apps|
  {
    if apps != [] {
      CountsSumToTotal(apps[1..]);
    }
  }

  /** Counting over a concatenation adds the counts of the parts. */
  lemma {:induction false} CountAppend(a: seq<Application>, b: seq<Application>, status: string)
    ensures CountStatus(a + b, status) == CountStatus(a, status) + CountStatus(b, status)
  {
    if a != [] {
      assert (a + b)[0] == a[0] && (a + b)[1..] == a[1..] + b;
      CountAppend(a[1..], b, status);
    } else {
      assert a + b == b;
    }
  }

  /** Adding one record raises exactly the count of its own status by one. */
  lemma CountAfterAppend(apps: seq<Application>, x: Application, status: string)
    ensures CountStatus(apps + [x], status) == CountStatus(apps, status) + (if x.status == status then 1 else 0)
  {
    CountAppend(apps, [x], status);
  }

  /** A record of the collection counts towards its own status. */
  lemma {:induction false} CountPositive(apps: seq<Application>, i: nat)
    requires i < |apps|
    ensures CountStatus(apps, apps[i].status) >= 1
  {
    if i > 0 {
      CountPositive(apps[1..], i - 1);
    }
  }

  /** Worked figures: one pending record gives 0%, one of two pending 50%,
      one of four pending 75%. */
  lemma ResponseRateExamples()
    ensures ResponseRate(1, 1) == 0
    ensures ResponseRate(2, 1) == 50
    ensures ResponseRate(4, 1) == 75
  {
  }

  /** A pending Acme application and an Globex offer: two in total, one
      pending, one offer, a 50% response rate. */
  lemma TwoRecordExample(a: Application, b: Application)
    requires a.company == "Acme" && a.status == Pending
    requires b.company == "Globex" && b.status == Offer
    ensures var s := Compute([a, b]);
            s.total == 2 && s.pending == 1 && s.offers == 1 && s.interviews == 0
            && s.rejected == 0 && s.responseRate == 50
  {
    assert [a, b][1..] == [b];
    ResponseRateExamples();
  }
}
