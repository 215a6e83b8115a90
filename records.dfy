/** The application record, the draft form's fields, and the small facts
    about them that the form handlers use. */
module Records {
  import opened Text

  datatype Option<T> = None | Some(value: T)

  /** One tracked job application. `id` is the store-assigned `_id`, absent
      on a draft that has never been saved; `status` and `date` stay the text
      the form produced (`date` conventionally `YYYY-MM-DD`). */
  datatype Application = Application(
    id: Option<string>,
    company: string,
    position: string,
    location: string,
    status: string,
    date: string,
    salary: string,
    notes: string)

  /** The `name` attributes of the form's inputs. */
  datatype Field = Company | Position | Location | Status | Date | Salary | Notes

  const Pending := "pending"
  const Interview := "interview"
  const Offer := "offer"
  const Rejected := "rejected"

  predicate KnownStatus(s: string) {
    s == Pending || s == Interview || s == Offer || s == Rejected
  }

  function Get(a: Application, f: Field): string {
    match f
    case Company => a.company
    case Position => a.position
    case Location => a.location
    case Status => a.status
    case Date => a.date
    case Salary => a.salary
    case Notes => a.notes
  }

  /** `{ ...a, [name]: value }`: the draft with one input's value replaced. */
  function With(a: Application, f: Field, v: string): (r: Application)
    ensures Get(r, f) == v
    ensures forall g :: g != f ==> Get(r, g) == Get(a, g)
    ensures r.id == a.id
  {
    match f
    case Company => a.(company := v)
    case Position => a.(position := v)
    case Location => a.(location := v)
    case Status => a.(status := v)
    case Date => a.(date := v)
    case Salary => a.(salary := v)
    case Notes => a.(notes := v)
  }

  /** Two records that agree on every field and on `id` are the same record. */
  lemma FieldsDetermineRecord(a: Application, b: Application)
    requires a.id == b.id
    requires forall f :: Get(a, f) == Get(b, f)
    ensures a == b
  {
    assert Get(a, Company) == Get(b, Company) && Get(a, Position) == Get(b, Position);
    assert Get(a, Location) == Get(b, Location) && Get(a, Status) == Get(b, Status);
    assert Get(a, Date) == Get(b, Date) && Get(a, Salary) == Get(b, Salary);
    assert Get(a, Notes) == Get(b, Notes);
  }

  /** Writing the value a field already has changes nothing. */
  lemma WithSameValue(a: Application, f: Field)
    ensures With(a, f, Get(a, f)) == a
  {
    FieldsDetermineRecord(With(a, f, Get(a, f)), a);
  }

  /** Writing a field twice keeps only the second value. */
  lemma WithTwice(a: Application, f: Field, v: string, w: string)
    ensures With(With(a, f, v), f, w) == With(a, f, w)
  {
    FieldsDetermineRecord(With(With(a, f, v), f, w), With(a, f, w));
  }

  /** The submit guard `newApplication.company && newApplication.position`:
      both required texts are non-empty. */
  predicate CanSubmit(d: Application) {
    d.company != "" && d.position != ""
  }

  /** The form's initial and reset value; `today` is the calendar date part
      of the current time. */
  function DefaultDraft(today: string): (d: Application)
    ensures !CanSubmit(d)
    ensures d.id == None && d.status == Pending && d.date == today
  {
    Application(None, "", "", "", Pending, today, "", "")
  }

  /** `s.split('T')[0]`: the text before the first `T`, or all of it. */
  function DatePart(s: string): (r: string)
    ensures IsPrefix(r, s)
    ensures 'T' !in r
    ensures |r| < |s| ==> s[|r|] == 'T'
    ensures 'T' !in s ==> r == s
  {
    if s == [] || s[0] == 'T' then []
    else
      assert s == [s[0]] + s[1..];
      [s[0]] + DatePart(s[1..])
  }
}
