/** The text of the CSV export: a header line and one line per record of the
    whole collection, in collection order. Four text fields are wrapped in
    double quotes without escaping quotes inside them, so the text cannot in
    general be parsed back into the records it came from. */
module Csv {
  import opened Records

  const Header: seq<string> := ["Company", "Position", "Location", "Status", "Date", "Salary", "Notes"]

  /** The template `"${s}"`. */
  function Quote(s: string): string {
    "\"" + s + "\""
  }

  /** `parts.join(sep)`. */
  function Join(sep: string, parts: seq<string>): string {
    if parts == [] then ""
    else if |parts| == 1 then parts[0]
    else parts[0] + sep + Join(sep, parts[1..])
  }

  /** Joining one more part adds the separator and that part at the end. */
  lemma {:induction false} JoinSnoc(sep: string, parts: seq<string>, p: string)
    requires parts != []
    ensures Join(sep, parts + [p]) == Join(sep, parts) + sep + p
  {
    if |parts| > 1 {
      assert (parts + [p])[1..] == parts[1..] + [p];
      JoinSnoc(sep, parts[1..], p);
    }
  }

  /** Joining the seven cells of a line puts the separator between each pair. */
  lemma JoinSeven(sep: string, c0: string, c1: string, c2: string, c3: string, c4: string, c5: string, c6: string)
    ensures Join(sep, [c0, c1, c2, c3, c4, c5, c6])
         == c0 + sep + c1 + sep + c2 + sep + c3 + sep + c4 + sep + c5 + sep + c6
  {
    JoinCons(sep, c5, [c6]);
    JoinCons(sep, c4, [c5, c6]);
    JoinCons(sep, c3, [c4, c5, c6]);
    JoinCons(sep, c2, [c3, c4, c5, c6]);
    JoinCons(sep, c1, [c2, c3, c4, c5, c6]);
    JoinCons(sep, c0, [c1, c2, c3, c4, c5, c6]);
  }

  lemma JoinCons(sep: string, p: string, parts: seq<string>)
    requires parts != []
    ensures Join(sep, [p] + parts) == p + sep + Join(sep, parts)
  {
    assert ([p] + parts)[1..] == parts;
  }

  /** The seven cells of one record. `localeDate` stands for
      `new Date(date).toLocaleDateString()`, whose text depends on the
      browser's locale and time zone. */
  function Cells(a: Application, localeDate: string -> string): (cs: seq<string>)
    ensures |cs| == |Header|
  {
    [Quote(a.company), Quote(a.position), Quote(a.location), a.status,
     localeDate(a.date), a.salary, Quote(a.notes)]
  }

  function Line(a: Application, localeDate: string -> string): string {
    Join(",", Cells(a, localeDate))
  }

  /** `applications.map(...)`, one line per record. */
  function Lines(apps: seq<Application>, localeDate: string -> string): (ls: seq<string>)
    ensures |ls| == |apps|
    ensures forall i | 0 <= i < |apps| :: ls[i] == Line(apps[i], localeDate)
  {
    if apps == [] then [] else [Line(apps[0], localeDate)] + Lines(apps[1..], localeDate)
  }

  /** `[headers, ...rows].map(e => e.join(',')).join('\n')`. */
  function Text(apps: seq<Application>, localeDate: string -> string): string {
    Join("\n", [Join(",", Header)] + Lines(apps, localeDate))
  }

  /** The export of an empty collection is the header line alone. */
  lemma TextOfEmpty(localeDate: string -> string)
    ensures Text([], localeDate)
         == "Company" + "," + "Position" + "," + "Location" + "," + "Status" + ","
          + "Date" + "," + "Salary" + "," + "Notes"
  {
    JoinSeven(",", "Company", "Position", "Location", "Status", "Date", "Salary", "Notes");
    assert [Join(",", Header)] + Lines([], localeDate) == [Join(",", Header)];
  }

  /** One more record in the collection adds one more line at the end of the
      export and changes nothing before it. */
  lemma TextSnoc(apps: seq<Application>, a: Application, localeDate: string -> string)
    ensures Text(apps + [a], localeDate) == Text(apps, localeDate) + "\n" + Line(a, localeDate)
  {
    var head := [Join(",", Header)];
    assert Lines(apps + [a], localeDate) == Lines(apps, localeDate) + [Line(a, localeDate)];
    assert head + Lines(apps + [a], localeDate) == (head + Lines(apps, localeDate)) + [Line(a, localeDate)];
    JoinSnoc("\n", head + Lines(apps, localeDate), Line(a, localeDate));
  }

  /** The export is the header line followed by each record's line, each
      introduced by a newline, in collection order. */
  lemma {:induction false} TextLayout(apps: seq<Application>, localeDate: string -> string)
    ensures Text(apps, localeDate) == Join(",", Header) + Joined(apps, localeDate)
    decreases |apps|
  {
    if apps != [] {
      var init := apps[..|apps| - 1];
      var last := apps[|apps| - 1];
      assert apps == init + [last];
      TextLayout(init, localeDate);
      TextSnoc(init, last, localeDate);
      JoinedSnoc(init, last, localeDate);
    }
  }

  /** `"\n" + line` for every record, concatenated. */
  function Joined(apps: seq<Application>, localeDate: string -> string): string {
    if apps == [] then "" else "\n" + Line(apps[0], localeDate) + Joined(apps[1..], localeDate)
  }

  lemma {:induction false} JoinedSnoc(apps: seq<Application>, a: Application, localeDate: string -> string)
    ensures Joined(apps + [a], localeDate) == Joined(apps, localeDate) + "\n" + Line(a, localeDate)
  {
    if apps != [] {
      assert (apps + [a])[1..] == apps[1..] + [a];
      JoinedSnoc(apps[1..], a, localeDate);
    } else {
      assert apps + [a] == [a];
    }
  }

  /** The line of one record: company, position, location and notes between
      double quotes exactly as typed, status and salary bare. */
  lemma LineLayout(a: Application, localeDate: string -> string)
    ensures Line(a, localeDate)
         == "\"" + a.company + "\",\"" + a.position + "\",\"" + a.location + "\","
          + a.status + "," + localeDate(a.date) + "," + a.salary + ",\"" + a.notes + "\""
  {
    JoinSeven(",", Quote(a.company), Quote(a.position), Quote(a.location), a.status,
              localeDate(a.date), a.salary, Quote(a.notes));
  }

  /** Quotes inside a field are not escaped: two different records can
      produce the same line, so the export does not determine the records. */
  lemma QuotesNotEscaped(localeDate: string -> string)
    ensures var a := Application(None, "A\",\"B", "C", "", Pending, "", "", "");
            var b := Application(None, "A", "B\",\"C", "", Pending, "", "", "");
            a != b && Line(a, localeDate) == Line(b, localeDate)
  {
    var a := Application(None, "A\",\"B", "C", "", Pending, "", "", "");
    var b := Application(None, "A", "B\",\"C", "", Pending, "", "", "");
    LineLayout(a, localeDate);
    LineLayout(b, localeDate);
    assert a.company != b.company;
  }

  /** Status and salary are written without quotes, so a salary typed with a
      thousands separator, such as "80,000", splits into two cells: the line
      reads as eight cells under a seven-column header. */
  lemma UnquotedSalarySplits(a: Application, localeDate: string -> string, hi: string, lo: string)
    requires a.salary == hi + "," + lo
    ensures Line(a, localeDate)
         == Join(",", [Quote(a.company), Quote(a.position), Quote(a.location), a.status,
                       localeDate(a.date), hi, lo, Quote(a.notes)])
  {
    var c0, c1, c2, c3, c4 := Quote(a.company), Quote(a.position), Quote(a.location), a.status, localeDate(a.date);
    var c7 := Quote(a.notes);
    JoinSeven(",", c0, c1, c2, c3, c4, a.salary, c7);
    JoinEight(",", c0, c1, c2, c3, c4, hi, lo, c7);
    var front := c0 + "," + c1 + "," + c2 + "," + c3 + "," + c4 + ",";
    assert Line(a, localeDate) == front + a.salary + "," + c7;
    assert Join(",", [c0, c1, c2, c3, c4, hi, lo, c7]) == front + hi + "," + lo + "," + c7;
  }

  lemma JoinEight(sep: string, c0: string, c1: string, c2: string, c3: string, c4: string, c5: string, c6: string, c7: string)
    ensures Join(sep, [c0, c1, c2, c3, c4, c5, c6, c7])
         == c0 + sep + c1 + sep + c2 + sep + c3 + sep + c4 + sep + c5 + sep + c6 + sep + c7
  {
    JoinSeven(sep, c0, c1, c2, c3, c4, c5, c6);
    JoinSnoc(sep, [c0, c1, c2, c3, c4, c5, c6], c7);
    assert [c0, c1, c2, c3, c4, c5, c6] + [c7] == [c0, c1, c2, c3, c4, c5, c6, c7];
  }
}
