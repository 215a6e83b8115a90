/** String helpers that the list view relies on: ASCII lower-casing
    (`toLowerCase`), substring search (`includes`), the digit extraction and
    parsing behind the salary sort key (`replace(/\D/g, '')`, `parseInt`), and
    the string order used for `localeCompare`. */
module Text {
  import opened Seqs

  predicate IsUpper(c: char) { 'A' <= c <= 'Z' }

  predicate IsDigit(c: char) { '0' <= c <= '9' }

  predicate AllDigits(s: string) { forall i | 0 <= i < |s| :: IsDigit(s[i]) }

  /** `toLowerCase` restricted to ASCII letters: a capital becomes its own
      small letter, 32 code points further on; nothing else changes. */
  function LowerChar(c: char): (d: char)
    ensures !IsUpper(d)
    ensures IsUpper(c) ==> d as int == c as int + 32
    ensures !IsUpper(c) ==> d == c
  {
    if IsUpper(c) then (c as int + 32) as char else c
  }

  function Lower(s: string): (r: string)
    ensures |r| == |s|
    ensures forall i | 0 <= i < |r| :: !IsUpper(r[i])
    ensures forall i | 0 <= i < |r| :: IsUpper(s[i]) ==> r[i] as int == s[i] as int + 32
    ensures forall i | 0 <= i < |r| :: !IsUpper(s[i]) ==> r[i] == s[i]
  {
    seq(|s|, i requires 0 <= i < |s| => LowerChar(s[i]))
  }

  /** Two characters are the same letter in either case, or the same character. */
  predicate SameIgnoringCase(c: char, d: char) {
    c == d || (IsUpper(c) && d as int == c as int + 32) || (IsUpper(d) && c as int == d as int + 32)
  }

  /** Lower-casing forgets exactly the case of ASCII letters: two texts that
      differ only in the case of their letters lower-case to the same text. */
  lemma LowerIgnoresCase(s: string, t: string)
    requires |s| == |t|
    requires forall i | 0 <= i < |s| :: SameIgnoringCase(s[i], t[i])
    ensures Lower(s) == Lower(t)
  {
  }

  /** Lower-casing twice is lower-casing once. */
  lemma LowerIdempotent(s: string)
    ensures Lower(Lower(s)) == Lower(s)
  {
  }

  predicate IsPrefix(p: string, s: string) { |p| <= |s| && s[..|p|] == p }

  /** `hay.includes(needle)`: the needle occurs at some offset of the haystack. */
  predicate Contains(hay: string, needle: string) {
    exists i | 0 <= i <= |hay| :: IsPrefix(needle, hay[i..])
  }

  /** Every string contains the empty string, so an empty search term matches. */
  lemma ContainsEmpty(hay: string)
    ensures Contains(hay, "")
  {
    assert IsPrefix("", hay[0..]);
  }

  /** A needle longer than the haystack never occurs in it. */
  lemma ContainsTooLong(hay: string, needle: string)
    requires |needle| > |hay|
    ensures !Contains(hay, needle)
  {
  }

  /** `s.replace(/\D/g, '')`: keep exactly the characters `0`..`9`, in order. */
  function DigitsOnly(s: string): (r: string)
    ensures AllDigits(r)
    ensures IsSubseq(r, s)
    ensures |r| <= |s|
    ensures AllDigits(s) ==> r == s
    ensures (forall i | 0 <= i < |s| :: !IsDigit(s[i])) ==> r == ""
  {
    if s == [] then []
    else
      var rest := DigitsOnly(s[1..]);
      assert s == [s[0]] + s[1..];
      SubseqNoLonger(rest, s[1..]);
      if IsDigit(s[0]) then
        SubseqConsBoth(rest, s[0], s[1..]);
        [s[0]] + rest
      else
        SubseqCons(rest, s[0], s[1..]);
        rest
  }

  /** Every digit of the text is kept, as often as it occurs; nothing else is. */
  lemma {:induction false} DigitsOnlyCounts(s: string, c: char)
    ensures multiset(DigitsOnly(s))[c] == if IsDigit(c) then multiset(s)[c] else 0
  {
    if s != [] {
      DigitsOnlyCounts(s[1..], c);
      assert s == [s[0]] + s[1..];
    }
  }

  /** Removing the non-digits of a concatenation removes them from each part. */
  lemma {:induction false} DigitsOnlyAppend(s: string, t: string)
    ensures DigitsOnly(s + t) == DigitsOnly(s) + DigitsOnly(t)
  {
    if s == [] {
      assert s + t == t;
    } else {
      assert (s + t)[0] == s[0] && (s + t)[1..] == s[1..] + t;
      DigitsOnlyAppend(s[1..], t);
    }
  }

  /** The decimal value of an all-digit string, as an unbounded number; the
      empty string has value 0. `parseInt` is only applied to a non-empty one. */
  function DecimalValue(ds: string): (n: nat)
    requires AllDigits(ds)
    decreases |ds|
  {
    if ds == [] then 0
    else 10 * DecimalValue(ds[..|ds| - 1]) + (ds[|ds| - 1] as int - '0' as int)
  }

  lemma DecimalValueSnoc(ds: string, c: char)
    requires AllDigits(ds) && IsDigit(c)
    ensures AllDigits(ds + [c])
    ensures DecimalValue(ds + [c]) == 10 * DecimalValue(ds) + (c as int - '0' as int)
  {
    assert (ds + [c])[..|ds|] == ds;
  }

  /** Leading zeros do not change the value, as `parseInt("007")` is 7. */
  lemma {:induction false} DecimalValueLeadingZero(ds: string)
    requires AllDigits(ds)
    ensures AllDigits("0" + ds)
    ensures DecimalValue("0" + ds) == DecimalValue(ds)
    decreases |ds|
  {
    if ds != [] {
      var init := ds[..|ds| - 1];
      var last := ds[|ds| - 1];
      assert ds == init + [last];
      assert "0" + ds == ("0" + init) + [last];
      DecimalValueLeadingZero(init);
      DecimalValueSnoc("0" + init, last);
      DecimalValueSnoc(init, last);
    }
  }

  /** The salary sort key `parseInt(salary.replace(/\D/g, '') || 0)`:
      the digits of the text read as one decimal number, 0 when there are none. */
  function SalaryValue(salary: string): (n: nat)
    ensures (forall i | 0 <= i < |salary| :: !IsDigit(salary[i])) ==> n == 0
    ensures AllDigits(salary) && salary != "" ==> n == DecimalValue(salary)
  {
    var ds := DigitsOnly(salary);
    if ds == "" then 0 else DecimalValue(ds)
  }

  /** Read left to right, the key ignores every character that is not a
      digit, and each digit shifts the value one decimal place and adds
      itself. With `SalaryValue("") == 0` this fixes the key of every text. */
  lemma SalaryValueSnoc(s: string, c: char)
    ensures IsDigit(c) ==> SalaryValue(s + [c]) == 10 * SalaryValue(s) + (c as int - '0' as int)
    ensures !IsDigit(c) ==> SalaryValue(s + [c]) == SalaryValue(s)
  {
    DigitsOnlyAppend(s, [c]);
    var ds := DigitsOnly(s);
    assert DigitsOnly([c]) == if IsDigit(c) then [c] else [];
    if IsDigit(c) {
      DecimalValueSnoc(ds, c);
      if ds == "" {
        assert ds + [c] == [c];
        assert [c][..0] == [];
      }
    } else {
      assert ds + [] == ds;
    }
  }

  /** The salary placeholder's format: "$50,000" sorts as 50000. */
  lemma SalaryOfFiftyThousand(s: string)
    requires s == "$50,000"
    ensures SalaryValue(s) == 50000
  {
    var d, f, z, m := '$', '5', '0', ',';
    assert SalaryValue([]) == 0;
    SalaryValueSnoc([], d);
    assert [] + [d] == [d];
    SalaryValueSnoc([d], f);
    assert [d] + [f] == [d, f];
    assert SalaryValue([d, f]) == 5;
    SalaryValueSnoc([d, f], z);
    assert [d, f] + [z] == [d, f, z];
    assert SalaryValue([d, f, z]) == 50;
    SalaryValueSnoc([d, f, z], m);
    assert [d, f, z] + [m] == [d, f, z, m];
    assert SalaryValue([d, f, z, m]) == 50;
    SalaryValueSnoc([d, f, z, m], z);
    assert [d, f, z, m] + [z] == [d, f, z, m, z];
    assert SalaryValue([d, f, z, m, z]) == 500;
    SalaryValueSnoc([d, f, z, m, z], z);
    assert [d, f, z, m, z] + [z] == [d, f, z, m, z, z];
    assert SalaryValue([d, f, z, m, z, z]) == 5000;
    SalaryValueSnoc([d, f, z, m, z, z], z);
    assert [d, f, z, m, z, z] + [z] == [d, f, z, m, z, z, z];
    assert [d, f, z, m, z, z] + [z] == s;
  }

  /** "$120,000" sorts as 120000. */
  lemma SalaryOfHundredTwentyThousand(s: string)
    requires s == "$120,000"
    ensures SalaryValue(s) == 120000
  {
    var d, o, w, z, m := '$', '1', '2', '0', ',';
    assert SalaryValue([]) == 0;
    SalaryValueSnoc([], d);
    assert [] + [d] == [d];
    SalaryValueSnoc([d], o);
    assert [d] + [o] == [d, o];
    assert SalaryValue([d, o]) == 1;
    SalaryValueSnoc([d, o], w);
    assert [d, o] + [w] == [d, o, w];
    assert SalaryValue([d, o, w]) == 12;
    SalaryValueSnoc([d, o, w], z);
    assert [d, o, w] + [z] == [d, o, w, z];
    assert SalaryValue([d, o, w, z]) == 120;
    SalaryValueSnoc([d, o, w, z], m);
    assert [d, o, w, z] + [m] == [d, o, w, z, m];
    assert SalaryValue([d, o, w, z, m]) == 120;
    SalaryValueSnoc([d, o, w, z, m], z);
    assert [d, o, w, z, m] + [z] == [d, o, w, z, m, z];
    assert SalaryValue([d, o, w, z, m, z]) == 1200;
    SalaryValueSnoc([d, o, w, z, m, z], z);
    assert [d, o, w, z, m, z] + [z] == [d, o, w, z, m, z, z];
    assert SalaryValue([d, o, w, z, m, z, z]) == 12000;
    SalaryValueSnoc([d, o, w, z, m, z, z], z);
    assert [d, o, w, z, m, z, z] + [z] == [d, o, w, z, m, z, z, z];
    assert [d, o, w, z, m, z, z] + [z] == s;
  }

  /** A salary with no digits, such as "abc", sorts as 0. */
  lemma SalaryWithoutDigits(s: string)
    requires s == "abc"
    ensures SalaryValue(s) == 0
  {
  }

  /** Three-way comparison of strings, character by character (the order
      that stands in for `localeCompare`); the result is -1, 0 or 1. */
  function Compare(a: string, b: string): (r: int)
    ensures -1 <= r <= 1
    ensures r == 0 <==> a == b
  {
    if a == [] then (if b == [] then 0 else -1)
    else if b == [] then 1
    else if a[0] < b[0] then -1
    else if a[0] > b[0] then 1
    else
      assert a == [a[0]] + a[1..] && b == [b[0]] + b[1..];
      Compare(a[1..], b[1..])
  }

  /** Swapping the arguments negates the comparison. */
  lemma {:induction false} CompareAntisymmetric(a: string, b: string)
    ensures Compare(a, b) == -Compare(b, a)
  {
    if a != [] && b != [] && a[0] == b[0] {
      CompareAntisymmetric(a[1..], b[1..]);
    }
  }

  /** "At most" under the comparison is transitive. */
  lemma {:induction false} CompareTransitive(a: string, b: string, c: string)
    requires Compare(a, b) <= 0 && Compare(b, c) <= 0
    ensures Compare(a, c) <= 0
  {
    if a != [] && b != [] && c != [] && a[0] == b[0] && b[0] == c[0] {
      CompareTransitive(a[1..], b[1..], c[1..]);
    }
  }
}
