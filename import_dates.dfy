/** `parseDate` of the CSV import: the cell as the engine's own date parser reads it, then
    `a/b/yyyy` read month first and, failing that, day first, then `a-b-yyyy` read day
    first and, failing that, month first. The engine's date parser is the parameter
    `jsDate` (`new Date(s)` followed by the `isNaN(getTime())` test): it gives the time
    value of a valid date and `None` for an invalid one. */
module ImportDates {
  import opened Types
  import opened Text

  /** `parts.join([sep])` */
  function Join(parts: seq<string>, sep: char): string
    requires |parts| >= 1
  {
    if |parts| == 1 then parts[0] else parts[0] + [sep] + Join(parts[1..], sep)
  }

  /** `s.split(sep)` */
  function SplitOn(s: string, sep: char): (parts: seq<string>)
    ensures |parts| >= 1
    ensures forall i :: 0 <= i < |parts| ==> sep !in parts[i]
    ensures Join(parts, sep) == s
  {
    SplitFacts(s, sep);
    Split(s, sep)
  }

  /** The recursion behind `SplitOn`: the first character either ends the first part or
      begins it; there is always at least one part. */
  function Split(s: string, sep: char): (parts: seq<string>)
    ensures |parts| >= 1
  {
    if s == [] then [""]
    else
      var rest := Split(s[1..], sep);
      if s[0] == sep then [""] + rest
      else [[s[0]] + rest[0]] + rest[1..]
  }

  lemma {:induction false} SplitFacts(s: string, sep: char)
    ensures forall i :: 0 <= i < |Split(s, sep)| ==> sep !in Split(s, sep)[i]
    ensures Join(Split(s, sep), sep) == s
  {
    if s != [] {
      SplitFacts(s[1..], sep);
      var rest := Split(s[1..], sep);
      assert s == [s[0]] + s[1..];
      if s[0] != sep {
        var parts := [[s[0]] + rest[0]] + rest[1..];
        assert parts[1..] == rest[1..];
      }
    }
  }

  /** Splitting a join of separator-free parts gives the parts back. */
  lemma {:induction false} SplitJoin(parts: seq<string>, sep: char)
    requires |parts| >= 1
    requires forall i :: 0 <= i < |parts| ==> sep !in parts[i]
    ensures SplitOn(Join(parts, sep), sep) == parts
  {
    SplitOfJoin(parts, sep);
  }

  lemma {:induction false} SplitOfJoin(parts: seq<string>, sep: char)
    requires |parts| >= 1
    requires forall i :: 0 <= i < |parts| ==> sep !in parts[i]
    ensures Split(Join(parts, sep), sep) == parts
  {
    if |parts| == 1 {
      SplitFree(parts[0], sep);
    } else {
      SplitOfJoin(parts[1..], sep);
      SplitPrefix(parts[0], Join(parts[1..], sep), sep);
      assert [parts[0]] + parts[1..] == parts;
    }
  }

  lemma {:induction false} SplitFree(s: string, sep: char)
    requires sep !in s
    ensures Split(s, sep) == [s]
  {
    if s != [] {
      SplitFree(s[1..], sep);
      assert s == [s[0]] + s[1..];
    }
  }

  lemma {:induction false} SplitPrefix(a: string, t: string, sep: char)
    requires sep !in a
    ensures Split(a + [sep] + t, sep) == [a] + Split(t, sep)
  {
    if a == [] {
      assert a + [sep] + t == [sep] + t;
      assert ([sep] + t)[1..] == t;
    } else {
      SplitPrefix(a[1..], t, sep);
      assert (a + [sep] + t)[1..] == a[1..] + [sep] + t;
      assert [a[0]] + a[1..] == a;
    }
  }

  /** The three captures of `^(\d{1,2})<sep>(\d{1,2})<sep>(\d{4})$`. */
  datatype DateParts = DateParts(first: string, second: string, year: string)

  predicate ShortNumber(p: string) { 1 <= |p| <= 2 && AllDigits(p) }
  predicate YearNumber(p: string) { |p| == 4 && AllDigits(p) }

  /** `s.match(/^(\d{1,2})<sep>(\d{1,2})<sep>(\d{4})$/)` */
  function MatchDateParts(s: string, sep: char): (m: Option<DateParts>)
    requires !IsDigit(sep)
    ensures m.Some? ==> s == m.value.first + [sep] + m.value.second + [sep] + m.value.year
    ensures m.Some? ==> ShortNumber(m.value.first) && ShortNumber(m.value.second) && YearNumber(m.value.year)
  {
    var p := SplitOn(s, sep);
    if |p| == 3 && ShortNumber(p[0]) && ShortNumber(p[1]) && YearNumber(p[2]) then
      Join3(p, sep);
      Some(DateParts(p[0], p[1], p[2]))
    else None
  }

  lemma Join3(p: seq<string>, sep: char)
    requires |p| == 3
    ensures Join(p, sep) == p[0] + [sep] + p[1] + [sep] + p[2]
  {
    assert p[1..][1..] == [p[2]];
    assert Join(p[1..], sep) == p[1] + [sep] + p[2];
  }

  /** The pattern matches exactly the strings of its shape, capturing their three numbers. */
  lemma MatchDatePartsOf(a: string, b: string, y: string, sep: char)
    requires !IsDigit(sep)
    requires ShortNumber(a) && ShortNumber(b) && YearNumber(y)
    ensures MatchDateParts(a + [sep] + b + [sep] + y, sep) == Some(DateParts(a, b, y))
  {
    var parts := [a, b, y];
    forall i | 0 <= i < 3 ensures sep !in parts[i] {
      assert AllDigits(parts[i]);
    }
    Join3(parts, sep);
    SplitJoin(parts, sep);
  }

  /** `p.padStart(2, '0')` */
  function PadStart2(p: string): (r: string)
    ensures |p| >= 2 ==> r == p
    ensures |p| < 2 ==> |r| == 2 && r[2 - |p|..] == p && r[0] == '0'
  {
    if |p| >= 2 then p else if |p| == 1 then "0" + p else "00"
  }

  /** `${year}-${month.padStart(2, '0')}-${day.padStart(2, '0')}` */
  function IsoCandidate(year: string, month: string, day: string): (s: string)
    ensures |s| == |year| + 1 + |PadStart2(month)| + 1 + |PadStart2(day)|
  {
    year + "-" + PadStart2(month) + "-" + PadStart2(day)
  }

  /** The first candidate the engine accepts, if any. */
  function FirstValid(candidates: seq<string>, jsDate: string -> Option<int>): (r: Option<int>)
    ensures r.Some? <==> exists i :: 0 <= i < |candidates| && jsDate(candidates[i]).Some?
    ensures forall i :: 0 <= i < |candidates| && jsDate(candidates[i]).Some? && (forall j :: 0 <= j < i ==> jsDate(candidates[j]).None?) ==>
      r == jsDate(candidates[i])
  {
    if candidates == [] then None
    else if jsDate(candidates[0]).Some? then jsDate(candidates[0])
    else
      assert forall i :: 1 <= i < |candidates| ==> candidates[i] == candidates[1..][i - 1];
      FirstValid(candidates[1..], jsDate)
  }

  /** The candidates `parseDate` tries for a non-empty cell, in order. */
  function Candidates(s: string): seq<string>
  {
    [s]
    + (match MatchDateParts(s, '/')
       case Some(p) => [IsoCandidate(p.year, p.first, p.second), IsoCandidate(p.year, p.second, p.first)]
       case None => [])
    + (match MatchDateParts(s, '-')
       case Some(p) => [IsoCandidate(p.year, p.second, p.first), IsoCandidate(p.year, p.first, p.second)]
       case None => [])
  }

  /** `parseDate(dateStr)`: a missing or empty cell gives `null`; otherwise the first
      accepted candidate. */
  function ParseDate(cell: Option<string>, jsDate: string -> Option<int>): (r: Option<int>)
    ensures cell.None? || cell.value == "" ==> r.None?
    ensures cell.Some? && cell.value != "" && jsDate(cell.value).Some? ==> r == jsDate(cell.value)
    ensures r.Some? ==> exists c :: c in Candidates(cell.value) && jsDate(c) == r
  {
    if cell.None? || cell.value == "" then None
    else
      var c := Candidates(cell.value);
      var r := FirstValid(c, jsDate);
      assert jsDate(c[0]).Some? ==> r == jsDate(c[0]);
      assert r.Some? ==> exists i :: 0 <= i < |c| && jsDate(c[i]) == r by {
        if r.Some? {
          FirstValidIsSome(c, jsDate);
        }
      }
      r
  }

  lemma {:induction false} FirstValidIsSome(candidates: seq<string>, jsDate: string -> Option<int>)
    requires FirstValid(candidates, jsDate).Some?
    ensures exists i :: 0 <= i < |candidates| && jsDate(candidates[i]) == FirstValid(candidates, jsDate)
  {
    if jsDate(candidates[0]).None? {
      FirstValidIsSome(candidates[1..], jsDate);
      var i :| 0 <= i < |candidates[1..]| && jsDate(candidates[1..][i]) == FirstValid(candidates, jsDate);
      assert candidates[1..][i] == candidates[i + 1];
    }
  }

  /** The candidate list of a string that has only the slash shape. */
  lemma CandidatesOfSlashShape(s: string, p: DateParts)
    requires MatchDateParts(s, '/') == Some(p) && MatchDateParts(s, '-').None?
    ensures Candidates(s) == [s, IsoCandidate(p.year, p.first, p.second), IsoCandidate(p.year, p.second, p.first)]
  {
  }

  /** The candidate list of a string that has only the dash shape. */
  lemma CandidatesOfDashShape(s: string, p: DateParts)
    requires MatchDateParts(s, '/').None? && MatchDateParts(s, '-') == Some(p)
    ensures Candidates(s) == [s, IsoCandidate(p.year, p.second, p.first), IsoCandidate(p.year, p.first, p.second)]
  {
  }

  /** After a rejected first candidate, the result is the second if it is accepted and the
      third otherwise. */
  lemma FirstValidOfThree(c: seq<string>, jsDate: string -> Option<int>)
    requires |c| == 3 && jsDate(c[0]).None?
    ensures jsDate(c[1]).Some? ==> FirstValid(c, jsDate) == jsDate(c[1])
    ensures jsDate(c[1]).None? ==> FirstValid(c, jsDate) == jsDate(c[2])
  {
    assert c[1..][1..] == [c[2]];
    assert [c[2]][1..] == [];
  }

  /** A string of one shape has no separator of the other. */
  lemma OtherSeparatorAbsent(a: string, b: string, y: string, sep: char, other: char)
    requires ShortNumber(a) && ShortNumber(b) && YearNumber(y) && !IsDigit(other) && sep != other
    ensures other !in a + [sep] + b + [sep] + y
  {
    var s := a + [sep] + b + [sep] + y;
    forall i | 0 <= i < |s| ensures s[i] != other {
      if i < |a| { assert s[i] == a[i]; }
      else if i == |a| { }
      else if i < |a| + 1 + |b| { assert s[i] == b[i - |a| - 1]; }
      else if i == |a| + 1 + |b| { }
      else { assert s[i] == y[i - |a| - |b| - 2]; }
    }
  }

  /** A string of one shape does not match the other pattern. */
  lemma OtherShapeDoesNotMatch(a: string, b: string, y: string, sep: char, other: char)
    requires ShortNumber(a) && ShortNumber(b) && YearNumber(y) && !IsDigit(sep) && !IsDigit(other) && sep != other
    ensures MatchDateParts(a + [sep] + b + [sep] + y, other).None?
  {
    var s := a + [sep] + b + [sep] + y;
    assert s[|a|] == sep;
    if MatchDateParts(s, other).Some? {
      var m := MatchDateParts(s, other).value;
      OtherSeparatorAbsent(m.first, m.second, m.year, other, sep);
      assert false;
    }
  }

  /** A slash date the engine does not read directly is read month first, and day first only
      when month first gives an invalid date. */
  lemma SlashDateMonthFirst(a: string, b: string, y: string, jsDate: string -> Option<int>)
    requires ShortNumber(a) && ShortNumber(b) && YearNumber(y)
    requires jsDate(a + "/" + b + "/" + y).None?
    ensures var r := ParseDate(Some(a + "/" + b + "/" + y), jsDate);
      && (jsDate(IsoCandidate(y, a, b)).Some? ==> r == jsDate(IsoCandidate(y, a, b)))
      && (jsDate(IsoCandidate(y, a, b)).None? ==> r == jsDate(IsoCandidate(y, b, a)))
  {
    var s := a + "/" + b + "/" + y;
    assert s == a + ['/'] + b + ['/'] + y;
    MatchDatePartsOf(a, b, y, '/');
    OtherShapeDoesNotMatch(a, b, y, '/', '-');
    CandidatesOfSlashShape(s, DateParts(a, b, y));
    FirstValidOfThree(Candidates(s), jsDate);
  }

  /** A dash date the engine does not read directly is read day first, and month first only
      when day first gives an invalid date. */
  lemma DashDateDayFirst(a: string, b: string, y: string, jsDate: string -> Option<int>)
    requires ShortNumber(a) && ShortNumber(b) && YearNumber(y)
    requires jsDate(a + "-" + b + "-" + y).None?
    ensures var r := ParseDate(Some(a + "-" + b + "-" + y), jsDate);
      && (jsDate(IsoCandidate(y, b, a)).Some? ==> r == jsDate(IsoCandidate(y, b, a)))
      && (jsDate(IsoCandidate(y, b, a)).None? ==> r == jsDate(IsoCandidate(y, a, b)))
  {
    var s := a + "-" + b + "-" + y;
    assert s == a + ['-'] + b + ['-'] + y;
    MatchDatePartsOf(a, b, y, '-');
    OtherShapeDoesNotMatch(a, b, y, '-', '/');
    CandidatesOfDashShape(s, DateParts(a, b, y));
    FirstValidOfThree(Candidates(s), jsDate);
  }
}
