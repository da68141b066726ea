/**
 * The school grading tool: the letter grade of a score, and the per-line
 * rules that turn the lines of a "id, name, score" file into students,
 * skipping blank lines and reporting malformed ones without stopping.
 */
module Grading {
  import opened Optional

  datatype Student = Student(id: int, fullName: string, score: int)

  /** The grade bands; every score outside 50..100 gets an F. */
  function GetGrade(score: int): (g: string)
    ensures g == "A" <==> 80 <= score <= 100
    ensures g == "B" <==> 70 <= score < 80
    ensures g == "C" <==> 60 <= score < 70
    ensures g == "D" <==> 50 <= score < 60
    ensures g == "F" <==> score < 50 || score > 100
  {
    if 80 <= score <= 100 then "A"
    else if 70 <= score < 80 then "B"
    else if 60 <= score < 70 then "C"
    else if 50 <= score < 60 then "D"
    else "F"
  }

  /** A, B, C, D, F as 4 down to 0. */
  function Rank(g: string): int {
    if g == "A" then 4 else if g == "B" then 3 else if g == "C" then 2 else if g == "D" then 1 else 0
  }

  /** Within 0..100 a higher score never gets a lower grade. */
  lemma GradeMonotone(s1: int, s2: int)
    requires 0 <= s1 <= s2 <= 100
    ensures Rank(GetGrade(s1)) <= Rank(GetGrade(s2))
  {
  }

  // ---------------------------------------------------------------------------
  // Text helpers: white space, trimming, splitting, integer parsing
  // ---------------------------------------------------------------------------

  /**
   * char.IsWhiteSpace: tab through carriage return, space, U+0085, U+00A0 and
   * the Unicode space, line and paragraph separators.
   */
  predicate IsWhiteSpace(c: char) {
    || c == ' ' || c == '\t' || c == '\n' || c == '\r' || c == '\U{000B}' || c == '\U{000C}'
    || c == '\U{0085}' || c == '\U{00A0}' || c == '\U{1680}'
    || ('\U{2000}' <= c <= '\U{200A}')
    || c == '\U{2028}' || c == '\U{2029}' || c == '\U{202F}' || c == '\U{205F}' || c == '\U{3000}'
  }

  /** string.IsNullOrWhiteSpace for a line that is not null. */
  predicate IsBlank(s: string) {
    forall i | 0 <= i < |s| :: IsWhiteSpace(s[i])
  }

  function TrimStart(s: string): (r: string)
    ensures |r| <= |s| && r == s[|s| - |r|..]
    ensures forall i | 0 <= i < |s| - |r| :: IsWhiteSpace(s[i])
    ensures r == [] || !IsWhiteSpace(r[0])
    decreases |s|
  {
    if s != [] && IsWhiteSpace(s[0]) then TrimStart(s[1..]) else s
  }

  function TrimEnd(s: string): (r: string)
    ensures |r| <= |s| && r == s[..|r|]
    ensures forall i | |r| <= i < |s| :: IsWhiteSpace(s[i])
    ensures r == [] || !IsWhiteSpace(r[|r| - 1])
    decreases |s|
  {
    if s != [] && IsWhiteSpace(s[|s| - 1]) then TrimEnd(s[..|s| - 1]) else s
  }

  /** No white space at either end. */
  predicate Trimmed(s: string) {
    s == [] || (!IsWhiteSpace(s[0]) && !IsWhiteSpace(s[|s| - 1]))
  }

  /** A prefix of a suffix is a middle slice. */
  lemma MiddleSlice(s: string, t: string, u: string, i: nat)
    requires i <= |s| && t == s[i..]
    requires |u| <= |t| && u == t[..|u|]
    ensures u == s[i..i + |u|]
  {
  }

  /** string.Trim: drops white space at both ends and nothing else. */
  function Trim(s: string): (r: string)
    ensures |r| <= |s|
    ensures Trimmed(r)
    ensures r == [] <==> IsBlank(s)
  {
    var t := TrimStart(s);
    var u := TrimEnd(t);
    assert u == [] ==> t == [];
    assert u != [] ==> !IsBlank(s) && u[0] == t[0] by {
      if u != [] {
        assert u[0] == t[0] == s[|s| - |t|];
      }
    }
    u
  }

  /** How many characters Trim drops at the front. */
  ghost function TrimOffset(s: string): nat {
    |s| - |TrimStart(s)|
  }

  /** The trim is the slice of the input that starts at TrimOffset. */
  lemma TrimIsSlice(s: string)
    ensures TrimOffset(s) + |Trim(s)| <= |s|
    ensures Trim(s) == s[TrimOffset(s)..TrimOffset(s) + |Trim(s)|]
  {
    MiddleSlice(s, TrimStart(s), Trim(s), TrimOffset(s));
  }

  /** Everything before the trim is white space. */
  lemma TrimDropsBlankFront(s: string)
    ensures forall m | 0 <= m < TrimOffset(s) :: IsWhiteSpace(s[m])
  {
  }

  /** Everything after the trim is white space. */
  lemma TrimDropsBlankBack(s: string)
    ensures forall m | TrimOffset(s) + |Trim(s)| <= m < |s| :: IsWhiteSpace(s[m])
  {
    var t := TrimStart(s);
    var u := TrimEnd(t);
    var i := |s| - |t|;
    assert Trim(s) == u;
    forall m | i + |u| <= m < |s|
      ensures IsWhiteSpace(s[m])
    {
      assert t[m - i] == s[m];
    }
  }

  /**
   * The trim is the slice of the input that starts at TrimOffset, with only
   * white space before and after it.
   */
  lemma TrimKeepsMiddle(s: string)
    ensures TrimOffset(s) + |Trim(s)| <= |s|
    ensures Trim(s) == s[TrimOffset(s)..TrimOffset(s) + |Trim(s)|]
    ensures forall m | 0 <= m < TrimOffset(s) :: IsWhiteSpace(s[m])
    ensures forall m | TrimOffset(s) + |Trim(s)| <= m < |s| :: IsWhiteSpace(s[m])
  {
    TrimIsSlice(s);
    TrimDropsBlankFront(s);
    TrimDropsBlankBack(s);
  }

  /** A string with no white space at either end is its own trim. */
  lemma TrimOfTrimmed(s: string)
    requires Trimmed(s)
    ensures Trim(s) == s
  {
    assert TrimStart(s) == s;
    assert TrimEnd(s) == s;
  }

  lemma TrimIdempotent(s: string)
    ensures Trim(Trim(s)) == Trim(s)
  {
    TrimOfTrimmed(Trim(s));
  }

  lemma {:induction false} TrimStartAfterWhiteSpace(w: string, s: string)
    requires IsBlank(w)
    ensures TrimStart(w + s) == TrimStart(s)
    decreases |w|
  {
    if w != [] {
      assert (w + s)[0] == w[0];
      assert (w + s)[1..] == w[1..] + s;
      TrimStartAfterWhiteSpace(w[1..], s);
    } else {
      assert w + s == s;
    }
  }

  /** Leading white space does not change the trim. */
  lemma TrimAfterWhiteSpace(w: string, s: string)
    requires IsBlank(w)
    ensures Trim(w + s) == Trim(s)
  {
    TrimStartAfterWhiteSpace(w, s);
  }

  /** string.Split on one separator: the pieces between separators, empty ones included. */
  function Split(s: string, sep: char): (r: seq<string>)
    ensures |r| >= 1
    ensures forall i | 0 <= i < |r| :: sep !in r[i]
    decreases |s|
  {
    if s == [] then [""]
    else if s[0] == sep then [""] + Split(s[1..], sep)
    else
      var rest := Split(s[1..], sep);
      [[s[0]] + rest[0]] + rest[1..]
  }

  /** The pieces glued back with the separator between them. */
  function Join(fields: seq<string>, sep: char): string
    requires |fields| >= 1
    decreases |fields|
  {
    if |fields| == 1 then fields[0] else fields[0] + [sep] + Join(fields[1..], sep)
  }

  /** Splitting loses nothing: the pieces join back to the line. */
  lemma {:induction false} JoinSplit(s: string, sep: char)
    ensures Join(Split(s, sep), sep) == s
    decreases |s|
  {
    if s != [] {
      JoinSplit(s[1..], sep);
      if s[0] != sep {
        var rest := Split(s[1..], sep);
        if |rest| > 1 {
          assert ([[s[0]] + rest[0]] + rest[1..])[1..] == rest[1..];
        }
      } else {
        assert ([""] + Split(s[1..], sep))[1..] == Split(s[1..], sep);
      }
    }
  }

  lemma {:induction false} SplitPrefix(c: char, s: string, sep: char)
    requires c != sep
    ensures Split([c] + s, sep) == [[c] + Split(s, sep)[0]] + Split(s, sep)[1..]
  {
    assert ([c] + s)[1..] == s;
  }

  /** Pieces without the separator come back out of the split unchanged. */
  lemma {:induction false} SplitJoin(fields: seq<string>, sep: char)
    requires |fields| >= 1
    requires forall i | 0 <= i < |fields| :: sep !in fields[i]
    ensures Split(Join(fields, sep), sep) == fields
    decreases |fields|, |fields[0]|
  {
    var f := fields[0];
    if |fields| == 1 {
      if f != [] {
        SplitJoin([f[1..]], sep);
        SplitPrefix(f[0], f[1..], sep);
        assert [f[0]] + f[1..] == f;
      }
    } else if f == [] {
      var tail := Join(fields[1..], sep);
      assert Join(fields, sep) == [sep] + tail;
      assert ([sep] + tail)[1..] == tail;
      SplitJoin(fields[1..], sep);
      assert fields == [""] + fields[1..];
    } else {
      var fields' := [f[1..]] + fields[1..];
      assert fields'[1..] == fields[1..];
      assert Join(fields, sep) == [f[0]] + Join(fields', sep);
      SplitJoin(fields', sep);
      SplitPrefix(f[0], Join(fields', sep), sep);
      assert [f[0]] + f[1..] == f;
    }
  }

  const Int32Min: int := -0x8000_0000
  const Int32Max: int := 0x7FFF_FFFF

  predicate IsDigit(c: char) {
    '0' <= c <= '9'
  }

  predicate AllDigits(s: string) {
    forall i | 0 <= i < |s| :: IsDigit(s[i])
  }

  /** The value of a string of decimal digits, most significant first. */
  function DigitsValue(s: string): (n: nat)
    requires AllDigits(s)
    decreases |s|
  {
    if s == [] then 0 else DigitsValue(s[..|s| - 1]) * 10 + (s[|s| - 1] as int - '0' as int)
  }

  /**
   * int.TryParse on a trimmed field: an optional sign, at least one digit,
   * and a value within the 32-bit range.
   */
  function TryParseInt(s: string): (r: Option<int>)
    ensures r.Some? ==> Int32Min <= r.value <= Int32Max
    ensures s == [] || s == "-" || s == "+" ==> r.None?
    ensures r.Some? ==> forall i | 0 <= i < |s| :: IsDigit(s[i]) || (i == 0 && (s[i] == '-' || s[i] == '+'))
  {
    var negative := |s| > 0 && s[0] == '-';
    var digits := if |s| > 0 && (s[0] == '-' || s[0] == '+') then s[1..] else s;
    if digits == [] || !AllDigits(digits) then None
    else
      var v := if negative then 0 - DigitsValue(digits) else DigitsValue(digits) as int;
      if Int32Min <= v <= Int32Max then Some(v) else None
  }

  /**
   * The value TryParseInt gives for each well-formed field: the digits' value
   * with the sign applied when it is within 32 bits, and failure otherwise.
   * With the postconditions of TryParseInt (only a sign and digits can
   * succeed), this determines its result on every input.
   */
  lemma TryParseIntValue(s: string)
    ensures s != [] && AllDigits(s) ==>
      TryParseInt(s) == if DigitsValue(s) <= Int32Max then Some(DigitsValue(s)) else None
    ensures |s| > 1 && s[0] == '+' && AllDigits(s[1..]) ==>
      TryParseInt(s) == if DigitsValue(s[1..]) <= Int32Max then Some(DigitsValue(s[1..])) else None
    ensures |s| > 1 && s[0] == '-' && AllDigits(s[1..]) ==>
      TryParseInt(s) == if DigitsValue(s[1..]) <= -Int32Min then Some(0 - DigitsValue(s[1..])) else None
  {
    if s != [] && AllDigits(s) {
      assert IsDigit(s[0]);
    }
  }

  /** Decimal rendering of a natural number, without leading zeros. */
  function ShowNat(n: nat): (s: string)
    ensures |s| >= 1 && AllDigits(s)
    decreases n
  {
    if n < 10 then [('0' as int + n) as char]
    else ShowNat(n / 10) + [('0' as int + n % 10) as char]
  }

  /** Decimal rendering of an integer, with '-' for negatives. */
  function ShowInt(n: int): string {
    if n < 0 then "-" + ShowNat(-n) else ShowNat(n)
  }

  lemma {:induction false} ShowNatValue(n: nat)
    ensures DigitsValue(ShowNat(n)) == n
    decreases n
  {
    if n >= 10 {
      ShowNatValue(n / 10);
      var s := ShowNat(n);
      assert s[..|s| - 1] == ShowNat(n / 10);
    }
  }

  /** Unsigned digits parse to their value when it fits. */
  lemma ParseDigits(d: string)
    requires d != [] && AllDigits(d) && DigitsValue(d) <= Int32Max
    ensures TryParseInt(d) == Some(DigitsValue(d))
  {
    assert IsDigit(d[0]);
  }

  /** A minus sign before digits negates their value, down to the 32-bit minimum. */
  lemma ParseNegatedDigits(d: string)
    requires d != [] && AllDigits(d) && DigitsValue(d) <= -Int32Min
    ensures TryParseInt("-" + d) == Some(0 - DigitsValue(d))
  {
    var s := "-" + d;
    assert s[0] == '-' && s[1..] == d;
  }

  /** Every 32-bit integer reads back from its decimal rendering. */
  lemma ParseShowInt(n: int)
    requires Int32Min <= n <= Int32Max
    ensures TryParseInt(ShowInt(n)) == Some(n)
  {
    if n < 0 {
      ShowNatValue(-n);
      ParseNegatedDigits(ShowNat(-n));
    } else {
      ShowNatValue(n);
      ParseDigits(ShowNat(n));
    }
  }

  // ---------------------------------------------------------------------------
  // One line of the input file
  // ---------------------------------------------------------------------------

  /** Why a line was skipped. */
  datatype LineError = MissingField(found: nat) | InvalidIdFormat | InvalidScoreFormat

  datatype LineResult = Blank | Rejected(error: LineError) | Accepted(student: Student)

  /**
   * The rules for one line: blank lines are passed over; otherwise exactly
   * three comma-separated fields, an integer id, then an integer score.
   */
  function ParseLine(line: string): (r: LineResult)
    ensures r.Blank? <==> IsBlank(line)
    ensures !IsBlank(line) && |Split(line, ',')| != 3 ==> r == Rejected(MissingField(|Split(line, ',')|))
    ensures r == Rejected(InvalidIdFormat) <==>
      !IsBlank(line) && |Split(line, ',')| == 3 && TryParseInt(Trim(Split(line, ',')[0])).None?
    ensures r == Rejected(InvalidScoreFormat) <==>
      && !IsBlank(line) && |Split(line, ',')| == 3
      && TryParseInt(Trim(Split(line, ',')[0])).Some? && TryParseInt(Trim(Split(line, ',')[2])).None?
    ensures r.Accepted? <==>
      && !IsBlank(line) && |Split(line, ',')| == 3
      && TryParseInt(Trim(Split(line, ',')[0])).Some? && TryParseInt(Trim(Split(line, ',')[2])).Some?
    ensures r.Accepted? ==>
      var f := Split(line, ',');
      && |f| == 3
      && TryParseInt(Trim(f[0])) == Some(r.student.id)
      && TryParseInt(Trim(f[2])) == Some(r.student.score)
      && r.student.fullName == Trim(f[1])
      && ',' !in r.student.fullName
  {
    if IsBlank(line) then Blank
    else
      var fields := Split(line, ',');
      if |fields| != 3 then Rejected(MissingField(|fields|))
      else match TryParseInt(Trim(fields[0]))
        case None => Rejected(InvalidIdFormat)
        case Some(id) =>
          match TryParseInt(Trim(fields[2]))
          case None => Rejected(InvalidScoreFormat)
          case Some(score) => Accepted(Student(id, Trim(fields[1]), score))
  }

  /** The line layout of the sample input file: "id, name, score". */
  function FormatLine(s: Student): string {
    ShowInt(s.id) + ", " + s.fullName + ", " + ShowInt(s.score)
  }

  lemma ShowIntShape(n: int)
    ensures ShowInt(n) != [] && ',' !in ShowInt(n)
    ensures Trimmed(ShowInt(n))
  {
    var d := ShowNat(if n < 0 then -n else n);
    assert IsDigit(d[0]) && IsDigit(d[|d| - 1]);
    if n < 0 {
      assert ShowInt(n) == "-" + d;
    }
    assert forall i | 0 <= i < |ShowInt(n)| :: IsDigit(ShowInt(n)[i]) || ShowInt(n)[i] == '-';
  }

  /** The first field, a rendered id, reads back as the id. */
  lemma IdFieldReadsBack(n: int)
    requires Int32Min <= n <= Int32Max
    ensures TryParseInt(Trim(ShowInt(n))) == Some(n)
  {
    ShowIntShape(n);
    TrimOfTrimmed(ShowInt(n));
    ParseShowInt(n);
  }

  /** A field written after ", " loses the space when trimmed. */
  lemma SpacedFieldReadsBack(f: string)
    requires Trimmed(f)
    ensures Trim(" " + f) == f
  {
    assert IsBlank(" ");
    TrimAfterWhiteSpace(" ", f);
    TrimOfTrimmed(f);
  }

  /** The last field, a rendered score after ", ", reads back as the score. */
  lemma ScoreFieldReadsBack(n: int)
    requires Int32Min <= n <= Int32Max
    ensures TryParseInt(Trim(" " + ShowInt(n))) == Some(n)
  {
    ShowIntShape(n);
    SpacedFieldReadsBack(ShowInt(n));
    ParseShowInt(n);
  }

  /**
   * A student written in the sample-file layout reads back as the same
   * student, when id and score fit in 32 bits and the name is trimmed and
   * has no comma.
   */
  lemma ParseFormatLine(s: Student)
    requires Int32Min <= s.id <= Int32Max && Int32Min <= s.score <= Int32Max
    requires ',' !in s.fullName
    requires Trimmed(s.fullName)
    ensures ParseLine(FormatLine(s)) == Accepted(s)
  {
    var f := Split(FormatLine(s), ',');
    FormatLineFields(s);
    IdFieldReadsBack(s.id);
    SpacedFieldReadsBack(s.fullName);
    ScoreFieldReadsBack(s.score);
    assert TryParseInt(Trim(f[0])) == Some(s.id);
    assert TryParseInt(Trim(f[2])) == Some(s.score);
  }

  /** The sample layout splits into the three rendered fields and is never blank. */
  lemma FormatLineFields(s: Student)
    requires ',' !in s.fullName
    ensures Split(FormatLine(s), ',') == [ShowInt(s.id), " " + s.fullName, " " + ShowInt(s.score)]
    ensures !IsBlank(FormatLine(s))
  {
    var a, b, c := ShowInt(s.id), " " + s.fullName, " " + ShowInt(s.score);
    ShowIntShape(s.id);
    ShowIntShape(s.score);
    var line := FormatLine(s);
    assert line == Join([a, b, c], ',') by {
      assert [a, b, c][1..] == [b, c];
      assert [b, c][1..] == [c];
      assert Join([c], ',') == c;
      assert Join([b, c], ',') == b + [','] + c;
      assert Join([a, b, c], ',') == a + [','] + (b + [','] + c);
      assert line == a + [','] + b + [','] + c;
    }
    assert ',' !in b;
    assert ',' !in c;
    SplitJoin([a, b, c], ',');
    assert line[0] == a[0];
  }

  // ---------------------------------------------------------------------------
  // The whole file
  // ---------------------------------------------------------------------------

  /** The students of the accepted lines, in input order. */
  function Students(lines: seq<string>): seq<Student>
    decreases |lines|
  {
    if lines == [] then []
    else
      var front := Students(lines[..|lines| - 1]);
      match ParseLine(lines[|lines| - 1])
      case Accepted(s) => front + [s]
      case _ => front
  }

  /** The rejected lines, each with its 1-based line number (blank lines are counted). */
  function Skipped(lines: seq<string>): seq<(nat, LineError)>
    decreases |lines|
  {
    if lines == [] then []
    else
      var front := Skipped(lines[..|lines| - 1]);
      match ParseLine(lines[|lines| - 1])
      case Rejected(e) => front + [(|lines|, e)]
      case _ => front
  }

  /** A bad line does not stop processing: the file's students are those of its parts. */
  lemma {:induction false} StudentsAppend(a: seq<string>, b: seq<string>)
    ensures Students(a + b) == Students(a) + Students(b)
    decreases |b|
  {
    if b != [] {
      var b' := b[..|b| - 1];
      assert (a + b)[..|a + b| - 1] == a + b';
      assert (a + b)[|a + b| - 1] == b[|b| - 1];
      StudentsAppend(a, b');
    } else {
      assert a + b == a;
    }
  }

  /** A line on its own contributes its student if accepted, and nothing otherwise. */
  lemma StudentsOfLine(line: string)
    ensures Students([line]) == if ParseLine(line).Accepted? then [ParseLine(line).student] else []
  {
    assert [line][..0] == [];
  }

  /** The position of the line that the `k`-th student read was taken from. */
  ghost function SourceLine(lines: seq<string>, k: nat): nat
    requires k < |Students(lines)|
    decreases |lines|
  {
    var n := |lines| - 1;
    if k < |Students(lines[..n])| then SourceLine(lines[..n], k) else n
  }

  /** A student read before the last line keeps its place and its source line. */
  lemma SourceLineBeforeLast(lines: seq<string>, k: nat)
    requires lines != [] && k < |Students(lines[..|lines| - 1])|
    ensures k < |Students(lines)| && Students(lines)[k] == Students(lines[..|lines| - 1])[k]
    ensures SourceLine(lines, k) == SourceLine(lines[..|lines| - 1], k)
  {
  }

  /** A student read past those of the earlier lines comes from the last line. */
  lemma SourceLineLast(lines: seq<string>, k: nat)
    requires k < |Students(lines)| && k >= |Students(lines[..|lines| - 1])|
    ensures SourceLine(lines, k) == |lines| - 1
    ensures ParseLine(lines[|lines| - 1]) == Accepted(Students(lines)[k])
  {
  }

  /** Every student read comes from an accepted line of the file, found at SourceLine. */
  lemma {:induction false} StudentsFromAcceptedLines(lines: seq<string>, k: nat)
    requires k < |Students(lines)|
    ensures SourceLine(lines, k) < |lines|
    ensures ParseLine(lines[SourceLine(lines, k)]) == Accepted(Students(lines)[k])
    decreases |lines|
  {
    var front := lines[..|lines| - 1];
    if k < |Students(front)| {
      SourceLineBeforeLast(lines, k);
      StudentsFromAcceptedLines(front, k);
      assert lines[SourceLine(front, k)] == front[SourceLine(front, k)];
    } else {
      SourceLineLast(lines, k);
    }
  }

  /** Reading one more line extends the students and the skipped lines by what that line gives. */
  lemma NextLine(lines: seq<string>, k: nat)
    requires k < |lines|
    ensures Students(lines[..k + 1]) ==
      Students(lines[..k]) + (if ParseLine(lines[k]).Accepted? then [ParseLine(lines[k]).student] else [])
    ensures Skipped(lines[..k + 1]) ==
      Skipped(lines[..k]) + (if ParseLine(lines[k]).Rejected? then [(k + 1, ParseLine(lines[k]).error)] else [])
  {
    assert lines[..k + 1][..k] == lines[..k];
  }

  /** A blank line is passed over: it adds no student and no skipped-line report. */
  lemma BlankLineSkipped(lines: seq<string>, k: nat)
    requires k < |lines| && IsBlank(lines[k])
    ensures Students(lines[..k + 1]) == Students(lines[..k])
    ensures Skipped(lines[..k + 1]) == Skipped(lines[..k])
  {
    NextLine(lines, k);
  }

  /**
   * Lines made only of Unicode space, line or paragraph separators count as
   * blank, as they do for string.IsNullOrWhiteSpace.
   */
  lemma UnicodeSpaceLinesBlank()
    ensures ParseLine("\U{3000}") == Blank
    ensures ParseLine(" \U{2028}\U{1680}\t\U{2009}") == Blank
  {
    assert IsBlank("\U{3000}");
    assert IsBlank(" \U{2028}\U{1680}\t\U{2009}");
  }

  /** A zero-width space is not white space: a line holding one is a line with one field. */
  lemma ZeroWidthSpaceLineRejected()
    ensures ParseLine("\U{200B}") == Rejected(MissingField(1))
  {
    assert !IsWhiteSpace("\U{200B}"[0]);
    SplitPrefix('\U{200B}', "", ',');
    assert ['\U{200B}'] + "" == "\U{200B}";
    assert Split("", ',') == [""];
  }

  /**
   * ReadStudentsFromFile. `file` is None when the file does not exist, in
   * which case nothing is read.
   */
  method ReadStudentsFromFile(file: Option<seq<string>>) returns (students: seq<Student>, skipped: seq<(nat, LineError)>)
    ensures file.None? ==> students == [] && skipped == []
    ensures file.Some? ==> students == Students(file.value) && skipped == Skipped(file.value)
  {
    students, skipped := [], [];
    if file.None? {
      return;
    }
    var lines := file.value;
    var lineNumber := 0;
    while lineNumber < |lines|
      invariant 0 <= lineNumber <= |lines|
      invariant students == Students(lines[..lineNumber])
      invariant skipped == Skipped(lines[..lineNumber])
    {
      NextLine(lines, lineNumber);
      lineNumber := lineNumber + 1;
      var line := lines[lineNumber - 1];
      if IsBlank(line) {
        continue;
      }
      var fields := Split(line, ',');
      if |fields| != 3 {
        skipped := skipped + [(lineNumber, MissingField(|fields|))];
        continue;
      }
      var id := TryParseInt(Trim(fields[0]));
      if id.None? {
        skipped := skipped + [(lineNumber, InvalidIdFormat)];
        continue;
      }
      var score := TryParseInt(Trim(fields[2]));
      if score.None? {
        skipped := skipped + [(lineNumber, InvalidScoreFormat)];
        continue;
      }
      students := students + [Student(id.value, Trim(fields[1]), score.value)];
    }
    assert lines[..|lines|] == lines;
  }
}
