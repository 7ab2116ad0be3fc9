/** A worked run of the badge-text parser on a six-line badge: each field is
    established by its own lemma, and `WorkedExample` assembles the record. */
module OcrParserExample {
  import opened Text
  import opened Types
  import opened OcrParser

  /** The lines of a badge after the pre-filter. */
  const BadgeLines: seq<string> := [
    ".AREA. 12 JAN 2025",
    "A B C",
    "JOHN DOE",
    "SECURITY OFFICER",
    "PT ANGKAS",
    "ID.NO.1234.5678"
  ]

  /** The landmarks: the area line is the first, the company line the fifth,
      so the name line is the third. */
  lemma BadgeLandmarks()
    ensures AreaLineIndex(BadgeLines) == 0
    ensures CompanyLineIndex(BadgeLines) == 4
    ensures NameLineIndex(BadgeLines, 0, 4) == 2
  {
    BadgeAreaLine();
    AreaLineIndexIs(BadgeLines, 0);
    BadgeCompanyLine();
    CompanyLineIndexIs(BadgeLines, 4);
  }

  lemma BadgeAreaLine()
    ensures IsAreaLine(BadgeLines[0])
  {
    AreaLineLiteral();
  }

  lemma AreaLineLiteral()
    ensures IsAreaLine(".AREA. 12 JAN 2025")
  {
    AreaLineUpper();
    AreaLineHasArea();
  }

  lemma AreaLineUpper()
    ensures Upper(".AREA. 12 JAN 2025") == ".AREA. 12 JAN 2025"
  {
    UpperOfUpper(".AREA. 12 JAN 2025");
  }

  lemma AreaLineHasArea()
    ensures Includes(".AREA. 12 JAN 2025", "AREA")
  {
    assert ".AREA. 12 JAN 2025"[1..5] == "AREA";
    IncludesAt(".AREA. 12 JAN 2025", "AREA", 1);
  }

  /** A line whose first character is not `p` or `P` does not start with PT. */
  lemma NotCompanyLine(line: string)
    requires line != [] && line[0] != 'P' && line[0] != 'p'
    ensures !IsCompanyLine(line)
  {
    assert Upper(line)[0] == UpperChar(line[0]);
  }

  lemma BadgeCompanyLine()
    ensures forall j | 0 <= j < 4 :: !IsCompanyLine(BadgeLines[j])
    ensures IsCompanyLine(BadgeLines[4])
  {
    forall j | 0 <= j < 4 ensures !IsCompanyLine(BadgeLines[j]) {
      NotCompanyLine(BadgeLines[j]);
    }
    CompanyLineLiteral(BadgeLines[4]);
  }

  lemma CompanyLineLiteral(line: string)
    requires line == "PT ANGKAS"
    ensures IsCompanyLine(line)
  {
    assert Upper(line)[0] == UpperChar(line[0]) && Upper(line)[1] == UpperChar(line[1]);
    assert Upper(line)[..2] == "PT";
  }

  /** An upper-case line that lacks one character of a pattern does not
      include the pattern in any case. */
  lemma LacksPatternChar(line: string, pattern: string, k: nat)
    requires forall i | 0 <= i < |line| :: !IsAsciiLower(line[i])
    requires k < |pattern| && forall i | 0 <= i < |line| :: line[i] != pattern[k]
    ensures !Includes(Upper(line), pattern)
  {
    UpperOfUpper(line);
    if Includes(line, pattern) {
      var i := IncludesWitness(line, pattern);
    }
  }

  /** No line mentions OTORITAS, so the authority falls back. */
  lemma BadgeAuthority()
    ensures Authority(BadgeLines) == None
  {
    forall j | 0 <= j < |BadgeLines| ensures !IsAuthorityLine(BadgeLines[j]) {
      BadgeLineLacksAuthority(j);
    }
    NoAuthorityLine(BadgeLines);
  }

  /** No line mentions BANDAR UDARA, so the location falls back. */
  lemma BadgeLocation()
    ensures Location(BadgeLines) == None
  {
    forall j | 0 <= j < |BadgeLines| ensures !IsLocationLine(BadgeLines[j]) {
      BadgeLineLacksLocation(j);
    }
    NoLocationLine(BadgeLines);
  }

  lemma BadgeLineLacksAuthority(j: nat)
    requires j < |BadgeLines|
    ensures !IsAuthorityLine(BadgeLines[j])
  {
    var line := BadgeLines[j];
    var k := if j == 0 || j == 1 || j == 4 then 0 else if j == 2 || j == 5 then 1 else 6;
    LacksPatternChar(line, "OTORITAS", k);
  }

  lemma BadgeLineLacksLocation(j: nat)
    requires j < |BadgeLines|
    ensures !IsLocationLine(BadgeLines[j])
  {
    var line := BadgeLines[j];
    var k := if j == 0 || j == 4 then 0 else if j == 1 then 2 else 1;
    LacksPatternChar(line, "BANDAR UDARA", k);
  }

  /** A line with seven non-digits and then a date finds that date. */
  lemma DateAfterSevenChars(s: string)
    requires |s| == 18 && forall q | 0 <= q < 7 :: !IsDigit(s[q])
    requires IsDigit(s[7]) && IsDigit(s[8]) && IsSpace(s[9]) && !IsSpace(s[10])
    requires Upper(s[10..13]) in Months && IsSpace(s[13]) && !IsSpace(s[14])
    requires forall k | 14 <= k < 18 :: IsDigit(s[k])
    ensures FirstDateFrom(s, 0) == Some(s[7..18])
  {
    forall q | 0 <= q < 7 ensures DateMatchAt(s, q).None? {
      NoDateAtNonDigit(s, q);
    }
    DateAt(s, 7);
    FirstDateFromIs(s, 0, 7);
  }

  /** The date on the area line is found at position 7. */
  lemma BadgeDate()
    ensures FirstDateFrom(BadgeLines[0], 0) == Some("12 JAN 2025")
  {
    var s := BadgeLines[0];
    AreaLineMonth(s);
    AreaLineDigitsAndSpaces(s);
    DateAfterSevenChars(s);
    AreaLineDateText(s);
  }

  lemma AreaLineDateText(s: string)
    requires s == ".AREA. 12 JAN 2025"
    ensures s[7..18] == "12 JAN 2025"
  {
  }

  lemma AreaLineMonth(s: string)
    requires s == ".AREA. 12 JAN 2025"
    ensures Upper(s[10..13]) in Months
  {
    assert s[10..13] == "JAN";
    UpperOfUpper("JAN");
  }

  lemma AreaLineDigitsAndSpaces(s: string)
    requires s == ".AREA. 12 JAN 2025"
    ensures |s| == 18 && forall q | 0 <= q < 7 :: !IsDigit(s[q])
    ensures IsDigit(s[7]) && IsDigit(s[8]) && IsSpace(s[9]) && !IsSpace(s[10])
    ensures IsSpace(s[13]) && !IsSpace(s[14]) && forall k | 14 <= k < 18 :: IsDigit(s[k])
  {
  }

  /** The expiry is the date on the area line, already upper-case. */
  lemma BadgeExpiry()
    ensures Expiry(BadgeLines, 0) == Some("12 JAN 2025")
  {
    BadgeDate();
    DateTextIsUpper();
  }

  lemma DateTextIsUpper()
    ensures Upper("12 JAN 2025") == "12 JAN 2025"
  {
    UpperOfUpper("12 JAN 2025");
  }

  /** The zone is the one line between the area line and the name line, and
      its letters are A, B and C. */
  lemma BadgeAreas()
    ensures AreaLetters(Concat(AreaZone(BadgeLines, 0, 2))) == ['A', 'B', 'C']
  {
    var zone := AreaZone(BadgeLines, 0, 2);
    assert zone == [BadgeLines[1]];
    assert Concat(zone) == Concat([]) + BadgeLines[1];
    assert Concat(zone) == BadgeLines[1];
    assert BadgeLines[1] == "A B C";
    LettersOfSpacedLetters(BadgeLines[1]);
  }

  lemma LettersOfSpacedLetters(s: string)
    requires |s| == 5 && s[0] == 'A' && s[1] == ' ' && s[2] == 'B' && s[3] == ' ' && s[4] == 'C'
    ensures AreaLetters(s) == ['A', 'B', 'C']
  {
    SpacedPrefix(s);
    NewLetter(s, 4, ['A', 'B']);
    assert ['A', 'B'] + [s[4]] == ['A', 'B', 'C'];
    assert s[..5] == s;
  }

  /** The first four characters, "A B ", give the letters A and B. */
  lemma SpacedPrefix(s: string)
    requires |s| == 5 && s[0] == 'A' && s[1] == ' ' && s[2] == 'B' && s[3] == ' '
    ensures AreaLetters(s[..4]) == ['A', 'B']
  {
    SpacedFirst(s);
    NewLetter(s, 2, ['A']);
    assert ['A'] + [s[2]] == ['A', 'B'];
    SkipChar(s, 3, ['A', 'B']);
  }

  /** The first two characters, "A ", give the letter A. */
  lemma SpacedFirst(s: string)
    requires |s| == 5 && s[0] == 'A' && s[1] == ' '
    ensures AreaLetters(s[..2]) == ['A']
  {
    assert s[..0] == [];
    NewLetter(s, 0, []);
    assert [] + [s[0]] == ['A'];
    SkipChar(s, 1, ['A']);
  }

  /** A new upper-case letter is appended to the letters so far. */
  lemma NewLetter(s: string, k: nat, before: seq<char>)
    requires k < |s| && AreaLetters(s[..k]) == before
    requires IsUpperLetter(s[k]) && s[k] !in before
    ensures AreaLetters(s[..k + 1]) == before + [s[k]]
  {
    assert s[..k + 1] == s[..k] + [s[k]];
    AreaLettersSnoc(s[..k], s[k]);
  }

  /** A character that is not an upper-case letter changes nothing. */
  lemma SkipChar(s: string, k: nat, before: seq<char>)
    requires k < |s| && AreaLetters(s[..k]) == before && !IsUpperLetter(s[k])
    ensures AreaLetters(s[..k + 1]) == before
  {
    assert s[..k + 1] == s[..k] + [s[k]];
    AreaLettersSnoc(s[..k], s[k]);
  }

  /** A clean two-word line whose second word is a plain word of at most eight
      letters survives both cleanups unchanged. */
  lemma TwoWordLineKept(line: string, a: string, b: string)
    requires a != [] && b != [] && Words([a, b]) && line == a + " " + b && !IsGarbage(b)
    requires !IsLeadNoise(a[0]) && !IsTrailNoise(b[|b| - 1])
    ensures CleanLine(line) == line && CleanedField(Some(line)) == line
  {
    JoinTwo(a, b, " ");
    SplitWsJoin([a, b]);
    JoinEnds([a, b]);
    assert line[0] == a[0] && line[|line| - 1] == b[|b| - 1];
    CleanLineOfClean(line);
    TrimOfTrimmed(line);
    assert KeepTokens([a, b]) == [a, b];
    CleanedFieldOf(line, [a, b], [a, b]);
  }

  lemma NameLineWords(line: string)
    requires line == "JOHN DOE"
    ensures Words(["JOHN", "DOE"]) && line == "JOHN" + " " + "DOE" && !IsGarbage("DOE")
  {
  }

  lemma PositionLineWords(line: string)
    requires line == "SECURITY OFFICER"
    ensures Words(["SECURITY", "OFFICER"]) && line == "SECURITY" + " " + "OFFICER" && !IsGarbage("OFFICER")
  {
  }

  lemma CompanyLineWords(line: string)
    requires line == "PT ANGKAS"
    ensures Words(["PT", "ANGKAS"]) && line == "PT" + " " + "ANGKAS" && !IsGarbage("ANGKAS")
  {
  }

  /** The name is the line two above the company line, kept whole. */
  lemma BadgeName()
    ensures CleanedField(BlockLine(BadgeLines, 4, 2)) == "JOHN DOE"
  {
    NameLineWords(BadgeLines[2]);
    TwoWordLineKept(BadgeLines[2], "JOHN", "DOE");
  }

  /** The position is the line just above the company line, kept whole. */
  lemma BadgePosition()
    ensures CleanedField(BlockLine(BadgeLines, 4, 1)) == "SECURITY OFFICER"
  {
    PositionLineWords(BadgeLines[3]);
    TwoWordLineKept(BadgeLines[3], "SECURITY", "OFFICER");
  }

  /** The company line is kept by the cleanup and then corrected. */
  lemma BadgeCompany()
    ensures FinalCompany(BadgeLines, 4) == "PT ANGKASA PURA"
  {
    CompanyLineWords(BadgeLines[4]);
    TwoWordLineKept(BadgeLines[4], "PT", "ANGKAS");
    CompanyLineCorrected(BadgeLines[4]);
  }

  lemma CompanyLineCorrected(company: string)
    requires company == "PT ANGKAS"
    ensures CorrectFrom(company, 0) == "PT ANGKASA PURA"
  {
    CompanyLineMisread(company);
    CorrectionsClosedForm(company);
  }

  lemma CompanyLineMisread(company: string)
    requires company == "PT ANGKAS"
    ensures Includes(Upper(company), "PT ANGKAS")
  {
    AngkasIsUpper(company);
    assert company[0..9] == company;
    IncludesAt(company, "PT ANGKAS", 0);
  }

  lemma AngkasIsUpper(company: string)
    requires company == "PT ANGKAS"
    ensures Upper(company) == company
  {
    UpperOfUpper(company);
  }

  /** The bottom line is not in the company block and is its own ID. */
  lemma BadgeId()
    ensures FinalId(BadgeLines, 4) == Some("ID.NO.1234.5678")
  {
    BadgeIdLine();
    FinalIdOfBottomLine(BadgeLines, 4, "ID.NO.1234.5678");
    IdLineNotRewritten("ID.NO.1234.5678");
  }

  lemma BadgeIdLine()
    ensures IdCandidate(BadgeLines[5]) == Some("ID.NO.1234.5678")
  {
    var line := BadgeLines[5];
    IdLineShape(line);
    IdLineDots(line);
    IdCandidateOfWholeLine(line, 6);
  }

  lemma IdLineShape(line: string)
    requires line == "ID.NO.1234.5678"
    ensures |line| == 15 && IsAsciiLetter(line[0]) && NoSpace(line) && IsDigit(line[6])
    ensures forall i | 0 <= i < 6 :: IsIdLead(line[i])
    ensures forall i | 6 < i < |line| :: IsDigitOrDot(line[i])
    ensures forall i | 0 <= i < |line| :: !IsAsciiLower(line[i])
  {
  }

  lemma IdLineDots(line: string)
    requires line == "ID.NO.1234.5678"
    ensures Dots(line) == 3
  {
    DotsSplit(line, 10);
    DotsTwoAt(line[..10], 2, 5);
    DotsNone(line[11..]);
  }

  lemma IdLineNotRewritten(line: string)
    requires line == "ID.NO.1234.5678"
    ensures FixIdNumber(line) == line
  {
    assert line[..6] == "ID.NO.";
  }

  /** The whole record: areas A, B and C between the AREA line and the name,
      the block above the company line, the corrected company and the dotted
      ID from the bottom line; the header fields fall back. */
  lemma WorkedExample()
    ensures ParseLines(BadgeLines) == ParsedCard(
      "KANTOR OTORITAS", "BANDAR UDARA", "12 JAN 2025", ['A', 'B', 'C'],
      "JOHN DOE", "SECURITY OFFICER", "PT ANGKASA PURA", "ID.NO.1234.5678")
  {
    WorkedHeader();
    WorkedAreaFields();
    WorkedBlock();
    WorkedCompanyAndId();
  }

  lemma WorkedHeader()
    ensures ParseLines(BadgeLines).issuingAuthority == "KANTOR OTORITAS"
    ensures ParseLines(BadgeLines).location == "BANDAR UDARA"
  {
    BadgeAuthority();
    BadgeLocation();
  }

  lemma WorkedAreaFields()
    ensures ParseLines(BadgeLines).expiryDate == "12 JAN 2025"
    ensures ParseLines(BadgeLines).accessAreas == ['A', 'B', 'C']
  {
    BadgeLandmarks();
    BadgeExpiry();
    ParseLinesExpiry(BadgeLines, 0, "12 JAN 2025");
    BadgeAreas();
    ParseLinesAreas(BadgeLines, 0, 4, 2, ['A', 'B', 'C']);
  }

  lemma WorkedBlock()
    ensures ParseLines(BadgeLines).name == "JOHN DOE"
    ensures ParseLines(BadgeLines).position == "SECURITY OFFICER"
  {
    BadgeLandmarks();
    BadgeName();
    ParseLinesName(BadgeLines, 4, "JOHN DOE");
    BadgePosition();
    ParseLinesPosition(BadgeLines, 4, "SECURITY OFFICER");
  }

  lemma WorkedCompanyAndId()
    ensures ParseLines(BadgeLines).company == "PT ANGKASA PURA"
    ensures ParseLines(BadgeLines).idNumber == "ID.NO.1234.5678"
  {
    BadgeLandmarks();
    BadgeCompany();
    ParseLinesCompany(BadgeLines, 4, "PT ANGKASA PURA");
    BadgeId();
    ParseLinesId(BadgeLines, 4, "ID.NO.1234.5678");
  }
}
