/** The badge-text field extractor (services/ocrParser.ts): turns the raw text
    of a recognised badge into a `ParsedCard` by locating landmark lines and
    reading the other fields at fixed offsets from them. Every pass has a
    specification function; `ParseOcrResult` runs the passes imperatively and
    is proved equal to `Parse`. */
module OcrParser {
  import opened Text
  import opened Types

  // ---------------------------------------------------------------------
  // Line pre-filter
  // ---------------------------------------------------------------------

  /** The trimmed lines kept by the pre-filter: length 1 to 49. */
  function KeepLines(raw: seq<string>): (lines: seq<string>)
    ensures |lines| <= |raw|
  {
    if raw == [] then []
    else
      var t := Trim(raw[0]);
      (if 0 < |t| < 50 then [t] else []) + KeepLines(raw[1..])
  }

  /** Every kept line is trimmed and has 1 to 49 characters. */
  lemma {:induction false} KeepLinesShape(raw: seq<string>)
    ensures forall k | 0 <= k < |KeepLines(raw)| ::
      0 < |KeepLines(raw)[k]| < 50 && IsTrimmed(KeepLines(raw)[k])
    decreases |raw|
  {
    if raw != [] {
      KeepLinesShape(raw[1..]);
      var t := Trim(raw[0]);
      assert IsTrimmed(t);
      var head := if 0 < |t| < 50 then [t] else [];
      var rest := KeepLines(raw[1..]);
      assert KeepLines(raw) == head + rest;
      forall k | 0 <= k < |head + rest|
        ensures 0 < |(head + rest)[k]| < 50 && IsTrimmed((head + rest)[k])
      {
        if k < |head| {
          assert (head + rest)[k] == t;
        } else {
          assert (head + rest)[k] == rest[k - |head|];
        }
      }
    }
  }

  /** `text.split('\n').map(trim).filter(length in 1..49)`. */
  function PreFilter(text: string): seq<string> {
    KeepLines(SplitOn(text, '\n'))
  }

  /** A line survives the pre-filter exactly when it is the trimmed form of a
      raw line and has 1 to 49 characters. */
  lemma {:induction false} KeepLinesMembership(raw: seq<string>, line: string)
    ensures line in KeepLines(raw) <==>
      (0 < |line| < 50 && exists k | 0 <= k < |raw| :: Trim(raw[k]) == line)
    decreases |raw|
  {
    if raw != [] {
      KeepLinesMembership(raw[1..], line);
      var t := Trim(raw[0]);
      if exists k | 0 <= k < |raw| :: Trim(raw[k]) == line {
        var k :| 0 <= k < |raw| && Trim(raw[k]) == line;
        if k > 0 { assert Trim(raw[1..][k - 1]) == line; }
      }
      if exists k | 0 <= k < |raw| - 1 :: Trim(raw[1..][k]) == line {
        var k :| 0 <= k < |raw| - 1 && Trim(raw[1..][k]) == line;
        assert Trim(raw[k + 1]) == line;
      }
    }
  }

  /** The filter keeps the raw lines' order: the kept lines of a concatenation
      are the kept lines of each part, one after the other. */
  lemma {:induction false} KeepLinesAppend(a: seq<string>, b: seq<string>)
    ensures KeepLines(a + b) == KeepLines(a) + KeepLines(b)
    decreases |a|
  {
    if a != [] {
      var head := if 0 < |Trim(a[0])| < 50 then [Trim(a[0])] else [];
      assert (a + b)[0] == a[0] && (a + b)[1..] == a[1..] + b;
      assert KeepLines(a + b) == head + KeepLines(a[1..] + b);
      KeepLinesAppend(a[1..], b);
      assert KeepLines(a) == head + KeepLines(a[1..]);
    } else {
      assert a + b == b;
    }
  }

  /** A 50-character line is dropped, while a 49-character one is kept. */
  lemma LongLineDropped(raw: string)
    requires IsTrimmed(raw)
    ensures |raw| == 50 ==> KeepLines([raw]) == []
    ensures 0 < |raw| < 50 ==> KeepLines([raw]) == [raw]
  {
    TrimOfTrimmed(raw);
    assert [raw][1..] == [];
  }

  // ---------------------------------------------------------------------
  // findIndex and the landmark lines
  // ---------------------------------------------------------------------

  /** `lines.findIndex(p)` started at `from`: the first index whose line
      satisfies `p`, or -1. */
  function FindIndexFrom(lines: seq<string>, p: (int, string) -> bool, from: nat): (i: int)
    ensures i == -1 || from <= i < |lines|
    ensures i != -1 ==> p(i, lines[i])
    ensures forall j | from <= j < |lines| && (i == -1 || j < i) :: !p(j, lines[j])
    decreases |lines| - from
  {
    if from >= |lines| then -1
    else if p(from, lines[from]) then from
    else FindIndexFrom(lines, p, from + 1)
  }

  function FindIndex(lines: seq<string>, p: (int, string) -> bool): (i: int)
    ensures -1 <= i < |lines|
    ensures i != -1 ==> p(i, lines[i])
    ensures forall j | 0 <= j < |lines| && (i == -1 || j < i) :: !p(j, lines[j])
  {
    FindIndexFrom(lines, p, 0)
  }

  predicate IsAreaLine(line: string) { Includes(Upper(line), "AREA") }

  predicate IsCompanyLine(line: string) { StartsWith(Upper(line), "PT") }

  /** The fallback name line: after the area line, two to four words of which
      one is longer than two characters, and not a company, HEAD or CENTER line. */
  predicate IsNameLike(idx: int, line: string, areaIndex: int) {
    var upper := Upper(line);
    var words := SplitWs(line);
    && idx > areaIndex
    && 2 <= |words| <= 4
    && (exists k | 0 <= k < |words| :: |words[k]| > 2)
    && !StartsWith(upper, "PT") && !Includes(upper, "HEAD") && !Includes(upper, "CENTER")
  }

  function AreaLineIndex(lines: seq<string>): int {
    FindIndex(lines, (i, l) => IsAreaLine(l))
  }

  function CompanyLineIndex(lines: seq<string>): int {
    FindIndex(lines, (i, l) => IsCompanyLine(l))
  }

  function NameLikeIndex(lines: seq<string>, areaIndex: int): int {
    FindIndex(lines, (i, l) => IsNameLike(i, l, areaIndex))
  }

  /** The area line is the first line mentioning AREA in any case. */
  lemma AreaLineIndexIs(lines: seq<string>, i: nat)
    requires i < |lines| && IsAreaLine(lines[i])
    requires forall j | 0 <= j < i :: !IsAreaLine(lines[j])
    ensures AreaLineIndex(lines) == i
  {
  }

  /** The company line is the first line starting with PT in any case. */
  lemma CompanyLineIndexIs(lines: seq<string>, i: nat)
    requires i < |lines| && IsCompanyLine(lines[i])
    requires forall j | 0 <= j < i :: !IsCompanyLine(lines[j])
    ensures CompanyLineIndex(lines) == i
  {
  }

  /** Two lines above the company line, or else the first name-like line. */
  function NameLineIndex(lines: seq<string>, areaIndex: int, companyIndex: int): int {
    if companyIndex > 1 then companyIndex - 2 else NameLikeIndex(lines, areaIndex)
  }

  // ---------------------------------------------------------------------
  // cleanLine
  // ---------------------------------------------------------------------

  /** `[=:\-_\s]`, stripped from the start of a line. */
  predicate IsLeadNoise(c: char) { c == '=' || c == ':' || c == '-' || c == '_' || IsSpace(c) }

  /** `[=\-_\s]`, stripped from the end of a line (a colon is kept there). */
  predicate IsTrailNoise(c: char) { c == '=' || c == '-' || c == '_' || IsSpace(c) }

  function LeadNoise(s: string): (n: nat)
    ensures n <= |s|
    ensures forall i | 0 <= i < n :: IsLeadNoise(s[i])
    ensures n < |s| ==> !IsLeadNoise(s[n])
  {
    if s != [] && IsLeadNoise(s[0]) then 1 + LeadNoise(s[1..]) else 0
  }

  function TrailNoise(s: string): (n: nat)
    ensures n <= |s|
    ensures forall i | n <= i < |s| :: IsTrailNoise(s[i])
    ensures n > 0 ==> !IsTrailNoise(s[n - 1])
  {
    if s != [] && IsTrailNoise(s[|s| - 1]) then TrailNoise(s[..|s| - 1]) else |s|
  }

  /** `line.replace(/^[=:\-_\s]+|[=\-_\s]+$/g, '').trim()`: the result is the
      middle of the line with a maximal run of leading noise and a maximal
      run of trailing noise taken off. */
  function CleanLine(line: string): string {
    var lo := LeadNoise(line);
    var hi := if TrailNoise(line) < lo then lo else TrailNoise(line);
    Trim(line[lo..hi])
  }

  /** The cleaned line is a slice of the line that starts and ends with a
      character that is not noise, and only noise is cut off either end. */
  lemma CleanLineSpec(line: string)
    ensures var r := CleanLine(line);
      && IsTrimmed(r)
      && (r != [] ==> !IsLeadNoise(r[0]) && !IsTrailNoise(r[|r| - 1]))
      && exists lo: nat, hi: nat | lo <= hi <= |line| ::
        && r == line[lo..hi]
        && (forall i | 0 <= i < lo :: IsLeadNoise(line[i]))
        && (forall i | hi <= i < |line| :: IsTrailNoise(line[i]))
  {
    var lo := LeadNoise(line);
    var hi := if TrailNoise(line) < lo then lo else TrailNoise(line);
    var middle := line[lo..hi];
    CleanMiddleEnds(line, lo, hi);
    TrimOfTrimmed(middle);
    assert CleanLine(line) == middle;
  }

  lemma CleanMiddleEnds(line: string, lo: nat, hi: nat)
    requires lo == LeadNoise(line)
    requires hi == if TrailNoise(line) < lo then lo else TrailNoise(line)
    ensures lo <= hi <= |line|
    ensures var middle := line[lo..hi];
      middle != [] ==> !IsLeadNoise(middle[0]) && !IsTrailNoise(middle[|middle| - 1])
    ensures IsTrimmed(line[lo..hi])
  {
    if lo < hi {
      assert line[lo..hi][0] == line[lo];
      assert line[lo..hi][hi - lo - 1] == line[hi - 1];
    }
  }

  /** A line with no noise at either end is left as it is. */
  lemma CleanLineOfClean(line: string)
    requires line != [] && !IsLeadNoise(line[0]) && !IsTrailNoise(line[|line| - 1])
    ensures CleanLine(line) == line
  {
    assert line[0..|line|] == line;
  }

  // ---------------------------------------------------------------------
  // cleanFinalField
  // ---------------------------------------------------------------------

  /** A trailing token is garbage when it is not purely ASCII letters or is
      longer than eight characters. */
  predicate IsGarbage(word: string) {
    !(|word| > 0 && forall i | 0 <= i < |word| :: IsAsciiLetter(word[i])) || |word| > 8
  }

  /** The tokens left after popping garbage from the end, never the first one. */
  function KeepTokens(words: seq<string>): (kept: seq<string>)
    requires |words| >= 1
    ensures 1 <= |kept| <= |words| && kept == words[..|kept|]
    ensures |kept| > 1 ==> !IsGarbage(kept[|kept| - 1])
    ensures forall k | |kept| <= k < |words| :: IsGarbage(words[k])
    decreases |words|
  {
    if |words| > 1 && IsGarbage(words[|words| - 1]) then KeepTokens(words[..|words| - 1])
    else words
  }

  /** What `cleanFinalField` returns for a field that may be undefined. */
  function CleanedField(value: Option<string>): string {
    if value.None? || value.value == "" then ""
    else Join(KeepTokens(SplitWs(Trim(value.value))), " ")
  }

  method CleanFinalField(value: Option<string>) returns (r: string)
    ensures r == CleanedField(value)
  {
    if value.None? || value.value == "" {
      return "";
    }
    var words := SplitWs(Trim(value.value));
    ghost var all := words;
    while |words| > 1
      invariant 1 <= |words| <= |all| && words == all[..|words|]
      invariant KeepTokens(words) == KeepTokens(all)
      decreases |words|
    {
      var lastWord := words[|words| - 1];
      var isGarbage := !(|lastWord| > 0 && forall i | 0 <= i < |lastWord| :: IsAsciiLetter(lastWord[i])) || |lastWord| > 8;
      if isGarbage {
        words := words[..|words| - 1];
      } else {
        break;
      }
    }
    r := Join(words, " ");
  }

  /** Cleaning keeps the first token and a prefix of the tokens. */
  lemma CleanedFieldKeepsFirstToken(value: string)
    requires Trim(value) != ""
    ensures exists n | 1 <= n <= |SplitWs(Trim(value))| ::
      CleanedField(Some(value)) == Join(SplitWs(Trim(value))[..n], " ")
  {
    var words := SplitWs(Trim(value));
    var kept := KeepTokens(words);
    assert CleanedField(Some(value)) == Join(words[..|kept|], " ");
  }

  /** Cleaning a cleaned field changes nothing. */
  lemma CleanFinalFieldIdempotent(value: Option<string>)
    ensures CleanedField(Some(CleanedField(value))) == CleanedField(value)
  {
    var once := CleanedField(value);
    if value.Some? && value.value != "" && Trim(value.value) != "" {
      var t := Trim(value.value);
      WordsOfTrimmed(t);
      var kept := KeepTokens(SplitWs(t));
      assert Words(kept);
      JoinEnds(kept);
      TrimOfTrimmed(once);
      SplitWsJoin(kept);
      assert KeepTokens(kept) == kept;
    } else if value.Some? && value.value != "" {
      assert SplitWs("") == [""];
    }
  }

  // ---------------------------------------------------------------------
  // Access areas
  // ---------------------------------------------------------------------

  /** The position of the first occurrence of `c` in `s`. */
  function FirstIndexOf(s: seq<char>, c: char): (i: nat)
    requires c in s
    ensures i < |s| && s[i] == c && c !in s[..i]
  {
    if s[0] == c then 0 else 1 + FirstIndexOf(s[1..], c)
  }

  /** The distinct upper-case letters of `s` in order of first appearance. */
  function AreaLetters(s: string): (areas: seq<char>)
    ensures forall i, j | 0 <= i < j < |areas| :: areas[i] != areas[j]
    ensures forall i | 0 <= i < |areas| :: IsUpperLetter(areas[i]) && areas[i] in s
    ensures forall i | 0 <= i < |s| && IsUpperLetter(s[i]) :: s[i] in areas
    ensures forall i, j | 0 <= i < j < |areas| :: FirstIndexOf(s, areas[i]) < FirstIndexOf(s, areas[j])
    decreases |s|
  {
    if s == [] then []
    else
      var c := s[|s| - 1];
      var before := AreaLetters(s[..|s| - 1]);
      if IsUpperLetter(c) && c !in before then
        LettersAppend(s, before);
        before + [c]
      else
        LettersKeep(s, before);
        before
  }

  /** `areas` holds the distinct upper-case letters of `s`, in order of first
      appearance. */
  predicate LettersOf(s: string, areas: seq<char>) {
    && (forall i, j | 0 <= i < j < |areas| :: areas[i] != areas[j])
    && (forall i | 0 <= i < |areas| :: IsUpperLetter(areas[i]) && areas[i] in s)
    && (forall i | 0 <= i < |s| && IsUpperLetter(s[i]) :: s[i] in areas)
    && (forall i, j | 0 <= i < j < |areas| :: FirstIndexOf(s, areas[i]) < FirstIndexOf(s, areas[j]))
  }

  /** A character of the prefix keeps its first position in `s`. */
  lemma PrefixPositions(s: string)
    requires s != []
    ensures forall x | x in s[..|s| - 1] :: x in s && FirstIndexOf(s, x) == FirstIndexOf(s[..|s| - 1], x)
    ensures forall i | 0 <= i < |s| - 1 :: s[..|s| - 1][i] == s[i]
  {
    forall x | x in s[..|s| - 1]
      ensures x in s && FirstIndexOf(s, x) == FirstIndexOf(s[..|s| - 1], x)
    {
      FirstIndexOfPrefix(s, s[..|s| - 1], x);
    }
  }

  /** A last character that is not a new upper-case letter adds nothing. */
  lemma LettersKeep(s: string, before: seq<char>)
    requires s != [] && LettersOf(s[..|s| - 1], before)
    requires !(IsUpperLetter(s[|s| - 1]) && s[|s| - 1] !in before)
    ensures LettersOf(s, before)
  {
    var init := s[..|s| - 1];
    PrefixPositions(s);
    forall i | 0 <= i < |s| && IsUpperLetter(s[i])
      ensures s[i] in before
    {
      if i < |init| {
        assert init[i] == s[i];
      }
    }
  }

  /** A new upper-case letter at the end is appended. */
  lemma LettersAppend(s: string, before: seq<char>)
    requires s != [] && LettersOf(s[..|s| - 1], before)
    requires IsUpperLetter(s[|s| - 1]) && s[|s| - 1] !in before
    ensures LettersOf(s, before + [s[|s| - 1]])
  {
    var init := s[..|s| - 1];
    var c := s[|s| - 1];
    var areas := before + [c];
    PrefixPositions(s);
    assert c !in init;
    FirstIndexOfLast(s, c);
    forall i | 0 <= i < |s| && IsUpperLetter(s[i])
      ensures s[i] in areas
    {
      if i < |init| {
        assert init[i] == s[i];
      }
    }
    forall i, j | 0 <= i < j < |areas|
      ensures FirstIndexOf(s, areas[i]) < FirstIndexOf(s, areas[j])
    {
      assert areas[i] == before[i] && areas[i] in init;
      if j < |before| {
        assert areas[j] == before[j];
      }
    }
  }

  lemma {:induction false} FirstIndexOfPrefix(s: seq<char>, init: seq<char>, x: char)
    requires |init| <= |s| && init == s[..|init|] && x in init
    ensures x in s && FirstIndexOf(s, x) == FirstIndexOf(init, x)
    decreases |init|
  {
    assert init[0] == s[0];
    if s[0] != x {
      assert init[1..] == s[1..][..|init| - 1];
      FirstIndexOfPrefix(s[1..], init[1..], x);
    }
  }

  lemma {:induction false} FirstIndexOfLast(s: seq<char>, c: char)
    requires s != [] && s[|s| - 1] == c && c !in s[..|s| - 1]
    ensures FirstIndexOf(s, c) == |s| - 1
  {
  }

  lemma AreaLettersSnoc(t: string, c: char)
    ensures AreaLetters(t + [c]) ==
      if IsUpperLetter(c) && c !in AreaLetters(t) then AreaLetters(t) + [c] else AreaLetters(t)
  {
    assert (t + [c])[..|t|] == t;
  }

  /** All the lines of a zone, one after the other. */
  function Concat(zone: seq<string>): string {
    if zone == [] then "" else Concat(zone[..|zone| - 1]) + zone[|zone| - 1]
  }

  /** The area zone: the lines strictly between the area line and the name line. */
  function AreaZone(lines: seq<string>, areaIndex: int, nameIndex: int): seq<string>
    requires -1 <= areaIndex < |lines| && -1 <= nameIndex < |lines|
  {
    if areaIndex != -1 && nameIndex != -1 && areaIndex < nameIndex
    then lines[areaIndex + 1..nameIndex] else []
  }

  /** The access-area pass: every upper-case letter of the zone, once each, in
      order of first appearance. */
  method CollectAccessAreas(zone: seq<string>) returns (areas: seq<char>)
    ensures areas == AreaLetters(Concat(zone))
  {
    areas := [];
    for k := 0 to |zone|
      invariant areas == AreaLetters(Concat(zone[..k]))
    {
      var line := zone[k];
      ghost var done := Concat(zone[..k]);
      assert done + line[..0] == done;
      for j := 0 to |line|
        invariant areas == AreaLetters(done + line[..j])
      {
        var c := line[j];
        assert done + line[..j + 1] == (done + line[..j]) + [c];
        AreaLettersSnoc(done + line[..j], c);
        if 'A' <= c <= 'Z' {
          if c !in areas {
            areas := areas + [c];
          }
        }
      }
      assert line[..|line|] == line;
      assert zone[..k + 1][..k] == zone[..k];
    }
    assert zone[..|zone|] == zone;
  }

  // ---------------------------------------------------------------------
  // Header fields
  // ---------------------------------------------------------------------

  /** `.replace(/^(Co|Lo)\s/i, '')`. */
  function StripAuthorityPrefix(s: string): string {
    if |s| >= 3 && (Upper(s[..2]) == "CO" || Upper(s[..2]) == "LO") && IsSpace(s[2]) then s[3..] else s
  }

  /** `[/\s(0;):]`, stripped from the start of the location. */
  predicate IsLocationNoise(c: char) {
    c == '/' || IsSpace(c) || c == '(' || c == '0' || c == ';' || c == ')' || c == ':'
  }

  function StripLocationNoise(s: string): (r: string)
    ensures r == [] || !IsLocationNoise(r[0])
    ensures |r| <= |s| && r == s[|s| - |r|..]
    ensures forall k | 0 <= k < |s| - |r| :: IsLocationNoise(s[k])
  {
    if s != [] && IsLocationNoise(s[0]) then StripLocationNoise(s[1..]) else s
  }

  predicate IsAuthorityLine(line: string) { Includes(Upper(line), "OTORITAS") }

  predicate IsLocationLine(line: string) { Includes(Upper(line), "BANDAR UDARA") }

  function AuthorityLineIndex(lines: seq<string>): int {
    FindIndex(lines, (i, l) => IsAuthorityLine(l))
  }

  function LocationLineIndex(lines: seq<string>): int {
    FindIndex(lines, (i, l) => IsLocationLine(l))
  }

  /** The first line mentioning OTORITAS, cleaned and without a leading
      `Co `/`Lo ` misread. */
  function Authority(lines: seq<string>): Option<string> {
    var i := AuthorityLineIndex(lines);
    if i == -1 then None else Some(StripAuthorityPrefix(CleanLine(lines[i])))
  }

  /** The first line mentioning BANDAR UDARA, cleaned and without leading
      punctuation noise. */
  function Location(lines: seq<string>): Option<string> {
    var i := LocationLineIndex(lines);
    if i == -1 then None else Some(StripLocationNoise(CleanLine(lines[i])))
  }

  /** Without a line mentioning OTORITAS there is no authority. */
  lemma NoAuthorityLine(lines: seq<string>)
    requires forall j | 0 <= j < |lines| :: !IsAuthorityLine(lines[j])
    ensures Authority(lines) == None
  {
  }

  /** Without a line mentioning BANDAR UDARA there is no location. */
  lemma NoLocationLine(lines: seq<string>)
    requires forall j | 0 <= j < |lines| :: !IsLocationLine(lines[j])
    ensures Location(lines) == None
  {
  }

  /** With a line mentioning OTORITAS, the authority comes from the first
      such line: its cleaned text, or that text less a three-character
      `Co `/`Lo ` lead. */
  lemma AuthorityLine(lines: seq<string>, i: nat)
    requires i < |lines| && IsAuthorityLine(lines[i])
    requires forall j | 0 <= j < i :: !IsAuthorityLine(lines[j])
    ensures Authority(lines).Some?
    ensures var c := CleanLine(lines[i]); var a := Authority(lines).value;
      && (a == c || (|c| >= 3 && a == c[3..] && IsSpace(c[2])))
      && (a != c ==> Upper(c[..2]) == "CO" || Upper(c[..2]) == "LO")
  {
  }

  /** With a line mentioning BANDAR UDARA, the location comes from the first
      such line: its cleaned text less a lead made only of `/ (0;):` and
      whitespace, so that it does not start with one of those. */
  lemma LocationLine(lines: seq<string>, i: nat)
    requires i < |lines| && IsLocationLine(lines[i])
    requires forall j | 0 <= j < i :: !IsLocationLine(lines[j])
    ensures Location(lines).Some?
    ensures var c := CleanLine(lines[i]); var r := Location(lines).value;
      && |r| <= |c| && r == c[|c| - |r|..]
      && (forall k | 0 <= k < |c| - |r| :: IsLocationNoise(c[k]))
      && (r == [] || !IsLocationNoise(r[0]))
  {
  }

  // ---------------------------------------------------------------------
  // Expiry date: /\d{1,2}\s+(JAN|...|DES)\s+\d{4}/i
  // ---------------------------------------------------------------------

  const Months: seq<string> := ["JAN", "FEB", "MAR", "APR", "MEI", "JUN", "JUL", "AGU", "SEP", "OKT", "NOV", "DES"]

  function SpaceRun(s: string, i: nat): (n: nat)
    requires i <= |s|
    ensures i + n <= |s|
    ensures forall k | i <= k < i + n :: IsSpace(s[k])
    ensures i + n < |s| ==> !IsSpace(s[i + n])
    decreases |s| - i
  {
    if i < |s| && IsSpace(s[i]) then 1 + SpaceRun(s, i + 1) else 0
  }

  predicate AllDigits(s: string) { forall k | 0 <= k < |s| :: IsDigit(s[k]) }

  /** The end of a date that starts at `p` with exactly `d` day digits. The
      whitespace runs are taken whole, since a shorter run would leave a space
      where a letter or a digit is required. */
  function DateWithDayDigits(s: string, p: nat, d: nat): Option<nat>
    requires p <= |s|
  {
    if p + d <= |s| && AllDigits(s[p..p + d]) then
      var a := p + d;
      var w1 := SpaceRun(s, a);
      if w1 >= 1 && a + w1 + 3 <= |s| && Upper(s[a + w1..a + w1 + 3]) in Months then
        var b := a + w1 + 3;
        var w2 := SpaceRun(s, b);
        if w2 >= 1 && b + w2 + 4 <= |s| && AllDigits(s[b + w2..b + w2 + 4]) then Some(b + w2 + 4)
        else None
      else None
    else None
  }

  /** The match at `p`: two day digits are tried before one. */
  function DateMatchAt(s: string, p: nat): (e: Option<nat>)
    requires p <= |s|
    ensures e.Some? ==> p < e.value <= |s|
  {
    var two := DateWithDayDigits(s, p, 2);
    if two.Some? then two else DateWithDayDigits(s, p, 1)
  }

  /** The leftmost date at or after `from`, as the matched text. */
  function FirstDateFrom(s: string, from: nat): (m: Option<string>)
    requires from <= |s|
    ensures m.Some? ==> m.value != []
    decreases |s| - from
  {
    if from == |s| then None
    else
      var e := DateMatchAt(s, from);
      if e.Some? then Some(s[from..e.value]) else FirstDateFrom(s, from + 1)
  }

  /** Where no position matches, there is no date. */
  lemma {:induction false} FirstDateFromNone(s: string, from: nat)
    requires from <= |s|
    requires forall p | from <= p < |s| :: DateMatchAt(s, p).None?
    ensures FirstDateFrom(s, from).None?
    decreases |s| - from
  {
    if from < |s| {
      FirstDateFromNone(s, from + 1);
    }
  }

  /** No date starts at a character that is not a digit. */
  lemma NoDateAtNonDigit(s: string, p: nat)
    requires p < |s| && !IsDigit(s[p])
    ensures DateMatchAt(s, p).None?
  {
    assert s[p..p + 1][0] == s[p];
    if p + 2 <= |s| { assert s[p..p + 2][0] == s[p]; }
  }

  /** A two-digit day, one space, a month, one space and a four-digit year
      match as a whole. */
  lemma DateAt(s: string, p: nat)
    requires p + 11 <= |s|
    requires IsDigit(s[p]) && IsDigit(s[p + 1]) && IsSpace(s[p + 2]) && !IsSpace(s[p + 3])
    requires Upper(s[p + 3..p + 6]) in Months && IsSpace(s[p + 6]) && !IsSpace(s[p + 7])
    requires forall k | p + 7 <= k < p + 11 :: IsDigit(s[k])
    ensures DateMatchAt(s, p) == Some(p + 11)
  {
    assert AllDigits(s[p..p + 2]);
    assert SpaceRun(s, p + 2) == 1;
    assert SpaceRun(s, p + 6) == 1;
    assert AllDigits(s[p + 7..p + 11]);
  }

  /** The leftmost date is the one at the first position where one matches. */
  lemma {:induction false} FirstDateFromIs(s: string, from: nat, p: nat)
    requires from <= p < |s| && DateMatchAt(s, p).Some?
    requires forall q | from <= q < p :: DateMatchAt(s, q).None?
    ensures FirstDateFrom(s, from) == Some(s[p..DateMatchAt(s, p).value])
    decreases p - from
  {
    if from < p {
      FirstDateFromIs(s, from + 1, p);
    }
  }

  /** The expiry date: the upper-cased first date on the area line. */
  function Expiry(lines: seq<string>, areaIndex: int): Option<string>
    requires -1 <= areaIndex < |lines|
  {
    if areaIndex == -1 then None
    else
      var m := FirstDateFrom(lines[areaIndex], 0);
      if m.Some? then Some(Upper(m.value)) else None
  }

  // ---------------------------------------------------------------------
  // ID number: /\b([A-Z\s\.]*\d[\d\.]*)/i, cut at /(\s{2,}|[a-z]{3,})/
  // ---------------------------------------------------------------------

  predicate IsWordChar(c: char) { IsAsciiLetter(c) || IsDigit(c) || c == '_' }

  predicate AtWordBoundary(s: string, p: nat)
    requires p <= |s|
  {
    (p > 0 && IsWordChar(s[p - 1])) != (p < |s| && IsWordChar(s[p]))
  }

  /** `[A-Z\s\.]` under the `i` flag. */
  predicate IsIdLead(c: char) { IsAsciiLetter(c) || IsSpace(c) || c == '.' }

  predicate IsDigitOrDot(c: char) { IsDigit(c) || c == '.' }

  function IdLeadRun(s: string, i: nat): (n: nat)
    requires i <= |s|
    ensures i + n <= |s|
    ensures forall k | i <= k < i + n :: IsIdLead(s[k])
    ensures i + n < |s| ==> !IsIdLead(s[i + n])
    decreases |s| - i
  {
    if i < |s| && IsIdLead(s[i]) then 1 + IdLeadRun(s, i + 1) else 0
  }

  function DigitDotRun(s: string, i: nat): (n: nat)
    requires i <= |s|
    ensures i + n <= |s|
    ensures forall k | i <= k < i + n :: IsDigitOrDot(s[k])
    ensures i + n < |s| ==> !IsDigitOrDot(s[i + n])
    decreases |s| - i
  {
    if i < |s| && IsDigitOrDot(s[i]) then 1 + DigitDotRun(s, i + 1) else 0
  }

  /** The end of the ID match starting at `p`. The letter run is taken whole,
      since a shorter run would leave a letter, space or dot where the digit
      is required. */
  function IdMatchAt(s: string, p: nat): (e: Option<nat>)
    requires p <= |s|
    ensures e.Some? ==> p < e.value <= |s|
  {
    if AtWordBoundary(s, p) then
      var k := p + IdLeadRun(s, p);
      if k < |s| && IsDigit(s[k]) then Some(k + 1 + DigitDotRun(s, k + 1)) else None
    else None
  }

  function FirstIdMatchFrom(s: string, from: nat): (m: Option<string>)
    requires from <= |s|
    decreases |s| - from
  {
    if from == |s| then None
    else
      var e := IdMatchAt(s, from);
      if e.Some? then Some(s[from..e.value]) else FirstIdMatchFrom(s, from + 1)
  }

  /** A match found is the text of the line from some position on. */
  lemma {:induction false} FirstIdMatchIsSlice(s: string, from: nat)
    requires from <= |s|
    ensures FirstIdMatchFrom(s, from).Some? ==> exists p, e | from <= p < e <= |s| ::
      FirstIdMatchFrom(s, from).value == s[p..e]
    decreases |s| - from
  {
    if from < |s| {
      var e := IdMatchAt(s, from);
      if e.Some? {
        assert FirstIdMatchFrom(s, from).value == s[from..e.value];
      } else {
        FirstIdMatchIsSlice(s, from + 1);
      }
    }
  }

  predicate IsAsciiLower(c: char) { 'a' <= c <= 'z' }

  /** Where the split separator `\s{2,}` or `[a-z]{3,}` matches. */
  predicate SeparatorAt(m: string, q: nat) {
    || (q + 2 <= |m| && IsSpace(m[q]) && IsSpace(m[q + 1]))
    || (q + 3 <= |m| && IsAsciiLower(m[q]) && IsAsciiLower(m[q + 1]) && IsAsciiLower(m[q + 2]))
  }

  /** The leftmost separator position at or after `q`, or the length. */
  function FirstSeparator(m: string, q: nat): (r: nat)
    requires q <= |m|
    ensures q <= r <= |m|
    ensures forall k | q <= k < r :: !SeparatorAt(m, k)
    ensures r < |m| ==> SeparatorAt(m, r)
    decreases |m| - q
  {
    if q == |m| || SeparatorAt(m, q) then q else FirstSeparator(m, q + 1)
  }

  /** The ID a line yields, if it passes the two-dot, longer-than-ten check. */
  function IdCandidate(line: string): (id: Option<string>)
    ensures id.Some? ==> |id.value| > 10
  {
    var m := FirstIdMatchFrom(line, 0);
    if m.None? then None
    else
      var id := RemoveSpaces(Trim(m.value[..FirstSeparator(m.value, 0)]));
      if Dots(id) >= 2 && |id| > 10 then Some(id) else None
  }

  /** An ID holds no whitespace, at least two dots and more than ten
      characters. */
  lemma IdCandidateShape(line: string)
    ensures var id := IdCandidate(line);
      id.Some? ==> NoSpace(id.value) && Dots(id.value) >= 2 && |id.value| > 10
  {
  }

  /** An ID is made of characters of its line, so a line with fewer than two
      dots or at most ten characters never yields one. */
  lemma IdCandidateNeedsDotsAndLength(line: string)
    ensures Dots(line) < 2 || |line| <= 10 ==> IdCandidate(line).None?
  {
    var m := FirstIdMatchFrom(line, 0);
    if m.Some? {
      FirstIdMatchIsSlice(line, 0);
      var p, e :| 0 <= p < e <= |line| && m.value == line[p..e];
      DotsSlice(line, p, e);
      var n := FirstSeparator(m.value, 0);
      var cut := m.value[..n];
      assert cut == m.value[0..n];
      DotsSlice(m.value, 0, n);
      DotsTrim(cut);
      DotsRemoveSpaces(Trim(cut));
    }
  }

  /** A line that is one whole ID match (letters, dots and spaces, then a
      digit, then digits and dots) with no whitespace and no lower-case
      letters is its own ID once it has two dots and more than ten
      characters. */
  lemma IdCandidateOfWholeLine(line: string, k: nat)
    requires 0 < k < |line| && IsAsciiLetter(line[0]) && NoSpace(line)
    requires forall i | 0 <= i < k :: IsIdLead(line[i])
    requires IsDigit(line[k])
    requires forall i | k < i < |line| :: IsDigitOrDot(line[i])
    requires forall i | 0 <= i < |line| :: !IsAsciiLower(line[i])
    requires Dots(line) >= 2 && |line| > 10
    ensures IdCandidate(line) == Some(line)
  {
    WholeLineMatch(line, k);
    NoSeparator(line);
    assert line[..|line|] == line;
    TrimOfTrimmed(line);
    RemoveSpacesOfNoSpace(line);
  }

  lemma WholeLineMatch(line: string, k: nat)
    requires 0 < k < |line| && IsAsciiLetter(line[0])
    requires forall i | 0 <= i < k :: IsIdLead(line[i])
    requires IsDigit(line[k])
    requires forall i | k < i < |line| :: IsDigitOrDot(line[i])
    ensures FirstIdMatchFrom(line, 0) == Some(line)
  {
    assert AtWordBoundary(line, 0);
    assert IdLeadRun(line, 0) == k;
    assert DigitDotRun(line, k + 1) == |line| - k - 1;
    assert IdMatchAt(line, 0) == Some(|line|);
    assert line[0..|line|] == line;
  }

  lemma NoSeparator(line: string)
    requires NoSpace(line)
    requires forall i | 0 <= i < |line| :: !IsAsciiLower(line[i])
    ensures FirstSeparator(line, 0) == |line|
  {
  }

  lemma {:induction false} RemoveSpacesOfNoSpace(s: string)
    requires NoSpace(s)
    ensures RemoveSpaces(s) == s
    decreases |s|
  {
    if s != [] {
      assert NoSpace(s[1..]) by {
        forall i | 0 <= i < |s[1..]| ensures !IsSpace(s[1..][i]) { assert s[1..][i] == s[i + 1]; }
      }
      RemoveSpacesOfNoSpace(s[1..]);
      assert s == [s[0]] + s[1..];
    }
  }

  /** Two dots and eleven characters are enough. */
  lemma IdAcceptedWithTwoDots(s: string)
    requires s == "AB.CD.EF123"
    ensures IdCandidate(s) == Some(s)
  {
    ElevenCharIdRuns(s);
    ElevenCharIdCase(s);
    ElevenCharIdDots(s);
    IdCandidateOfWholeLine(s, 8);
  }

  /** One dot is not enough. */
  lemma IdRejectedWithOneDot(s: string)
    requires s == "AB.CDEFG1234"
    ensures IdCandidate(s) == None
  {
    OneDotIdDots(s);
    IdCandidateNeedsDotsAndLength(s);
  }

  /** Ten characters are not enough. */
  lemma IdRejectedWithTenChars(s: string)
    requires s == "AB.CD.E123"
    ensures IdCandidate(s) == None
  {
    IdCandidateNeedsDotsAndLength(s);
  }

  lemma ElevenCharIdRuns(s: string)
    requires s == "AB.CD.EF123"
    ensures |s| == 11 && IsAsciiLetter(s[0]) && IsDigit(s[8])
    ensures forall i | 0 <= i < 8 :: IsIdLead(s[i])
    ensures forall i | 8 < i < 11 :: IsDigitOrDot(s[i])
  {
  }

  lemma ElevenCharIdCase(s: string)
    requires s == "AB.CD.EF123"
    ensures NoSpace(s)
    ensures forall i | 0 <= i < 11 :: !IsAsciiLower(s[i])
  {
  }

  lemma ElevenCharIdDots(s: string)
    requires s == "AB.CD.EF123"
    ensures Dots(s) == 2
  {
    DotsTwoAt(s, 2, 5);
  }

  lemma OneDotIdDots(s: string)
    requires s == "AB.CDEFG1234"
    ensures Dots(s) == 1
  {
    DotsSplit(s, 2);
    DotsNone(s[..2]);
    DotsNone(s[3..]);
  }

  /** The ID each line yields on its own, line by line. */
  function IdCandidates(lines: seq<string>): (cands: seq<Option<string>>)
    ensures |cands| == |lines|
    ensures forall k | 0 <= k < |lines| :: cands[k] == IdCandidate(lines[k])
  {
    seq(|lines|, k requires 0 <= k < |lines| => IdCandidate(lines[k]))
  }

  /** The bottom-up search: the index of the last line at or above `i` that
      is not used and yields an ID, or -1. */
  function LastFreeHit(cands: seq<Option<string>>, used: set<int>, i: int): (j: int)
    requires -1 <= i < |cands|
    ensures -1 <= j <= i
    ensures j != -1 ==> j !in used && cands[j].Some?
    decreases i + 1
  {
    if i == -1 then -1
    else if i !in used && cands[i].Some? then i
    else LastFreeHit(cands, used, i - 1)
  }

  /** No free line below the one the search returns yields an ID. */
  lemma {:induction false} LastFreeHitIsLowest(cands: seq<Option<string>>, used: set<int>, i: int)
    requires -1 <= i < |cands|
    ensures forall k | LastFreeHit(cands, used, i) < k <= i && k !in used :: cands[k].None?
    decreases i + 1
  {
    if i != -1 && !(i !in used && cands[i].Some?) {
      LastFreeHitIsLowest(cands, used, i - 1);
    }
  }

  /** The ID the bottom-up search finds. */
  function IdOf(lines: seq<string>, used: set<int>): Option<string> {
    var cands := IdCandidates(lines);
    var j := LastFreeHit(cands, used, |lines| - 1);
    if j == -1 then None else cands[j]
  }

  /** The bottom line wins when it is free and yields an ID. */
  lemma IdOfBottomLine(lines: seq<string>, used: set<int>)
    requires lines != [] && |lines| - 1 !in used && IdCandidate(lines[|lines| - 1]).Some?
    ensures IdOf(lines, used) == IdCandidate(lines[|lines| - 1])
  {
  }

  method FindIdNumber(lines: seq<string>, usedLines: set<int>) returns (id: Option<string>)
    ensures id == IdOf(lines, usedLines)
  {
    ghost var cands := IdCandidates(lines);
    id := None;
    var i := |lines| - 1;
    while i >= 0
      invariant -1 <= i < |lines|
      invariant LastFreeHit(cands, usedLines, |lines| - 1) == LastFreeHit(cands, usedLines, i)
      decreases i + 1
    {
      if i in usedLines {
        i := i - 1;
        continue;
      }
      var candidate := IdCandidate(lines[i]);
      assert candidate == cands[i];
      if candidate.Some? {
        id := candidate;
        break;
      }
      i := i - 1;
    }
  }

  /** `id.replace('BAPSTN', 'B.AP.STN')` for an ID that starts with it. */
  function FixIdNumber(id: string): string {
    if StartsWith(id, "BAPSTN") then "B.AP.STN" + id[6..] else id
  }

  /** The rewrite keeps an accepted ID acceptable: it adds two dots and two
      characters and no whitespace. */
  lemma FixIdNumberKeepsShape(id: string)
    requires NoSpace(id) && Dots(id) >= 2 && |id| > 10
    ensures var f := FixIdNumber(id);
      NoSpace(f) && Dots(f) >= 2 && |f| > 10
    ensures StartsWith(id, "BAPSTN") ==>
      |FixIdNumber(id)| == |id| + 2 && Dots(FixIdNumber(id)) == Dots(id) + 2
  {
    if StartsWith(id, "BAPSTN") {
      SwappedPrefixesFacts();
      SwapPrefix(id, "BAPSTN", "B.AP.STN");
    }
  }

  /** Replacing a dotless prefix `p` of `s` by a whitespace-free `q` with two
      dots adds two dots, `|q| - |p|` characters and no whitespace. */
  lemma SwapPrefix(s: string, p: string, q: string)
    requires StartsWith(s, p) && NoSpace(s) && NoSpace(q)
    requires Dots(p) == 0 && Dots(q) == 2
    ensures var f := q + s[|p|..];
      && NoSpace(f) && |f| == |s| + |q| - |p|
      && Dots(f) == Dots(s) + 2
  {
    assert s == p + s[|p|..];
    var f := q + s[|p|..];
    DotsAppend(q, s[|p|..]);
    DotsAppend(p, s[|p|..]);
    forall i | 0 <= i < |f| ensures !IsSpace(f[i]) {
      if i >= |q| { assert f[i] == s[i - |q| + |p|]; }
    }
  }

  lemma SwappedPrefixesFacts()
    ensures Dots("BAPSTN") == 0 && Dots("B.AP.STN") == 2
    ensures NoSpace("B.AP.STN")
  {
    BapstnDots("BAPSTN");
    SpacedBapstnDots("B.AP.STN");
    VisibleAsciiNoSpace("B.AP.STN");
  }

  lemma BapstnDots(s: string)
    requires s == "BAPSTN"
    ensures Dots(s) == 0
  {
    DotsNone(s);
  }

  lemma SpacedBapstnDots(s: string)
    requires s == "B.AP.STN"
    ensures Dots(s) == 2
  {
    DotsTwoAt(s, 1, 4);
  }

  // ---------------------------------------------------------------------
  // Company corrections
  // ---------------------------------------------------------------------

  /** The correction dictionary in key order. */
  const Corrections: seq<(string, string)> := [
    ("PT ANGKAS", "PT ANGKASA PURA"),
    ("ANGKASA PU", "PT ANGKASA PURA"),
    ("KANTOM", "KANTOR")
  ]

  /** The `forEach` over the dictionary from key `k` on: each key is tested
      against the company as the earlier keys left it. */
  function CorrectFrom(company: string, k: nat): string
    requires k <= |Corrections|
    decreases |Corrections| - k
  {
    if k == |Corrections| then company
    else
      var next := if Includes(Upper(company), Corrections[k].0) then Corrections[k].1 else company;
      CorrectFrom(next, k + 1)
  }

  /** The dictionary in closed form: an ANGKASA misread gives exactly
      "PT ANGKASA PURA"; otherwise a KANTOM misread gives exactly "KANTOR";
      any other company is kept. */
  lemma CorrectionsClosedForm(company: string)
    ensures CorrectFrom(company, 0) ==
      if Includes(Upper(company), "PT ANGKAS") || Includes(Upper(company), "ANGKASA PU") then "PT ANGKASA PURA"
      else if Includes(Upper(company), "KANTOM") then "KANTOR"
      else company
  {
    PuraAndKantorFacts();
    var c1 := if Includes(Upper(company), "PT ANGKAS") then "PT ANGKASA PURA" else company;
    assert CorrectFrom(company, 0) == CorrectFrom(c1, 1);
    var c2 := if Includes(Upper(c1), "ANGKASA PU") then "PT ANGKASA PURA" else c1;
    assert CorrectFrom(c1, 1) == CorrectFrom(c2, 2);
    var c3 := if Includes(Upper(c2), "KANTOM") then "KANTOR" else c2;
    assert CorrectFrom(c2, 2) == c3;
  }

  /** What the two replacement values do and do not contain. */
  lemma PuraAndKantorFacts()
    ensures Upper("PT ANGKASA PURA") == "PT ANGKASA PURA"
    ensures Includes("PT ANGKASA PURA", "ANGKASA PU")
    ensures !Includes("PT ANGKASA PURA", "KANTOM")
  {
    UpperOfUpper("PT ANGKASA PURA");
    PuraIncludesAngkasaPu();
    PuraLacksKantom();
  }

  lemma PuraIncludesAngkasaPu()
    ensures Includes("PT ANGKASA PURA", "ANGKASA PU")
  {
    var pura := "PT ANGKASA PURA";
    assert pura[3..13] == "ANGKASA PU";
    IncludesAt(pura, "ANGKASA PU", 3);
  }

  lemma PuraLacksKantom()
    ensures !Includes("PT ANGKASA PURA", "KANTOM")
  {
    var pura := "PT ANGKASA PURA";
    assert multiset(pura)['M'] == 0;
    IncludesHasChar(pura, "KANTOM", 5);
  }

  /** Upper-casing leaves a string without lower-case ASCII letters alone. */
  lemma UpperOfUpper(s: string)
    requires forall i | 0 <= i < |s| :: !IsAsciiLower(s[i])
    ensures Upper(s) == s
  {
  }

  /** A string that includes a pattern holds every character of the pattern. */
  lemma IncludesHasChar(s: string, sub: string, k: nat)
    ensures k < |sub| && Includes(s, sub) ==> multiset(s)[sub[k]] > 0
  {
    if k < |sub| && Includes(s, sub) {
      var i := IncludesWitness(s, sub);
      assert s[i + k] == sub[k];
      assert s[i + k] in multiset(s);
    }
  }

  // ---------------------------------------------------------------------
  // The whole parse
  // ---------------------------------------------------------------------

  /** `value || fallback` for a field that may be undefined or empty. */
  function OrElse(value: Option<string>, fallback: string): (r: string)
    requires fallback != ""
    ensures r != ""
  {
    if value.None? || value.value == "" then fallback else value.value
  }

  /** The lines assigned to the company block: the company line and the two
      lines above it. */
  function UsedLines(companyIndex: int): set<int> {
    if companyIndex == -1 then {}
    else
      {companyIndex}
      + (if companyIndex > 0 then {companyIndex - 1} else {})
      + (if companyIndex > 1 then {companyIndex - 2} else {})
  }

  /** The cleaned line `offset` lines above the company line, if there is one. */
  function BlockLine(lines: seq<string>, companyIndex: int, offset: nat): Option<string>
    requires -1 <= companyIndex < |lines|
  {
    if companyIndex != -1 && companyIndex >= offset then Some(CleanLine(lines[companyIndex - offset]))
    else None
  }

  /** The company after cleanup and correction. */
  function FinalCompany(lines: seq<string>, companyIndex: int): string
    requires -1 <= companyIndex < |lines|
  {
    var cleaned := CleanedField(BlockLine(lines, companyIndex, 0));
    if cleaned != "" then CorrectFrom(cleaned, 0) else cleaned
  }

  function FinalId(lines: seq<string>, companyIndex: int): Option<string>
    requires -1 <= companyIndex < |lines|
  {
    var id := IdOf(lines, UsedLines(companyIndex));
    if id.Some? then Some(FixIdNumber(id.value)) else None
  }

  /** The ID of a free bottom line that yields one, rewritten if need be. */
  lemma FinalIdOfBottomLine(lines: seq<string>, companyIndex: int, id: string)
    requires -1 <= companyIndex < |lines| - 1 && IdCandidate(lines[|lines| - 1]) == Some(id)
    ensures FinalId(lines, companyIndex) == Some(FixIdNumber(id))
  {
    IdOfBottomLine(lines, UsedLines(companyIndex));
  }

  /** The record built from pre-filtered lines; every text field has a
      fallback, so none is empty. */
  function ParseLines(lines: seq<string>): (r: ParsedCard)
    ensures && r.issuingAuthority != "" && r.location != "" && r.expiryDate != ""
            && r.name != "" && r.position != "" && r.company != "" && r.idNumber != ""
  {
    var areaIndex := AreaLineIndex(lines);
    var companyIndex := CompanyLineIndex(lines);
    var nameIndex := NameLineIndex(lines, areaIndex, companyIndex);
    ParsedCard(
      OrElse(Authority(lines), "KANTOR OTORITAS"),
      OrElse(Location(lines), "BANDAR UDARA"),
      OrElse(Expiry(lines, areaIndex), "N/A"),
      AreaLetters(Concat(AreaZone(lines, areaIndex, nameIndex))),
      OrElse(Some(CleanedField(BlockLine(lines, companyIndex, 2))), "Not Found"),
      OrElse(Some(CleanedField(BlockLine(lines, companyIndex, 1))), "Not Found"),
      OrElse(Some(FinalCompany(lines, companyIndex)), "Not Found"),
      OrElse(FinalId(lines, companyIndex), "Not Found"))
  }

  /** The name field, given the company line and the cleaned name line. */
  lemma ParseLinesName(lines: seq<string>, companyIndex: int, name: string)
    requires CompanyLineIndex(lines) == companyIndex && name != ""
    requires CleanedField(BlockLine(lines, companyIndex, 2)) == name
    ensures ParseLines(lines).name == name
  {
  }

  /** The position field, given the company line and the cleaned position line. */
  lemma ParseLinesPosition(lines: seq<string>, companyIndex: int, position: string)
    requires CompanyLineIndex(lines) == companyIndex && position != ""
    requires CleanedField(BlockLine(lines, companyIndex, 1)) == position
    ensures ParseLines(lines).position == position
  {
  }

  /** The company field, given the company line and its corrected value. */
  lemma ParseLinesCompany(lines: seq<string>, companyIndex: int, company: string)
    requires CompanyLineIndex(lines) == companyIndex && company != ""
    requires FinalCompany(lines, companyIndex) == company
    ensures ParseLines(lines).company == company
  {
  }

  /** The ID field, given the company line and the ID the search finds. */
  lemma ParseLinesId(lines: seq<string>, companyIndex: int, id: string)
    requires CompanyLineIndex(lines) == companyIndex && id != ""
    requires FinalId(lines, companyIndex) == Some(id)
    ensures ParseLines(lines).idNumber == id
  {
  }

  /** The expiry field, given the area line and the date found on it. */
  lemma ParseLinesExpiry(lines: seq<string>, areaIndex: int, expiry: string)
    requires AreaLineIndex(lines) == areaIndex && expiry != ""
    requires Expiry(lines, areaIndex) == Some(expiry)
    ensures ParseLines(lines).expiryDate == expiry
  {
  }

  /** The areas field, given the landmark lines and the letters of the zone. */
  lemma ParseLinesAreas(lines: seq<string>, areaIndex: int, companyIndex: int, nameIndex: int, areas: seq<char>)
    requires AreaLineIndex(lines) == areaIndex && CompanyLineIndex(lines) == companyIndex
    requires NameLineIndex(lines, areaIndex, companyIndex) == nameIndex
    requires -1 <= areaIndex < |lines| && -1 <= nameIndex < |lines|
    requires AreaLetters(Concat(AreaZone(lines, areaIndex, nameIndex))) == areas
    ensures ParseLines(lines).accessAreas == areas
  {
  }

  /** `parseOcrResult(text)`. */
  function Parse(text: string): ParsedCard {
    ParseLines(PreFilter(text))
  }

  /** Pass 1 of `parseOcrResult`: the area, company and name landmark lines. */
  method FindLandmarks(lines: seq<string>) returns (areaLineIndex: int, companyLineIndex: int, nameLineIndex: int)
    ensures areaLineIndex == AreaLineIndex(lines)
    ensures companyLineIndex == CompanyLineIndex(lines)
    ensures nameLineIndex == NameLineIndex(lines, areaLineIndex, companyLineIndex)
  {
    areaLineIndex := AreaLineIndex(lines);
    companyLineIndex := CompanyLineIndex(lines);
    if companyLineIndex > 1 {
      nameLineIndex := companyLineIndex - 2;
    } else {
      nameLineIndex := NameLikeIndex(lines, areaLineIndex);
    }
  }

  /** The expiry step of pass 3: the first date on the area line, upper-cased. */
  method FindExpiry(lines: seq<string>, areaLineIndex: int) returns (expiryDate: Option<string>)
    requires -1 <= areaLineIndex < |lines|
    ensures expiryDate == Expiry(lines, areaLineIndex)
  {
    expiryDate := None;
    if areaLineIndex != -1 {
      var expiryMatch := FirstDateFrom(lines[areaLineIndex], 0);
      if expiryMatch.Some? {
        expiryDate := Some(Upper(expiryMatch.value));
      }
    }
  }

  /** The company-block step of pass 3: the company line and the two lines
      above it, each claimed at most once. */
  method FindCompanyBlock(lines: seq<string>, companyLineIndex: int)
    returns (company: Option<string>, position: Option<string>, name: Option<string>, usedLines: set<int>)
    requires -1 <= companyLineIndex < |lines|
    ensures company == BlockLine(lines, companyLineIndex, 0)
    ensures position == BlockLine(lines, companyLineIndex, 1)
    ensures name == BlockLine(lines, companyLineIndex, 2)
    ensures usedLines == UsedLines(companyLineIndex)
  {
    usedLines := {};
    company, position, name := None, None, None;
    if companyLineIndex != -1 {
      company := Some(CleanLine(lines[companyLineIndex]));
      usedLines := usedLines + {companyLineIndex};
      if companyLineIndex > 0 && companyLineIndex - 1 !in usedLines {
        position := Some(CleanLine(lines[companyLineIndex - 1]));
        usedLines := usedLines + {companyLineIndex - 1};
      }
      if companyLineIndex > 1 && companyLineIndex - 2 !in usedLines {
        name := Some(CleanLine(lines[companyLineIndex - 2]));
        usedLines := usedLines + {companyLineIndex - 2};
      }
    }
  }

  /** The corrections step of pass 4: every table entry in order, each one
      testing the company as the previous entries left it. */
  method ApplyCorrections(company: string) returns (r: string)
    ensures r == CorrectFrom(company, 0)
  {
    r := company;
    for k := 0 to |Corrections|
      invariant CorrectFrom(r, k) == CorrectFrom(company, 0)
    {
      if Includes(Upper(r), Corrections[k].0) {
        r := Corrections[k].1;
      }
    }
  }

  /** Pass 4 of `parseOcrResult`: `cleanFinalField` on the block fields, the
      corrections on a non-empty company, and the BAPSTN rewrite of the ID. */
  method FinishFields(name: Option<string>, position: Option<string>, company: Option<string>, id: Option<string>)
    returns (finalName: string, finalPosition: string, finalCompany: string, finalId: Option<string>)
    ensures finalName == CleanedField(name) && finalPosition == CleanedField(position)
    ensures finalCompany == if CleanedField(company) != "" then CorrectFrom(CleanedField(company), 0) else ""
    ensures finalId == if id.Some? then Some(FixIdNumber(id.value)) else None
  {
    finalName := CleanFinalField(name);
    finalPosition := CleanFinalField(position);
    finalCompany := CleanFinalField(company);
    if finalCompany != "" {
      finalCompany := ApplyCorrections(finalCompany);
    }
    finalId := id;
    if finalId.Some? && StartsWith(finalId.value, "BAPSTN") {
      finalId := Some("B.AP.STN" + finalId.value[6..]);
    }
  }

  /** The passes of `parseOcrResult` over the pre-filtered lines, run in order. */
  method ParsePasses(lines: seq<string>) returns (card: ParsedCard)
    ensures card == ParseLines(lines)
  {
    // Pass 1: landmark lines.
    var areaLineIndex, companyLineIndex, nameLineIndex := FindLandmarks(lines);

    // Pass 2: the area zone.
    var accessAreas := CollectAccessAreas(AreaZone(lines, areaLineIndex, nameLineIndex));

    // Pass 3: header, expiry, company block and ID.
    var issuingAuthority := Authority(lines);
    var location := Location(lines);
    var expiryDate := FindExpiry(lines, areaLineIndex);
    var company, position, name, usedLines := FindCompanyBlock(lines, companyLineIndex);
    var idNumber := FindIdNumber(lines, usedLines);

    // Pass 4: cleanup and corrections.
    var finalName, finalPosition, finalCompany, finalId := FinishFields(name, position, company, idNumber);

    card := ParsedCard(
      OrElse(issuingAuthority, "KANTOR OTORITAS"),
      OrElse(location, "BANDAR UDARA"),
      OrElse(expiryDate, "N/A"),
      accessAreas,
      OrElse(Some(finalName), "Not Found"),
      OrElse(Some(finalPosition), "Not Found"),
      OrElse(Some(finalCompany), "Not Found"),
      OrElse(finalId, "Not Found"));
  }

  /** `parseOcrResult`: the pre-filter, then the passes. */
  method ParseOcrResult(text: string) returns (card: ParsedCard)
    ensures card == Parse(text)
  {
    var lines := PreFilter(text);
    card := ParsePasses(lines);
  }

  // ---------------------------------------------------------------------
  // Properties of the whole parse
  // ---------------------------------------------------------------------

  /** Text with no usable line yields the record of fallbacks. */
  lemma ParseOfBlankText(text: string)
    requires forall c | c in text :: IsSpace(c)
    ensures Parse(text) == ParsedCard("KANTOR OTORITAS", "BANDAR UDARA", "N/A", [],
      "Not Found", "Not Found", "Not Found", "Not Found")
  {
    BlankTextHasNoLines(text);
    var lines: seq<string> := [];
    assert AreaLineIndex(lines) == -1;
    assert CompanyLineIndex(lines) == -1;
    assert NameLikeIndex(lines, -1) == -1;
    assert AuthorityLineIndex(lines) == -1;
    assert LocationLineIndex(lines) == -1;
    assert LastFreeHit(IdCandidates(lines), {}, -1) == -1;
  }

  /** The empty string and a string of blank lines have no usable line. */
  lemma BlankTextHasNoLines(text: string)
    requires forall c | c in text :: IsSpace(c)
    ensures PreFilter(text) == []
  {
    var raw := SplitOn(text, '\n');
    forall k | 0 <= k < |raw| ensures Trim(raw[k]) == "" {
      SplitOnPartsAreFactors(text, '\n', k);
      AllSpaceTrim(raw[k]);
    }
    KeepLinesOfBlank(raw);
  }

  lemma {:induction false} KeepLinesOfBlank(raw: seq<string>)
    requires forall k | 0 <= k < |raw| :: Trim(raw[k]) == ""
    ensures KeepLines(raw) == []
    decreases |raw|
  {
    if raw != [] {
      KeepLinesOfBlank(raw[1..]);
    }
  }

  /** Every piece of `split` is made of characters of the string. */
  lemma {:induction false} SplitOnPartsAreFactors(s: string, sep: char, k: nat)
    requires k < |SplitOn(s, sep)|
    ensures forall c | c in SplitOn(s, sep)[k] :: c in s
    decreases |s|
  {
    if s != [] {
      var rest := SplitOn(s[1..], sep);
      if s[0] == sep {
        if k > 0 { SplitOnPartsAreFactors(s[1..], sep, k - 1); }
      } else if k == 0 {
        SplitOnPartsAreFactors(s[1..], sep, 0);
      } else {
        SplitOnPartsAreFactors(s[1..], sep, k);
      }
    }
  }

  /** An all-whitespace string trims to nothing. */
  lemma AllSpaceTrim(s: string)
    requires forall c | c in s :: IsSpace(c)
    ensures Trim(s) == ""
  {
    if s != [] {
      assert s[0] in s;
    }
  }

  /** The areas are drawn from the zone between the area line and the name
      line: there are none unless both lines exist in that order, and each
      one is an upper-case letter found on a line of the zone. */
  lemma ParseAccessAreasFromZone(lines: seq<string>)
    ensures var areaIndex := AreaLineIndex(lines);
      var nameIndex := NameLineIndex(lines, areaIndex, CompanyLineIndex(lines));
      var areas := ParseLines(lines).accessAreas;
      && (areas != [] ==> areaIndex != -1 && nameIndex != -1 && areaIndex < nameIndex)
      && forall c | c in areas :: IsUpperLetter(c) && exists k | areaIndex < k < nameIndex :: c in lines[k]
  {
    var areaIndex := AreaLineIndex(lines);
    AreasField(lines);
    ZoneAreas(lines, areaIndex, NameLineIndex(lines, areaIndex, CompanyLineIndex(lines)));
  }

  /** The letters of a zone are upper-case letters of its lines, and a zone
      with letters lies strictly between its two ends. */
  lemma ZoneAreas(lines: seq<string>, areaIndex: int, nameIndex: int)
    requires -1 <= areaIndex < |lines| && -1 <= nameIndex < |lines|
    ensures var areas := AreaLetters(Concat(AreaZone(lines, areaIndex, nameIndex)));
      && (areas != [] ==> areaIndex != -1 && nameIndex != -1 && areaIndex < nameIndex)
      && forall c | c in areas :: IsUpperLetter(c) && exists k | areaIndex < k < nameIndex :: c in lines[k]
  {
    var zone := AreaZone(lines, areaIndex, nameIndex);
    var areas := AreaLetters(Concat(zone));
    if areas != [] {
      assert areas[0] in Concat(zone);
      assert zone != [];
    }
    forall c | c in areas
      ensures IsUpperLetter(c) && exists k | areaIndex < k < nameIndex :: c in lines[k]
    {
      ConcatMember(zone, c);
      var k :| 0 <= k < |zone| && c in zone[k];
      assert zone[k] == lines[areaIndex + 1 + k];
    }
  }

  /** The access-area field reads the zone between the area line and the
      name line. */
  lemma AreasField(lines: seq<string>)
    ensures var areaIndex := AreaLineIndex(lines);
      var nameIndex := NameLineIndex(lines, areaIndex, CompanyLineIndex(lines));
      ParseLines(lines).accessAreas == AreaLetters(Concat(AreaZone(lines, areaIndex, nameIndex)))
  {
  }

  /** A character of the concatenation comes from one of the lines. */
  lemma {:induction false} ConcatMember(zone: seq<string>, c: char)
    ensures c in Concat(zone) ==> exists k | 0 <= k < |zone| :: c in zone[k]
    decreases |zone|
  {
    if zone != [] && c in Concat(zone) {
      var init := zone[..|zone| - 1];
      if c in Concat(init) {
        ConcatMember(init, c);
        var k :| 0 <= k < |init| && c in init[k];
        assert zone[k] == init[k];
      } else {
        assert c in zone[|zone| - 1];
      }
    }
  }

  /** Without a company line there is no block: name, position and company
      all fall back to "Not Found". */
  lemma ParseWithoutCompanyLine(lines: seq<string>)
    requires forall k | 0 <= k < |lines| :: !IsCompanyLine(lines[k])
    ensures var r := ParseLines(lines);
      r.name == "Not Found" && r.position == "Not Found" && r.company == "Not Found"
  {
    assert CompanyLineIndex(lines) == -1;
  }

  /** The name and position are the two lines above the company line, and
      the company is that line, corrected. */
  lemma ParseCompanyBlock(lines: seq<string>, c: nat)
    requires c < |lines| && IsCompanyLine(lines[c])
    requires forall k | 0 <= k < c :: !IsCompanyLine(lines[k])
    ensures var r := ParseLines(lines);
      && r.company == OrElse(Some(FinalCompany(lines, c)), "Not Found")
      && (c >= 1 ==> r.position == OrElse(Some(CleanedField(Some(CleanLine(lines[c - 1])))), "Not Found"))
      && (c >= 2 ==> r.name == OrElse(Some(CleanedField(Some(CleanLine(lines[c - 2])))), "Not Found"))
      && (c == 0 ==> r.position == "Not Found")
      && (c < 2 ==> r.name == "Not Found")
  {
    CompanyLineIndexIs(lines, c);
    BlockFields(lines);
    BlockLines(lines, c);
    MissingLineNotFound("Not Found");
  }

  /** The lines above company line `c`, and the fallback where there are none. */
  lemma BlockLines(lines: seq<string>, c: nat)
    requires c < |lines|
    ensures c >= 1 ==> BlockLine(lines, c, 1) == Some(CleanLine(lines[c - 1]))
    ensures c >= 2 ==> BlockLine(lines, c, 2) == Some(CleanLine(lines[c - 2]))
    ensures c == 0 ==> BlockLine(lines, c, 1) == None
    ensures c < 2 ==> BlockLine(lines, c, 2) == None
  {
  }

  /** A missing block line falls back to "Not Found". */
  lemma MissingLineNotFound(fallback: string)
    requires fallback == "Not Found"
    ensures OrElse(Some(CleanedField(None)), fallback) == fallback
  {
  }

  /** The name, position and company fields read the company block. */
  lemma BlockFields(lines: seq<string>)
    ensures var r := ParseLines(lines);
      var c := CompanyLineIndex(lines);
      && r.name == OrElse(Some(CleanedField(BlockLine(lines, c, 2))), "Not Found")
      && r.position == OrElse(Some(CleanedField(BlockLine(lines, c, 1))), "Not Found")
      && r.company == OrElse(Some(FinalCompany(lines, c)), "Not Found")
  {
  }

  /** The ID field is "Not Found" or an accepted ID: no whitespace, at least
      two dots and more than ten characters, taken from a line outside the
      company block. */
  lemma ParseIdShape(lines: seq<string>)
    ensures var id := ParseLines(lines).idNumber;
      id == "Not Found" || (NoSpace(id) && Dots(id) >= 2 && |id| > 10)
    ensures var id := ParseLines(lines).idNumber;
      var used := UsedLines(CompanyLineIndex(lines));
      id != "Not Found" ==> exists j | 0 <= j < |lines| && j !in used ::
        && IdCandidate(lines[j]).Some? && id == FixIdNumber(IdCandidate(lines[j]).value)
        && forall k | j < k < |lines| && k !in used :: IdCandidate(lines[k]).None?
  {
    IdField(lines);
    FinalIdShape(lines, CompanyLineIndex(lines));
  }

  lemma IdField(lines: seq<string>)
    ensures ParseLines(lines).idNumber == OrElse(FinalId(lines, CompanyLineIndex(lines)), "Not Found")
  {
  }

  /** The ID field's shape and origin, for any company line. */
  lemma FinalIdShape(lines: seq<string>, c: int)
    requires -1 <= c < |lines|
    ensures var id := OrElse(FinalId(lines, c), "Not Found");
      id == "Not Found" || (NoSpace(id) && Dots(id) >= 2 && |id| > 10)
    ensures var id := OrElse(FinalId(lines, c), "Not Found");
      var used := UsedLines(c);
      id != "Not Found" ==> exists j | 0 <= j < |lines| && j !in used ::
        && IdCandidate(lines[j]).Some? && id == FixIdNumber(IdCandidate(lines[j]).value)
        && forall k | j < k < |lines| && k !in used :: IdCandidate(lines[k]).None?
  {
    var raw := IdOf(lines, UsedLines(c));
    var j := LastFreeHit(IdCandidates(lines), UsedLines(c), |lines| - 1);
    LastFreeHitIsLowest(IdCandidates(lines), UsedLines(c), |lines| - 1);
    if raw.Some? {
      IdCandidateShape(lines[j]);
      FixIdNumberKeepsShape(raw.value);
    }
  }


  /** A trailing token holding a digit is dropped. */
  lemma CleanedFieldDropsCodeToken(s: string)
    requires s == "JOHN DOE XYZ1"
    ensures CleanedField(Some(s)) == "JOHN DOE"
  {
    CleanedCodeTokenLine(s);
    JoinTwo("JOHN", "DOE", " ");
  }

  lemma CleanedCodeTokenLine(s: string)
    requires s == "JOHN DOE XYZ1"
    ensures CleanedField(Some(s)) == Join(["JOHN", "DOE"], " ")
  {
    ExampleWords("JOHN", "DOE", "XYZ1", s);
    KeepTokensDropsCode();
    CleanedFieldOf(s, ["JOHN", "DOE", "XYZ1"], ["JOHN", "DOE"]);
  }

  /** A field of plain words is kept whole. */
  lemma CleanedFieldKeepsPlainWords(s: string)
    requires s == "JOHN DOE SMITH"
    ensures CleanedField(Some(s)) == s
  {
    var ws := ["JOHN", "DOE", "SMITH"];
    ExampleWords("JOHN", "DOE", "SMITH", s);
    ExampleGarbage();
    assert KeepTokens(ws) == ws;
    CleanedFieldOf(s, ws, ws);
    JoinThree("JOHN", "DOE", "SMITH", " ");
  }

  lemma CleanedFieldOf(t: string, ws: seq<string>, kept: seq<string>)
    requires t != "" && Trim(t) == t && SplitWs(t) == ws && KeepTokens(ws) == kept
    ensures CleanedField(Some(t)) == Join(kept, " ")
  {
  }

  lemma KeepTokensDropsCode()
    ensures KeepTokens(["JOHN", "DOE", "XYZ1"]) == ["JOHN", "DOE"]
  {
    ExampleGarbage();
    assert ["JOHN", "DOE", "XYZ1"][..2] == ["JOHN", "DOE"];
  }

  lemma ExampleGarbage()
    ensures IsGarbage("XYZ1") && !IsGarbage("DOE") && !IsGarbage("SMITH")
  {
    assert !IsAsciiLetter("XYZ1"[3]);
  }

  /** The words of a trimmed example line. */
  lemma ExampleWords(a: string, b: string, c: string, t: string)
    requires Words([a, b, c]) && t == a + " " + b + " " + c
    ensures Trim(t) == t && SplitWs(Trim(t)) == [a, b, c]
  {
    JoinWords3(a, b, c);
    JoinEnds([a, b, c]);
    JoinThree(a, b, c, " ");
    TrimOfTrimmed(t);
  }

  lemma JoinTwo(a: string, b: string, sep: string)
    ensures Join([a, b], sep) == a + sep + b
  {
    assert [a, b][1..] == [b];
  }

  lemma JoinThree(a: string, b: string, c: string, sep: string)
    ensures Join([a, b, c], sep) == a + sep + b + sep + c
  {
    assert [a, b, c][1..] == [b, c];
    JoinTwo(b, c, sep);
  }

  /** Three words joined by single spaces split back into those words. */
  lemma JoinWords3(a: string, b: string, c: string)
    requires Words([a, b, c])
    ensures SplitWs(a + " " + b + " " + c) == [a, b, c]
  {
    JoinThree(a, b, c, " ");
    SplitWsJoin([a, b, c]);
  }
}
