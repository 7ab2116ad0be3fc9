/** The JavaScript string built-ins the parser relies on, over `seq<char>`:
    whitespace (`\s`, `trim`), ASCII upper-casing, `includes`, `startsWith`,
    `split('\n')`, `split(/\s+/)` and `join(' ')`. */
module Text {

  /** JavaScript's `\s` class, which is also the set `trim()` removes. */
  predicate IsSpace(c: char) {
    c == ' ' || c == '\t' || c == '\n' || c == '\r' || c == '\U{0B}' || c == '\U{0C}'
    || c == '\U{A0}' || c == '\U{1680}' || ('\U{2000}' <= c <= '\U{200A}')
    || c == '\U{2028}' || c == '\U{2029}' || c == '\U{202F}' || c == '\U{205F}'
    || c == '\U{3000}' || c == '\U{FEFF}'
  }

  predicate IsDigit(c: char) { '0' <= c <= '9' }

  predicate IsUpperLetter(c: char) { 'A' <= c <= 'Z' }

  predicate IsAsciiLetter(c: char) { 'A' <= c <= 'Z' || 'a' <= c <= 'z' }

  predicate NoSpace(s: string) { forall i | 0 <= i < |s| :: !IsSpace(s[i]) }

  /** Visible ASCII characters are not whitespace. */
  lemma VisibleAsciiNoSpace(s: string)
    requires forall i | 0 <= i < |s| :: '!' <= s[i] <= '~'
    ensures NoSpace(s)
  {
  }

  /** ASCII case folding: lower-case ASCII letters become upper-case, every
      other character is kept. */
  function UpperChar(c: char): (u: char)
    ensures IsAsciiLetter(c) <==> IsAsciiLetter(u)
    ensures 'a' <= c <= 'z' ==> IsUpperLetter(u)
    ensures !('a' <= c <= 'z') ==> u == c
  {
    if 'a' <= c <= 'z' then (c as int - 32) as char else c
  }

  function Upper(s: string): (u: string)
    ensures |u| == |s|
    ensures forall i | 0 <= i < |s| :: u[i] == UpperChar(s[i])
  {
    if s == [] then [] else [UpperChar(s[0])] + Upper(s[1..])
  }

  predicate StartsWith(s: string, p: string) {
    |p| <= |s| && s[..|p|] == p
  }

  /** `s.includes(sub)`, searched from the left. */
  predicate Includes(s: string, sub: string)
    decreases |s|
  {
    StartsWith(s, sub) || (|s| > 0 && Includes(s[1..], sub))
  }

  lemma {:induction false} IncludesAt(s: string, sub: string, i: nat)
    requires i + |sub| <= |s| && s[i..i + |sub|] == sub
    ensures Includes(s, sub)
    decreases i
  {
    if i > 0 {
      assert s[1..][i - 1..i - 1 + |sub|] == sub;
      IncludesAt(s[1..], sub, i - 1);
    }
  }

  lemma {:induction false} IncludesWitness(s: string, sub: string) returns (i: nat)
    requires Includes(s, sub)
    ensures i + |sub| <= |s| && s[i..i + |sub|] == sub
    decreases |s|
  {
    if StartsWith(s, sub) {
      i := 0;
    } else {
      var j := IncludesWitness(s[1..], sub);
      i := j + 1;
      assert s[i..i + |sub|] == s[1..][j..j + |sub|];
    }
  }

  /** `s.trimStart()`: the length of the leading whitespace run. */
  function LeadingSpace(s: string): (n: nat)
    ensures n <= |s|
    ensures forall i | 0 <= i < n :: IsSpace(s[i])
    ensures n < |s| ==> !IsSpace(s[n])
  {
    if s != [] && IsSpace(s[0]) then 1 + LeadingSpace(s[1..]) else 0
  }

  /** The index where the trailing whitespace run starts. */
  function TrailingSpace(s: string): (n: nat)
    ensures n <= |s|
    ensures forall i | n <= i < |s| :: IsSpace(s[i])
    ensures n > 0 ==> !IsSpace(s[n - 1])
  {
    if s != [] && IsSpace(s[|s| - 1]) then TrailingSpace(s[..|s| - 1]) else |s|
  }

  /** `s.trim()`. */
  function Trim(s: string): (t: string)
    ensures |t| <= |s|
    ensures t != [] ==> !IsSpace(t[0]) && !IsSpace(t[|t| - 1])
  {
    var lo := LeadingSpace(s);
    var rest := s[lo..];
    rest[..TrailingSpace(rest)]
  }

  predicate IsTrimmed(s: string) {
    s == [] || (!IsSpace(s[0]) && !IsSpace(s[|s| - 1]))
  }

  lemma TrimOfTrimmed(s: string)
    requires IsTrimmed(s)
    ensures Trim(s) == s
  {
    assert LeadingSpace(s) == 0;
    assert s[0..] == s;
    if s != [] {
      assert TrailingSpace(s) == |s|;
    }
  }

  /** `s.split(sep)` for a one-character separator. */
  function SplitOn(s: string, sep: char): (parts: seq<string>)
    ensures |parts| >= 1
    ensures forall k | 0 <= k < |parts| :: sep !in parts[k]
    decreases |s|
  {
    if s == [] then [""]
    else
      var rest := SplitOn(s[1..], sep);
      if s[0] == sep then [""] + rest
      else [[s[0]] + rest[0]] + rest[1..]
  }

  /** `parts.join(sep)`. */
  function Join(parts: seq<string>, sep: string): string {
    if parts == [] then ""
    else if |parts| == 1 then parts[0]
    else parts[0] + sep + Join(parts[1..], sep)
  }

  /** `s.split(/\s+/)`: the pieces between maximal whitespace runs; a leading
      or trailing run yields an empty first or last piece. */
  function SplitWs(s: string): (words: seq<string>)
    ensures |words| >= 1
    decreases |s|
  {
    if s == [] then [""]
    else
      var rest := SplitWs(s[1..]);
      if IsSpace(s[0]) then
        (if |s| > 1 && IsSpace(s[1]) then rest else [""] + rest)
      else [[s[0]] + rest[0]] + rest[1..]
  }

  /** Every character of `s` with the whitespace removed (`replace(/\s/g, '')`). */
  function RemoveSpaces(s: string): (r: string)
    ensures NoSpace(r)
    ensures |r| <= |s|
  {
    if s == [] then []
    else if IsSpace(s[0]) then RemoveSpaces(s[1..])
    else [s[0]] + RemoveSpaces(s[1..])
  }

  /** The number of `.` characters: `(s.match(/\./g) || []).length`. */
  function Dots(s: string): nat {
    if s == [] then 0 else (if s[0] == '.' then 1 else 0) + Dots(s[1..])
  }

  /** Dots count additively over a concatenation. */
  lemma {:induction false} DotsAppend(a: string, b: string)
    ensures Dots(a + b) == Dots(a) + Dots(b)
    decreases |a|
  {
    if a != [] {
      assert (a + b)[0] == a[0] && (a + b)[1..] == a[1..] + b;
      DotsAppend(a[1..], b);
    } else {
      assert a + b == b;
    }
  }

  /** A slice has no more dots than the whole. */
  lemma DotsSlice(s: string, a: nat, b: nat)
    requires a <= b <= |s|
    ensures Dots(s[a..b]) <= Dots(s)
  {
    assert s == s[..a] + s[a..b] + s[b..];
    DotsAppend(s[..a] + s[a..b], s[b..]);
    DotsAppend(s[..a], s[a..b]);
  }

  /** Trimming keeps every dot: the trimmed string is a slice of the original. */
  lemma DotsTrim(s: string)
    ensures Dots(Trim(s)) <= Dots(s)
  {
    var lo := LeadingSpace(s);
    var rest := s[lo..];
    assert rest == s[lo..|s|];
    DotsSlice(s, lo, |s|);
    assert Trim(s) == rest[0..TrailingSpace(rest)];
    DotsSlice(rest, 0, TrailingSpace(rest));
  }

  /** A string without a `.` has no dots. */
  lemma {:induction false} DotsNone(s: string)
    requires forall k | 0 <= k < |s| :: s[k] != '.'
    ensures Dots(s) == 0
    decreases |s|
  {
    if s != [] {
      assert forall k | 0 <= k < |s[1..]| :: s[1..][k] == s[k + 1];
      DotsNone(s[1..]);
    }
  }

  /** The dots of `s` are those before `i`, the one at `i` if any, and
      those after. */
  lemma DotsSplit(s: string, i: nat)
    requires i < |s|
    ensures Dots(s) == Dots(s[..i]) + (if s[i] == '.' then 1 else 0) + Dots(s[i + 1..])
  {
    assert s == s[..i] + [s[i]] + s[i + 1..];
    DotsAppend(s[..i] + [s[i]], s[i + 1..]);
    DotsAppend(s[..i], [s[i]]);
  }

  /** A string whose only dots are at `i` and `j` has two. */
  lemma DotsTwoAt(s: string, i: nat, j: nat)
    requires i < j < |s| && s[i] == '.' && s[j] == '.'
    requires forall k | 0 <= k < |s| && k != i && k != j :: s[k] != '.'
    ensures Dots(s) == 2
  {
    DotsSplit(s, j);
    DotsSplit(s[..j], i);
    assert s[..j][..i] == s[..i] && s[..j][i + 1..] == s[i + 1..j];
    DotsNone(s[..i]);
    DotsNone(s[i + 1..j]);
    DotsNone(s[j + 1..]);
  }

  /** Removing whitespace keeps every dot. */
  lemma {:induction false} DotsRemoveSpaces(s: string)
    ensures Dots(RemoveSpaces(s)) == Dots(s)
    decreases |s|
  {
    if s != [] {
      DotsRemoveSpaces(s[1..]);
      if !IsSpace(s[0]) {
        DotsAppend([s[0]], RemoveSpaces(s[1..]));
      }
    }
  }

  /** `split` and `join` on the same one-character separator are inverse. */
  lemma {:induction false} JoinSplitOn(s: string, sep: char)
    ensures Join(SplitOn(s, sep), [sep]) == s
    decreases |s|
  {
    if s != [] {
      var rest := SplitOn(s[1..], sep);
      JoinSplitOn(s[1..], sep);
      if s[0] == sep {
        assert SplitOn(s, sep) == [""] + rest;
        assert ([""] + rest)[1..] == rest;
        assert s == [sep] + s[1..];
      } else if |rest| == 1 {
        assert s == [s[0]] + s[1..];
      } else {
        var parts := SplitOn(s, sep);
        assert parts[1..] == rest[1..];
        assert Join(rest, [sep]) == rest[0] + [sep] + Join(rest[1..], [sep]);
        assert s == [s[0]] + s[1..];
      }
    }
  }

  /** The shape of `split(/\s+/)` on `s`: no piece holds whitespace, only the
      first and the last piece can be empty, and they are empty exactly when
      the string starts or ends with whitespace; there is one piece exactly
      when `s` holds no whitespace. */
  predicate WsShape(s: string, w: seq<string>)
  {
    && |w| >= 1
    && (forall k | 0 <= k < |w| :: NoSpace(w[k]))
    && (forall k | 0 < k < |w| - 1 :: w[k] != [])
    && ((w[0] == []) <==> (s == [] || IsSpace(s[0])))
    && ((w[|w| - 1] == []) <==> (s == [] || IsSpace(s[|s| - 1])))
    && ((|w| == 1) <==> NoSpace(s))
  }

  lemma {:induction false} SplitWsShape(s: string)
    ensures var w := SplitWs(s);
      && (forall k | 0 <= k < |w| :: NoSpace(w[k]))
      && (forall k | 0 < k < |w| - 1 :: w[k] != [])
      && ((w[0] == []) <==> (s == [] || IsSpace(s[0])))
      && ((w[|w| - 1] == []) <==> (s == [] || IsSpace(s[|s| - 1])))
      && ((|w| == 1) <==> NoSpace(s))
    decreases |s|
  {
    if s != [] {
      SplitWsShape(s[1..]);
      assert WsShape(s[1..], SplitWs(s[1..]));
      if IsSpace(s[0]) {
        SplitWsSpaceStep(s, SplitWs(s[1..]));
      } else {
        SplitWsWordStep(s, SplitWs(s[1..]));
      }
      assert WsShape(s, SplitWs(s));
    }
  }

  /** A leading space either merges with the next one or opens an empty piece. */
  lemma SplitWsSpaceStep(s: string, rest: seq<string>)
    requires s != [] && IsSpace(s[0]) && rest == SplitWs(s[1..]) && WsShape(s[1..], rest)
    ensures WsShape(s, SplitWs(s))
  {
    if |s| > 1 && IsSpace(s[1]) {
      SpaceMerged(s, rest);
    } else {
      SpaceOpens(s, rest, [""] + rest);
    }
  }

  lemma SpaceMerged(s: string, rest: seq<string>)
    requires |s| > 1 && IsSpace(s[0]) && IsSpace(s[1]) && WsShape(s[1..], rest)
    ensures WsShape(s, rest)
  {
    assert !NoSpace(s);
    assert s[1..][|s[1..]| - 1] == s[|s| - 1];
  }

  lemma SpaceOpens(s: string, rest: seq<string>, w: seq<string>)
    requires s != [] && IsSpace(s[0]) && (|s| == 1 || !IsSpace(s[1]))
    requires WsShape(s[1..], rest) && w == [""] + rest
    ensures WsShape(s, w)
  {
    assert !NoSpace(s);
    assert forall k | 0 < k < |w| :: w[k] == rest[k - 1];
    if |s| > 1 {
      assert s[1..][|s[1..]| - 1] == s[|s| - 1];
    }
  }

  /** A leading non-space character joins the first piece. */
  lemma SplitWsWordStep(s: string, rest: seq<string>)
    requires s != [] && !IsSpace(s[0]) && rest == SplitWs(s[1..]) && WsShape(s[1..], rest)
    ensures WsShape(s, SplitWs(s))
  {
    WordJoins(s, rest, [[s[0]] + rest[0]] + rest[1..]);
  }

  lemma WordJoins(s: string, rest: seq<string>, w: seq<string>)
    requires s != [] && !IsSpace(s[0]) && WsShape(s[1..], rest)
    requires w == [[s[0]] + rest[0]] + rest[1..]
    ensures WsShape(s, w)
  {
    assert NoSpace([s[0]] + rest[0]);
    assert forall k | 0 < k < |w| :: w[k] == rest[k];
    assert NoSpace(s) <==> NoSpace(s[1..]) by {
      if NoSpace(s[1..]) {
        forall i | 0 <= i < |s| ensures !IsSpace(s[i]) {
          if i > 0 { assert s[i] == s[1..][i - 1]; }
        }
      }
    }
    if |s| > 1 {
      assert s[1..][|s[1..]| - 1] == s[|s| - 1];
    }
  }

  lemma {:induction false} SplitWsAppendWord(w: string, s: string)
    requires w != [] && NoSpace(w)
    ensures SplitWs(w + s) == [w + SplitWs(s)[0]] + SplitWs(s)[1..]
    decreases |w|
  {
    var t := w[1..] + s;
    assert (w + s)[1..] == t;
    assert (w + s)[0] == w[0];
    if |w| > 1 {
      SplitWsAppendWord(w[1..], s);
      assert [w[0]] + (w[1..] + SplitWs(s)[0]) == w + SplitWs(s)[0];
    } else {
      assert t == s;
      assert [w[0]] + SplitWs(s)[0] == w + SplitWs(s)[0];
    }
  }

  predicate Words(ws: seq<string>) {
    |ws| >= 1 && forall k | 0 <= k < |ws| :: ws[k] != [] && NoSpace(ws[k])
  }

  lemma {:induction false} JoinEnds(ws: seq<string>)
    requires Words(ws)
    ensures var j := Join(ws, " ");
      j != [] && j[0] == ws[0][0] && j[|j| - 1] == ws[|ws| - 1][|ws[|ws| - 1]| - 1]
    decreases |ws|
  {
    if |ws| > 1 {
      JoinEnds(ws[1..]);
    }
  }

  /** Splitting a space-joined list of words gives the words back. */
  lemma {:induction false} SplitWsJoin(ws: seq<string>)
    requires Words(ws)
    ensures SplitWs(Join(ws, " ")) == ws
    decreases |ws|
  {
    if |ws| == 1 {
      SplitWsAppendWord(ws[0], "");
      assert ws[0] + "" == ws[0];
    } else {
      var j := Join(ws[1..], " ");
      SplitWsJoin(ws[1..]);
      JoinEnds(ws[1..]);
      assert (" " + j)[1..] == j;
      assert SplitWs(" " + j) == [""] + SplitWs(j);
      assert Join(ws, " ") == ws[0] + (" " + j);
      SplitWsAppendWord(ws[0], " " + j);
      assert ws[0] + "" == ws[0];
      assert ([""] + SplitWs(j))[1..] == ws[1..];
    }
  }

  /** The words of a trimmed, non-empty string are non-empty and hold no space. */
  lemma WordsOfTrimmed(s: string)
    requires s != [] && IsTrimmed(s)
    ensures Words(SplitWs(s))
  {
    SplitWsShape(s);
  }
}
