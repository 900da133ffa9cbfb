/**
  The pattern search of `_extract_ver`: the leftmost place where the text reads
  `set(` NAME ` ` DIGITS `)`, where DIGITS is a non-empty run of decimal digits.

  `OccursAt` is the reference meaning of "the pattern matches at position i with
  group d"; `MatchAt` is the scanner's test at one position, `SearchFrom` the
  left-to-right scan, and `ExtractVer` the function of the source.
 */
module VersionPattern {
  import opened Wrappers

  predicate IsDigit(c: char) { '0' <= c <= '9' }

  /** A non-empty run of decimal digits, what `\d+` matches. */
  predicate IsDigits(s: string) {
    |s| > 0 && forall i :: 0 <= i < |s| ==> IsDigit(s[i])
  }

  /** The characters of the field names the script searches for. */
  predicate IsNameChar(c: char) { 'A' <= c <= 'Z' || 'a' <= c <= 'z' || c == '_' }

  predicate IsName(s: string) {
    forall i :: 0 <= i < |s| ==> IsNameChar(s[i])
  }

  /** The literal part of the pattern that precedes the digits. */
  function Header(name: string): string { "set(" + name + " " }

  /** The whole text a match covers. */
  function Occurrence(name: string, digits: string): string { Header(name) + digits + ")" }

  /** The pattern matches `text` at position `i`, and its digit group is `digits`. */
  predicate OccursAt(text: string, name: string, i: nat, digits: string) {
    IsDigits(digits) &&
    i + |Occurrence(name, digits)| <= |text| &&
    text[i..i + |Occurrence(name, digits)|] == Occurrence(name, digits)
  }

  /** No match starts at any position in `lo..hi`. */
  ghost predicate NoOccurrenceBetween(text: string, name: string, lo: nat, hi: nat) {
    forall j: nat, d: string :: lo <= j < hi ==> !OccursAt(text, name, j, d)
  }

  /** No match starts anywhere in `text` (a search tries the positions 0 to |text|). */
  ghost predicate NoOccurrence(text: string, name: string) {
    NoOccurrenceBetween(text, name, 0, |text| + 1)
  }

  /** The match at `p` with group `d` is the leftmost one. */
  ghost predicate LeftmostAt(text: string, name: string, p: nat, d: string) {
    OccursAt(text, name, p, d) && NoOccurrenceBetween(text, name, 0, p)
  }

  /** Length of the maximal run of digits at the start of `s`. */
  function DigitRunLength(s: string): (n: nat)
    ensures n <= |s|
    ensures forall i :: 0 <= i < n ==> IsDigit(s[i])
    ensures n < |s| ==> !IsDigit(s[n])
  {
    if s == [] || !IsDigit(s[0]) then 0 else 1 + DigitRunLength(s[1..])
  }

  /** The contract of DigitRunLength determines it. */
  lemma DigitRunLengthIs(s: string, n: nat)
    requires n <= |s|
    requires forall i :: 0 <= i < n ==> IsDigit(s[i])
    requires n < |s| ==> !IsDigit(s[n])
    ensures DigitRunLength(s) == n
  {
  }

  /**
    The test at one position: the header, then the maximal digit run, which must
    be non-empty and followed by `)`. Since `)` is not a digit, no shorter run
    could be followed by `)`, so this is the only way the pattern can match here.
   */
  function MatchAt(text: string, name: string, i: nat): Option<string>
    requires i <= |text|
  {
    var h := Header(name);
    if i + |h| <= |text| && text[i..i + |h|] == h then
      var rest := text[i + |h|..];
      var n := DigitRunLength(rest);
      if 0 < n < |rest| && rest[n] == ')' then Some(rest[..n]) else None
    else
      None
  }

  /** The test at one position finds exactly the matches there. */
  lemma MatchAtSpec(text: string, name: string, i: nat, d: string)
    requires i <= |text|
    ensures OccursAt(text, name, i, d) <==> MatchAt(text, name, i) == Some(d)
  {
    var h := Header(name);
    var o := Occurrence(name, d);
    if OccursAt(text, name, i, d) {
      assert o == h + (d + ")");
      assert text[i..i + |h|] == o[..|h|];
      var rest := text[i + |h|..];
      assert rest[..|d| + 1] == d + ")" by {
        assert rest[..|d| + 1] == text[i..i + |o|][|h|..];
      }
      assert rest[|d|] == ')';
      DigitRunLengthIs(rest, |d|);
      assert rest[..|d|] == d;
    }
    if MatchAt(text, name, i) == Some(d) {
      var rest := text[i + |h|..];
      var n := DigitRunLength(rest);
      assert d == rest[..n] && 0 < n < |rest| && rest[n] == ')';
      assert IsDigits(d);
      assert |o| == |h| + n + 1;
      assert text[i..i + |o|] == text[i..i + |h|] + rest[..n + 1];
      assert rest[..n + 1] == d + ")";
    }
  }

  lemma MatchAtCorrect(text: string, name: string, i: nat)
    requires i <= |text|
    ensures forall d :: OccursAt(text, name, i, d) <==> MatchAt(text, name, i) == Some(d)
  {
    forall d ensures OccursAt(text, name, i, d) <==> MatchAt(text, name, i) == Some(d) {
      MatchAtSpec(text, name, i, d);
    }
  }

  /** At most one digit group matches at a given position. */
  lemma OccurrenceUnique(text: string, name: string, i: nat, d1: string, d2: string)
    requires OccursAt(text, name, i, d1) && OccursAt(text, name, i, d2)
    ensures d1 == d2
  {
    MatchAtSpec(text, name, i, d1);
    MatchAtSpec(text, name, i, d2);
  }

  /** Where a match is found: its start position and its digit group (`m.group(1)`). */
  datatype Match = Match(start: nat, digits: string)

  /** Scan the positions `i..|text|` from left to right and stop at the first match. */
  function SearchFrom(text: string, name: string, i: nat): (r: Option<Match>)
    requires i <= |text|
    decreases |text| - i
    ensures r.Some? ==>
      i <= r.value.start && OccursAt(text, name, r.value.start, r.value.digits) &&
      NoOccurrenceBetween(text, name, i, r.value.start)
    ensures r.None? ==> NoOccurrenceBetween(text, name, i, |text| + 1)
  {
    MatchAtCorrect(text, name, i);
    match MatchAt(text, name, i)
    case Some(d) => Some(Match(i, d))
    case None => if i == |text| then None else SearchFrom(text, name, i + 1)
  }

  /** The search of the compiled pattern over the whole text. */
  function Search(text: string, name: string): (r: Option<Match>)
    ensures r.Some? ==> LeftmostAt(text, name, r.value.start, r.value.digits)
    ensures r.None? ==> NoOccurrence(text, name)
  {
    SearchFrom(text, name, 0)
  }

  /**
    `_extract_ver(text, ver_str, default)`: the digit group of the leftmost match,
    or `default` when nothing matches.
   */
  function ExtractVer(text: string, verStr: string, default: string): (r: string)
    ensures r == default || IsDigits(r)
    ensures r != default ==> exists p: nat :: LeftmostAt(text, verStr, p, r)
    ensures NoOccurrence(text, verStr) ==> r == default
  {
    match Search(text, verStr)
    case Some(m) => m.digits
    case None => default
  }

  /** The leftmost match decides the result, whatever comes after it. */
  lemma ExtractVerLeftmost(text: string, name: string, default: string, p: nat, d: string)
    requires LeftmostAt(text, name, p, d)
    ensures ExtractVer(text, name, default) == d
  {
    var m := Search(text, name).value;
    assert m.start == p;
    OccurrenceUnique(text, name, p, d, m.digits);
  }

  /** With a default that is no digit run (such as "x"), the default comes back exactly when nothing matches. */
  lemma ExtractVerDefaultIff(text: string, name: string, default: string)
    requires !IsDigits(default)
    ensures ExtractVer(text, name, default) == default <==> NoOccurrence(text, name)
  {
    if ExtractVer(text, name, default) == default {
      assert Search(text, name).None?;
    }
  }

  /** The first four characters of any match are `set(`. */
  lemma OccursAtChars(text: string, name: string, j: nat, d: string)
    requires OccursAt(text, name, j, d)
    ensures j + 4 <= |text|
    ensures text[j] == 's' && text[j + 1] == 'e' && text[j + 2] == 't' && text[j + 3] == '('
  {
    var o := Occurrence(name, d);
    assert o[0] == 's' && o[1] == 'e' && o[2] == 't' && o[3] == '(';
    var w := text[j..j + |o|];
    assert w[0] == text[j] && w[1] == text[j + 1] && w[2] == text[j + 2] && w[3] == text[j + 3];
  }

  /** A position where the text does not read `set(` starts no match. */
  lemma NotOccursAtSet(text: string, name: string, j: nat, d: string)
    requires !(j + 4 <= |text| && text[j] == 's' && text[j + 1] == 'e' && text[j + 2] == 't' && text[j + 3] == '(')
    ensures !OccursAt(text, name, j, d)
  {
    var o := Occurrence(name, d);
    assert o[0] == 's' && o[1] == 'e' && o[2] == 't' && o[3] == '(';
    if j + |o| <= |text| {
      var w := text[j..j + |o|];
      assert w[0] == text[j] && w[1] == text[j + 1] && w[2] == text[j + 2] && w[3] == text[j + 3];
    }
  }

  /** A position where the text differs from the would-be match at offset `k` starts no match. */
  lemma NotOccursAt(text: string, name: string, j: nat, d: string, k: nat)
    requires k < |Occurrence(name, d)|
    requires j + k < |text| ==> text[j + k] != Occurrence(name, d)[k]
    ensures !OccursAt(text, name, j, d)
  {
    var o := Occurrence(name, d);
    if j + |o| <= |text| {
      assert text[j..j + |o|][k] == text[j + k];
    }
  }

  /** In a match of a well-formed name, the only `(` is the one of `set(`. */
  lemma ParenOnlyInSet(name: string, d: string, k: nat)
    requires IsName(name) && IsDigits(d)
    requires k < |Occurrence(name, d)| && k != 3
    ensures Occurrence(name, d)[k] != '('
  {
    var o := Occurrence(name, d);
    assert o == "set(" + name + " " + d + ")";
    if 4 <= k < 4 + |name| {
      assert o[k] == name[k - 4];
    } else if 4 + |name| < k < 5 + |name| + |d| {
      assert o[k] == d[k - 5 - |name|];
    }
  }

  /** A match that fits before the end of `text` is unaffected by what follows. */
  lemma OccursAtPrefix(text: string, more: string, name: string, j: nat, d: string)
    requires j + |Occurrence(name, d)| <= |text|
    ensures OccursAt(text + more, name, j, d) <==> OccursAt(text, name, j, d)
  {
    var n := |Occurrence(name, d)|;
    assert (text + more)[j..j + n] == text[j..j + n];
  }

  /** A match inside `t` is a match at the shifted position inside `u + t`, and back. */
  lemma OccursAtShift(u: string, t: string, name: string, j: nat, d: string)
    requires j <= |t|
    ensures OccursAt(u + t, name, |u| + j, d) <==> OccursAt(t, name, j, d)
  {
    var n := |Occurrence(name, d)|;
    if j + n <= |t| {
      assert (u + t)[|u| + j..|u| + j + n] == t[j..j + n];
    }
  }

  /** A prefix in which no match starts can be dropped. */
  lemma ExtractVerSkipPrefix(u: string, t: string, name: string, default: string)
    requires NoOccurrenceBetween(u + t, name, 0, |u|)
    ensures ExtractVer(u + t, name, default) == ExtractVer(t, name, default)
  {
    match Search(t, name)
    case Some(m) =>
      OccursAtShift(u, t, name, m.start, m.digits);
      forall j: nat, d | |u| <= j < |u| + m.start ensures !OccursAt(u + t, name, j, d) {
        OccursAtShift(u, t, name, j - |u|, d);
      }
      ExtractVerLeftmost(u + t, name, default, |u| + m.start, m.digits);
    case None =>
      forall j: nat, d | |u| <= j < |u + t| + 1 ensures !OccursAt(u + t, name, j, d) {
        OccursAtShift(u, t, name, j - |u|, d);
      }
  }

  /**
    Once the text holds a match, appending more text never changes the result:
    a match that started earlier and ran into the appended part would have its
    only `(` at the place of the found one's `set(`.
   */
  lemma ExtractVerAppend(text: string, more: string, name: string, default: string)
    requires IsName(name)
    requires Search(text, name).Some?
    ensures ExtractVer(text + more, name, default) == ExtractVer(text, name, default)
  {
    var m := Search(text, name).value;
    var p, d := m.start, m.digits;
    OccursAtPrefix(text, more, name, p, d);
    OccursAtChars(text, name, p, d);
    forall j: nat, d' | j < p && IsDigits(d') ensures !OccursAt(text + more, name, j, d') {
      var o' := Occurrence(name, d');
      if j + |o'| <= |text| {
        OccursAtPrefix(text, more, name, j, d');
      } else {
        assert (text + more)[p + 3] == '(';
        ParenOnlyInSet(name, d', p + 3 - j);
        NotOccursAt(text + more, name, j, d', p + 3 - j);
      }
    }
    ExtractVerLeftmost(text + more, name, default, p, d);
    ExtractVerLeftmost(text, name, default, p, d);
  }

  /** A match at position 0 is the result. */
  lemma ExtractVerOwnLine(name: string, d: string, rest: string, default: string)
    requires IsDigits(d)
    ensures ExtractVer(Occurrence(name, d) + rest, name, default) == d
  {
    var text := Occurrence(name, d) + rest;
    assert text[0..|Occurrence(name, d)|] == Occurrence(name, d);
    ExtractVerLeftmost(text, name, default, 0, d);
  }

  /** Two different well-formed names have headers that differ at some common position. */
  lemma HeadersDiffer(name: string, other: string) returns (k: nat)
    requires IsName(name) && IsName(other) && name != other
    ensures k < |Header(name)| && k < |Header(other)| && Header(name)[k] != Header(other)[k]
  {
    if |name| < |other| {
      k := 4 + |name|;
      assert Header(other)[k] == other[|name|];
    } else if |other| < |name| {
      k := 4 + |other|;
      assert Header(name)[k] == name[|other|];
    } else {
      var i :| 0 <= i < |name| && name[i] != other[i];
      k := 4 + i;
      assert Header(name)[k] == name[i] && Header(other)[k] == other[i];
    }
  }

  /** The match of another field does not hold a match of this one, so it can be dropped. */
  lemma ExtractVerOtherLine(name: string, other: string, d: string, rest: string, default: string)
    requires IsName(name) && IsName(other) && name != other && IsDigits(d)
    ensures ExtractVer(Occurrence(other, d) + rest, name, default) == ExtractVer(rest, name, default)
  {
    var u := Occurrence(other, d);
    var text := u + rest;
    forall j: nat, d' | j < |u| ensures !OccursAt(text, name, j, d') {
      if j == 0 {
        var k := HeadersDiffer(name, other);
        assert Occurrence(name, d')[k] == Header(name)[k];
        assert text[k] == u[k] == Header(other)[k];
        NotOccursAt(text, name, 0, d', k);
      } else if j + 3 < |u| {
        ParenOnlyInSet(other, d, j + 3);
        assert text[j + 3] == u[j + 3];
        NotOccursAtSet(text, name, j, d');
      } else {
        assert text[|u| - 1] == u[|u| - 1] == ')';
        NotOccursAtSet(text, name, j, d');
      }
    }
    ExtractVerSkipPrefix(u, rest, name, default);
  }

  /** The text reads `set(` at position `k`. */
  predicate SetCallAt(u: string, k: nat) {
    k + 4 <= |u| && u[k] == 's' && u[k + 1] == 'e' && u[k + 2] == 't' && u[k + 3] == '('
  }

  /** The text has no `set(` in it. */
  predicate NoSetCall(u: string) {
    forall k: nat :: k < |u| ==> !SetCallAt(u, k)
  }

  /** A match of a well-formed name holds no newline. */
  lemma OccurrenceNoNewline(name: string, d: string, k: nat)
    requires IsName(name) && IsDigits(d)
    requires k < |Occurrence(name, d)|
    ensures Occurrence(name, d)[k] != '\n'
  {
    var o := Occurrence(name, d);
    assert o == "set(" + name + " " + d + ")";
    if 4 <= k < 4 + |name| {
      assert o[k] == name[k - 4];
    } else if 4 + |name| < k < 5 + |name| + |d| {
      assert o[k] == d[k - 5 - |name|];
    }
  }

  /**
    A line that holds no match can be dropped before the rest: since no match
    holds a newline, none can start in the line and run past its end.
   */
  lemma ExtractVerSkipUnmatchedLine(c: string, t: string, name: string, default: string)
    requires IsName(name) && NoOccurrence(c, name)
    ensures ExtractVer(c + "\n" + t, name, default) == ExtractVer(t, name, default)
  {
    var u := c + "\n";
    var text := u + t;
    assert c + "\n" + t == text;
    assert text == c + ("\n" + t);
    forall j: nat, d | j < |u| && IsDigits(d) ensures !OccursAt(text, name, j, d) {
      var o := Occurrence(name, d);
      if j + |o| <= |c| {
        OccursAtPrefix(c, "\n" + t, name, j, d);
      } else {
        assert text[|c|] == '\n';
        OccurrenceNoNewline(name, d, |c| - j);
        NotOccursAt(text, name, j, d, |c| - j);
      }
    }
    ExtractVerSkipPrefix(u, t, name, default);
  }

  /**
    A candidate that starts like a match but fails (`set(NAME abc)`, `set(NAME )`,
    `set(NAME 12` cut short, `set(NAME $(V))`) does not hide a later valid match.
    The body `b` after the header holds no `set(` and is not a digit run closed by `)`.
   */
  lemma CandidateSkipped(name: string, b: string, d: string, rest: string, default: string)
    requires IsName(name) && IsDigits(d)
    requires NoSetCall(b)
    requires !(0 < DigitRunLength(b) < |b| && b[DigitRunLength(b)] == ')')
    ensures ExtractVer(Header(name) + b + Occurrence(name, d) + rest, name, default) == d
  {
    var u := Header(name) + b;
    var t := Occurrence(name, d) + rest;
    assert Header(name) + b + Occurrence(name, d) + rest == u + t;
    OccurrenceStartsWithSet(name, d, rest);
    CandidatePrefixClear(name, b, t);
    ExtractVerSkipPrefix(u, t, name, default);
    ExtractVerOwnLine(name, d, rest, default);
  }

  /** In the header of a well-formed name, the only `(` is the one of `set(`. */
  lemma HeaderParen(name: string, k: nat)
    requires IsName(name) && k < |Header(name)| && k != 3
    ensures Header(name)[k] != '('
  {
    if 4 <= k < 4 + |name| {
      assert Header(name)[k] == name[k - 4];
    }
  }

  /** No match starts inside a failed candidate that is followed by `set`. */
  lemma CandidatePrefixClear(name: string, b: string, t: string)
    requires IsName(name)
    requires NoSetCall(b)
    requires !(0 < DigitRunLength(b) < |b| && b[DigitRunLength(b)] == ')')
    requires |t| >= 3 && t[0] == 's' && t[1] == 'e' && t[2] == 't'
    ensures NoOccurrenceBetween(Header(name) + b + t, name, 0, |Header(name) + b|)
  {
    var h := Header(name);
    var u := h + b;
    var text := u + t;
    CandidateFailsAt0(name, b, t);
    forall j: nat, d' | j < |u| ensures !OccursAt(text, name, j, d') {
      if j == 0 {
        MatchAtSpec(text, name, 0, d');
      } else if j + 3 < |h| {
        HeaderParen(name, j + 3);
        assert text[j + 3] == u[j + 3] == h[j + 3];
        NotOccursAtSet(text, name, j, d');
      } else if j < |h| {
        assert text[|h| - 1] == u[|h| - 1] == h[|h| - 1] == ' ';
        NotOccursAtSet(text, name, j, d');
      } else if j + 3 < |u| {
        assert text == h + (b + t);
        NoSetCallAt(h, b, t, name, j - |h|, d');
      } else {
        assert text[j + 3] == t[j + 3 - |u|];
        NotOccursAtSet(text, name, j, d');
      }
    }
  }

  /** No match starts at a position of a text piece that holds no `set(`, when `set(` would fit in it. */
  lemma NoSetCallAt(h: string, b: string, t: string, name: string, k: nat, d: string)
    requires NoSetCall(b) && k + 3 < |b|
    ensures !OccursAt(h + (b + t), name, |h| + k, d)
  {
    var text := h + (b + t);
    var j := |h| + k;
    assert !SetCallAt(b, k);
    assert text[j] == b[k] && text[j + 1] == b[k + 1] && text[j + 2] == b[k + 2] && text[j + 3] == b[k + 3];
    NotOccursAtSet(text, name, j, d);
  }

  /** Text that begins with a match begins with `set(`. */
  lemma OccurrenceStartsWithSet(name: string, d: string, rest: string)
    ensures var t := Occurrence(name, d) + rest;
      |t| >= 4 && t[0] == 's' && t[1] == 'e' && t[2] == 't' && t[3] == '('
  {
    assert Occurrence(name, d) + rest == "set(" + (name + " " + d + ")" + rest);
  }

  /** The scanner's test rejects a failed candidate followed by text that starts with `s`. */
  lemma CandidateFailsAt0(name: string, b: string, t: string)
    requires !(0 < DigitRunLength(b) < |b| && b[DigitRunLength(b)] == ')')
    requires |t| > 0 && t[0] == 's'
    ensures MatchAt(Header(name) + b + t, name, 0) == None
  {
    var h := Header(name);
    var text := h + (b + t);
    assert h + b + t == text;
    assert text[0..|h|] == h;
    var rest := text[|h|..];
    assert rest == b + t;
    var n := DigitRunLength(b);
    forall i | 0 <= i < n ensures IsDigit(rest[i]) {
      assert rest[i] == b[i];
    }
    if n < |b| {
      assert rest[n] == b[n];
    } else {
      assert rest[n] == t[0];
    }
    DigitRunLengthIs(rest, n);
    assert !(0 < n < |rest| && rest[n] == ')');
  }

  /** The four failing shapes named in `CandidateSkipped`'s comment, each followed by a valid match. */
  lemma CandidateExamples(name: string, rest: string, default: string)
    requires IsName(name)
    ensures ExtractVer(Header(name) + "abc)" + Occurrence(name, "7") + rest, name, default) == "7"
    ensures ExtractVer(Header(name) + ")" + Occurrence(name, "7") + rest, name, default) == "7"
    ensures ExtractVer(Header(name) + "12" + Occurrence(name, "7") + rest, name, default) == "7"
    ensures ExtractVer(Header(name) + "$(V))\n" + Occurrence(name, "7") + rest, name, default) == "7"
  {
    assert IsDigits("7");
    DigitRunLengthIs("abc)", 0);
    CandidateSkipped(name, "abc)", "7", rest, default);
    DigitRunLengthIs(")", 0);
    CandidateSkipped(name, ")", "7", rest, default);
    DigitRunLengthIs("12", 2);
    CandidateSkipped(name, "12", "7", rest, default);
    DigitRunLengthIs("$(V))\n", 0);
    CandidateSkipped(name, "$(V))\n", "7", rest, default);
  }
}
