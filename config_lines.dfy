/**
  Configuration text built from lines. A `Setting` line reads `set(NAME DIGITS)`;
  an `Other` line is any text at all, which may itself hold a match (an indented
  setting, say) or a `set(` of another name. Since no match holds a newline, the
  search over such a text finds, for each name, the value of the first line that
  holds a match of it.
 */
module ConfigLines {
  import opened Wrappers
  import opened VersionPattern

  datatype Line = Setting(name: string, digits: string) | Other(content: string)

  predicate WellFormed(l: Line) {
    match l
    case Setting(n, d) => IsName(n) && IsDigits(d)
    case Other(_) => true
  }

  predicate AllWellFormed(lines: seq<Line>) {
    forall i :: 0 <= i < |lines| ==> WellFormed(lines[i])
  }

  function RenderLine(l: Line): string {
    match l
    case Setting(n, d) => Occurrence(n, d) + "\n"
    case Other(c) => c + "\n"
  }

  /** The text of the lines, each ended by a newline. */
  function Render(lines: seq<Line>): string {
    if lines == [] then "" else RenderLine(lines[0]) + Render(lines[1..])
  }

  /** The digits one line gives `name`: its own setting, or the leftmost match inside it. */
  function LineValue(l: Line, name: string): Option<string> {
    match l
    case Setting(n, d) => if n == name then Some(d) else None
    case Other(c) =>
      match Search(c, name)
      case Some(m) => Some(m.digits)
      case None => None
  }

  /** The value of the first line that gives `name` one. */
  function FirstSetting(lines: seq<Line>, name: string): Option<string> {
    if lines == [] then None
    else if LineValue(lines[0], name).Some? then LineValue(lines[0], name)
    else FirstSetting(lines[1..], name)
  }

  /** What one line gives a name is a digit run. */
  lemma LineValueDigits(l: Line, name: string)
    requires WellFormed(l) && LineValue(l, name).Some?
    ensures IsDigits(LineValue(l, name).value)
  {
  }

  /** A leading line decides the result when it gives the name a value, and is skipped otherwise. */
  lemma ExtractVerFirstLine(l: Line, rest: string, name: string, default: string)
    requires IsName(name) && WellFormed(l)
    ensures ExtractVer(RenderLine(l) + rest, name, default) ==
      match LineValue(l, name)
      case Some(d) => d
      case None => ExtractVer(rest, name, default)
  {
    match l
    case Setting(n, d) =>
      assert RenderLine(l) + rest == Occurrence(n, d) + ("\n" + rest);
      if n == name {
        ExtractVerOwnLine(name, d, "\n" + rest, default);
      } else {
        ExtractVerOtherLine(name, n, d, "\n" + rest, default);
        assert NoOccurrence("", name);
        assert "\n" + rest == "" + "\n" + rest;
        ExtractVerSkipUnmatchedLine("", rest, name, default);
      }
    case Other(c) =>
      assert RenderLine(l) + rest == c + "\n" + rest;
      if Search(c, name).Some? {
        assert RenderLine(l) + rest == c + ("\n" + rest);
        ExtractVerAppend(c, "\n" + rest, name, default);
      } else {
        ExtractVerSkipUnmatchedLine(c, rest, name, default);
      }
  }

  /** `_extract_ver` over such a text yields the first line's value for the name, or the default. */
  lemma {:induction false} ExtractVerRender(lines: seq<Line>, name: string, default: string)
    requires IsName(name) && AllWellFormed(lines)
    ensures ExtractVer(Render(lines), name, default) ==
      match FirstSetting(lines, name)
      case Some(d) => d
      case None => default
    decreases |lines|
  {
    if lines == [] {
      assert NoOccurrence(Render(lines), name);
    } else {
      assert AllWellFormed(lines[1..]) by {
        forall i | 0 <= i < |lines[1..]| ensures WellFormed(lines[1..][i]) {
          assert lines[1..][i] == lines[i + 1];
        }
      }
      assert WellFormed(lines[0]);
      ExtractVerFirstLine(lines[0], Render(lines[1..]), name, default);
      ExtractVerRender(lines[1..], name, default);
    }
  }

  /** The first setting of a concatenation comes from its first part when that part has one. */
  lemma {:induction false} FirstSettingAppend(a: seq<Line>, b: seq<Line>, name: string)
    ensures FirstSetting(a + b, name) ==
      if FirstSetting(a, name).Some? then FirstSetting(a, name) else FirstSetting(b, name)
    decreases |a|
  {
    if a == [] {
      assert a + b == b;
    } else {
      assert (a + b)[1..] == a[1..] + b;
      FirstSettingAppend(a[1..], b, name);
    }
  }

  /** A line that gives `name` no value can be inserted anywhere without changing its first setting. */
  lemma FirstSettingInsert(l1: seq<Line>, l2: seq<Line>, l: Line, name: string)
    requires LineValue(l, name).None?
    ensures FirstSetting(l1 + [l] + l2, name) == FirstSetting(l1 + l2, name)
  {
    FirstSettingAppend(l1 + [l], l2, name);
    FirstSettingAppend(l1, [l], name);
    FirstSettingAppend(l1, l2, name);
  }

  /** Inserting an `Other` line keeps the lines well formed. */
  lemma InsertWellFormed(l1: seq<Line>, l2: seq<Line>, c: string)
    requires AllWellFormed(l1 + l2)
    ensures AllWellFormed(l1 + [Other(c)] + l2)
  {
    var l := l1 + [Other(c)] + l2;
    forall i | 0 <= i < |l| ensures WellFormed(l[i]) {
      if i < |l1| {
        assert l[i] == (l1 + l2)[i];
      } else if i > |l1| {
        assert l[i] == (l1 + l2)[i - 1];
      }
    }
  }

  /** Every line that gives `name` a value gives it the same one. */
  ghost predicate Consistent(lines: seq<Line>, name: string) {
    forall l1, l2 :: l1 in lines && l2 in lines && LineValue(l1, name).Some? && LineValue(l2, name).Some? ==>
      LineValue(l1, name) == LineValue(l2, name)
  }

  /** The first setting comes from a line of the text; without one, no line gives the name a value. */
  lemma {:induction false} FirstSettingMember(lines: seq<Line>, name: string)
    ensures FirstSetting(lines, name).Some? ==> exists l :: l in lines && LineValue(l, name) == FirstSetting(lines, name)
    ensures FirstSetting(lines, name).None? ==> forall l :: l in lines ==> LineValue(l, name).None?
    decreases |lines|
  {
    if lines != [] {
      FirstSettingMember(lines[1..], name);
      assert forall l :: l in lines <==> l == lines[0] || l in lines[1..];
    }
  }

  /** When a name is given one value throughout, reordering the lines does not change its first setting. */
  lemma FirstSettingReorder(l1: seq<Line>, l2: seq<Line>, name: string)
    requires multiset(l1) == multiset(l2) && Consistent(l1, name)
    ensures FirstSetting(l1, name) == FirstSetting(l2, name)
  {
    assert forall l :: l in l1 <==> l in l2 by {
      forall l ensures l in l1 <==> l in l2 {
        assert l in l1 <==> l in multiset(l1);
        assert l in l2 <==> l in multiset(l2);
      }
    }
    FirstSettingMember(l1, name);
    FirstSettingMember(l2, name);
  }
}
