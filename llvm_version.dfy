/**
  The text-to-result part of `get_llvm_version`: the three fields are extracted
  with the sentinel "x", and the dot-joined string is a success only when none
  of them is the sentinel; otherwise it is reported as a failure.
 */
module LlvmVersion {
  import opened Wrappers
  import opened VersionPattern
  import opened ConfigLines

  /** The placeholder of a field that was not found. */
  const Sentinel: string := "x"

  const MajorName: string := "LLVM_VERSION_MAJOR"
  const MinorName: string := "LLVM_VERSION_MINOR"
  const PatchName: string := "LLVM_VERSION_PATCH"

  /** The three names in the order of the version string. */
  const FieldNames: seq<string> := [MajorName, MinorName, PatchName]

  /** `Ok` is the returned version; `Fail` carries the line printed before the error and the exit. */
  datatype VersionResult = Ok(version: string) | Fail(partial: string)

  /** The dot-joined string, as the source's f-string builds it. */
  function Join(major: string, minor: string, patch: string): string {
    major + "." + minor + "." + patch
  }

  /** The dot-joined line of either outcome. */
  function Message(r: VersionResult): string {
    match r
    case Ok(v) => v
    case Fail(p) => p
  }

  /** The tokens of a string between its dots. */
  function Split(s: string): (r: seq<string>)
    ensures |r| > 0
  {
    if s == [] then [""]
    else if s[0] == '.' then [""] + Split(s[1..])
    else
      var t := Split(s[1..]);
      [[s[0]] + t[0]] + t[1..]
  }

  predicate NoDot(s: string) {
    forall i :: 0 <= i < |s| ==> s[i] != '.'
  }

  /** Three dot-separated tokens, each a non-empty digit run. */
  predicate IsVersion(s: string) {
    var parts := Split(s);
    |parts| == 3 && IsDigits(parts[0]) && IsDigits(parts[1]) && IsDigits(parts[2])
  }

  lemma {:induction false} SplitNoDot(a: string)
    requires NoDot(a)
    ensures Split(a) == [a]
    decreases |a|
  {
    if a != [] {
      SplitNoDot(a[1..]);
      assert [a[0]] + a[1..] == a;
    }
  }

  lemma {:induction false} SplitCons(a: string, rest: string)
    requires NoDot(a)
    ensures Split(a + "." + rest) == [a] + Split(rest)
    decreases |a|
  {
    var s := a + "." + rest;
    if a == [] {
      assert s[1..] == rest;
    } else {
      assert s[1..] == a[1..] + "." + rest;
      SplitCons(a[1..], rest);
      assert [a[0]] + a[1..] == a;
    }
  }

  /** Splitting the joined string gives back the three fields. */
  lemma SplitJoin(major: string, minor: string, patch: string)
    requires NoDot(major) && NoDot(minor) && NoDot(patch)
    ensures Split(Join(major, minor, patch)) == [major, minor, patch]
  {
    assert Join(major, minor, patch) == major + "." + (minor + "." + patch);
    SplitCons(major, minor + "." + patch);
    SplitCons(minor, patch);
    SplitNoDot(patch);
  }

  lemma SentinelNotDigits()
    ensures !IsDigits(Sentinel)
  {
    assert Sentinel[0] == 'x';
  }

  /** A field value, digits or the sentinel, holds no dot. */
  lemma FieldNoDot(text: string, name: string)
    ensures NoDot(ExtractVer(text, name, Sentinel))
  {
    var f := ExtractVer(text, name, Sentinel);
    if f != Sentinel {
      assert forall i :: 0 <= i < |f| ==> IsDigit(f[i]);
    }
  }

  /**
    `get_llvm_version` on the file's text. The result is a success exactly when
    all three fields are found, and exactly then is its string three
    dot-separated digit runs.
   */
  function GetLlvmVersion(text: string): (r: VersionResult)
    ensures r.Ok? <==> !NoOccurrence(text, MajorName) && !NoOccurrence(text, MinorName) && !NoOccurrence(text, PatchName)
    ensures r.Ok? <==> IsVersion(Message(r))
  {
    var major := ExtractVer(text, MajorName, Sentinel);
    var minor := ExtractVer(text, MinorName, Sentinel);
    var patch := ExtractVer(text, PatchName, Sentinel);
    SentinelNotDigits();
    ExtractVerDefaultIff(text, MajorName, Sentinel);
    ExtractVerDefaultIff(text, MinorName, Sentinel);
    ExtractVerDefaultIff(text, PatchName, Sentinel);
    FieldNoDot(text, MajorName);
    FieldNoDot(text, MinorName);
    FieldNoDot(text, PatchName);
    SplitJoin(major, minor, patch);
    if major != Sentinel && minor != Sentinel && patch != Sentinel then
      Ok(Join(major, minor, patch))
    else
      Fail(Join(major, minor, patch))
  }

  /**
    The outcome in terms of the three extracted fields. This only unfolds the
    definition; the lemmas below use it to keep their proofs small.
   */
  lemma Outcome(text: string)
    ensures var major, minor, patch := ExtractVer(text, MajorName, Sentinel), ExtractVer(text, MinorName, Sentinel), ExtractVer(text, PatchName, Sentinel);
      GetLlvmVersion(text) ==
        if major != Sentinel && minor != Sentinel && patch != Sentinel
        then Ok(Join(major, minor, patch)) else Fail(Join(major, minor, patch))
  {
  }

  /**
    Sentinel placement: the k-th token of the reported string is "x" exactly when
    the k-th field has no match, and is otherwise the digits of its leftmost match.
   */
  lemma SentinelPlacement(text: string, k: nat)
    requires k < 3
    ensures var parts := Split(Message(GetLlvmVersion(text)));
      |parts| == 3 &&
      (parts[k] == Sentinel <==> NoOccurrence(text, FieldNames[k])) &&
      (parts[k] != Sentinel ==> exists p: nat :: LeftmostAt(text, FieldNames[k], p, parts[k]))
  {
    var major := ExtractVer(text, MajorName, Sentinel);
    var minor := ExtractVer(text, MinorName, Sentinel);
    var patch := ExtractVer(text, PatchName, Sentinel);
    FieldNoDot(text, MajorName);
    FieldNoDot(text, MinorName);
    FieldNoDot(text, PatchName);
    SplitJoin(major, minor, patch);
    SentinelNotDigits();
    ExtractVerDefaultIff(text, FieldNames[k], Sentinel);
  }

  /** With the leftmost match of each field known, the result is their dot-joined digits. */
  lemma GetLlvmVersionLeftmost(text: string, major: string, minor: string, patch: string, p1: nat, p2: nat, p3: nat)
    requires LeftmostAt(text, MajorName, p1, major)
    requires LeftmostAt(text, MinorName, p2, minor)
    requires LeftmostAt(text, PatchName, p3, patch)
    ensures GetLlvmVersion(text) == Ok(Join(major, minor, patch))
  {
    ExtractVerLeftmost(text, MajorName, Sentinel, p1, major);
    ExtractVerLeftmost(text, MinorName, Sentinel, p2, minor);
    ExtractVerLeftmost(text, PatchName, Sentinel, p3, patch);
  }

  /** How a first setting is shown in the version string. */
  function Shown(o: Option<string>): string {
    match o
    case Some(d) => d
    case None => Sentinel
  }

  /** A first setting is shown as the sentinel only when there is none. */
  lemma ShownSentinel(lines: seq<Line>, name: string)
    requires AllWellFormed(lines)
    ensures Shown(FirstSetting(lines, name)) == Sentinel <==> FirstSetting(lines, name).None?
  {
    FirstSettingMember(lines, name);
    if FirstSetting(lines, name).Some? {
      var l :| l in lines && LineValue(l, name) == FirstSetting(lines, name);
      var i :| 0 <= i < |lines| && lines[i] == l;
      assert WellFormed(lines[i]);
      LineValueDigits(l, name);
      SentinelNotDigits();
    }
  }

  lemma FieldNamesAreNames()
    ensures IsName(MajorName) && IsName(MinorName) && IsName(PatchName)
    ensures MajorName != MinorName && MajorName != PatchName && MinorName != PatchName
  {
    assert MajorName[14] == 'A' && MinorName[14] == 'I' && PatchName[14] == 'A';
    assert MajorName[13] == 'M' && PatchName[13] == 'P';
  }

  /** Over a text made of lines, each field is the first line that sets it. */
  lemma GetLlvmVersionOfLines(lines: seq<Line>)
    requires AllWellFormed(lines)
    ensures GetLlvmVersion(Render(lines)).Ok? <==>
      FirstSetting(lines, MajorName).Some? && FirstSetting(lines, MinorName).Some? && FirstSetting(lines, PatchName).Some?
    ensures Split(Message(GetLlvmVersion(Render(lines)))) ==
      [Shown(FirstSetting(lines, MajorName)), Shown(FirstSetting(lines, MinorName)), Shown(FirstSetting(lines, PatchName))]
  {
    var text := Render(lines);
    var major, minor, patch := ExtractVer(text, MajorName, Sentinel), ExtractVer(text, MinorName, Sentinel), ExtractVer(text, PatchName, Sentinel);
    FieldsOfLines(lines);
    ShownSentinel(lines, MajorName);
    ShownSentinel(lines, MinorName);
    ShownSentinel(lines, PatchName);
    Outcome(text);
    FieldNoDot(text, MajorName);
    FieldNoDot(text, MinorName);
    FieldNoDot(text, PatchName);
    SplitJoin(major, minor, patch);
  }

  /** Each field is read from a text of lines as its first setting. */
  lemma FieldsOfLines(lines: seq<Line>)
    requires AllWellFormed(lines)
    ensures ExtractVer(Render(lines), MajorName, Sentinel) == Shown(FirstSetting(lines, MajorName))
    ensures ExtractVer(Render(lines), MinorName, Sentinel) == Shown(FirstSetting(lines, MinorName))
    ensures ExtractVer(Render(lines), PatchName, Sentinel) == Shown(FirstSetting(lines, PatchName))
  {
    FieldNamesAreNames();
    ExtractVerRender(lines, MajorName, Sentinel);
    ExtractVerRender(lines, MinorName, Sentinel);
    ExtractVerRender(lines, PatchName, Sentinel);
  }

  /** Reordering the lines, each field set consistently, leaves the result unchanged. */
  lemma ReorderLines(l1: seq<Line>, l2: seq<Line>)
    requires AllWellFormed(l1) && multiset(l1) == multiset(l2)
    requires Consistent(l1, MajorName) && Consistent(l1, MinorName) && Consistent(l1, PatchName)
    ensures GetLlvmVersion(Render(l1)) == GetLlvmVersion(Render(l2))
  {
    assert AllWellFormed(l2) by {
      forall i | 0 <= i < |l2| ensures WellFormed(l2[i]) {
        assert l2[i] in multiset(l1);
        var j :| 0 <= j < |l1| && l1[j] == l2[i];
      }
    }
    FieldsOfLines(l1);
    FieldsOfLines(l2);
    FirstSettingReorder(l1, l2, MajorName);
    FirstSettingReorder(l1, l2, MinorName);
    FirstSettingReorder(l1, l2, PatchName);
  }

  /** Inserting, anywhere, a line that holds no match of the three names leaves the result unchanged. */
  lemma InsertOtherLine(l1: seq<Line>, l2: seq<Line>, c: string)
    requires AllWellFormed(l1 + l2)
    requires NoOccurrence(c, MajorName) && NoOccurrence(c, MinorName) && NoOccurrence(c, PatchName)
    ensures GetLlvmVersion(Render(l1 + [Other(c)] + l2)) == GetLlvmVersion(Render(l1 + l2))
  {
    var l := l1 + [Other(c)] + l2;
    InsertWellFormed(l1, l2, c);
    FieldsOfLines(l);
    FieldsOfLines(l1 + l2);
    FirstSettingInsert(l1, l2, Other(c), MajorName);
    FirstSettingInsert(l1, l2, Other(c), MinorName);
    FirstSettingInsert(l1, l2, Other(c), PatchName);
  }

  /** The first settings of the three lines of the complete example. */
  lemma ExampleCompleteSettings(lines: seq<Line>)
    requires lines == [Setting(MajorName, "18"), Setting(MinorName, "1"), Setting(PatchName, "0")]
    ensures AllWellFormed(lines)
    ensures FirstSetting(lines, MajorName) == Some("18")
    ensures FirstSetting(lines, MinorName) == Some("1")
    ensures FirstSetting(lines, PatchName) == Some("0")
  {
    assert IsDigits("18") && IsDigits("1") && IsDigits("0");
    FieldNamesAreNames();
    assert lines[1..] == [Setting(MinorName, "1"), Setting(PatchName, "0")];
    assert lines[1..][1..] == [Setting(PatchName, "0")];
    assert LineValue(lines[0], MinorName) == None && LineValue(lines[0], PatchName) == None;
    assert LineValue(lines[1], PatchName) == None;
    assert FirstSetting(lines[1..][1..], PatchName) == Some("0");
    assert FirstSetting(lines[1..], PatchName) == Some("0");
  }

  /** The three settings in order give "18.1.0". */
  lemma ExampleComplete()
    ensures GetLlvmVersion(Render([Setting(MajorName, "18"), Setting(MinorName, "1"), Setting(PatchName, "0")])) == Ok("18.1.0")
  {
    var lines := [Setting(MajorName, "18"), Setting(MinorName, "1"), Setting(PatchName, "0")];
    var text := Render(lines);
    assert ExtractVer(text, MajorName, Sentinel) == "18" && ExtractVer(text, MinorName, Sentinel) == "1" &&
      ExtractVer(text, PatchName, Sentinel) == "0" by {
      ExampleCompleteSettings(lines);
      FieldsOfLines(lines);
    }
    assert "18" != Sentinel && "1" != Sentinel && "0" != Sentinel;
    assert Join("18", "1", "0") == "18.1.0" by {
      assert |Join("18", "1", "0")| == 6;
    }
    Outcome(text);
  }

  /** Only the major setting gives the failure line "18.x.x". */
  lemma ExampleMajorOnly()
    ensures GetLlvmVersion(Render([Setting(MajorName, "18")])) == Fail("18.x.x")
  {
    var lines := [Setting(MajorName, "18")];
    assert IsDigits("18");
    FieldNamesAreNames();
    assert AllWellFormed(lines);
    assert FirstSetting(lines, MajorName) == Some("18");
    assert FirstSetting(lines, MinorName) == None;
    assert FirstSetting(lines, PatchName) == None;
    FieldsOfLines(lines);
    var text := Render(lines);
    assert ExtractVer(text, MajorName, Sentinel) == "18";
    assert ExtractVer(text, MinorName, Sentinel) == Sentinel;
    assert ExtractVer(text, PatchName, Sentinel) == Sentinel;
    assert Join("18", Sentinel, Sentinel) == "18.x.x" by {
      assert |Join("18", Sentinel, Sentinel)| == 6;
    }
    Outcome(text);
  }
}
