# LLVM version extractor, modelled in Dafny

The repository has one utility, `scripts/get_llvm_version.py`. It reads LLVM's
`CMakeLists.txt` and finds the three lines `set(LLVM_VERSION_MAJOR N)`,
`set(LLVM_VERSION_MINOR N)` and `set(LLVM_VERSION_PATCH N)`. It prints
`major.minor.patch`. If a field is missing, it prints the dot-joined string with
`x` in place of that field, then an error, and exits with a failure status.

This project models the two parts of that script that are pure logic:

- `_extract_ver(text, ver_str, default)` is `VersionPattern.ExtractVer`. The
  regular-expression search is written out as a recursive scanner.
  `MatchAt` tests one position: the literal header `set(NAME `, then the
  maximal run of digits, which must be non-empty and followed by `)`.
  `SearchFrom` tries the positions from left to right and stops at the first
  match. The meaning of a match is stated separately, by the predicate
  `OccursAt`: the text at position `i` reads `set(NAME ` + `d` + `)`, where `d`
  is a non-empty digit run. The scanner is proved against it.
- The text-to-result part of `get_llvm_version` is `LlvmVersion.GetLlvmVersion`.
  It extracts the three fields with the sentinel `"x"`. It returns
  `Ok(major.minor.patch)` when none of them is the sentinel. Otherwise it returns
  `Fail(partial)`, where `partial` is the same dot-joined string that the script
  prints before its error.

`ConfigLines` describes configuration text made of lines. Each line is either
a `set(NAME DIGITS)` line or any other text, which may itself hold a match (an
indented setting, say) or a `set(` of some other name. No match holds a newline,
so a match never spans two lines. Over such a text, each field's value is the
value of the first line that holds a match of its name. The properties about
reordering and interleaving lines are stated on this model.

Modules: `Wrappers` (an `Option` type), `VersionPattern` (`version_pattern.dfy`),
`ConfigLines` (`config_lines.dfy`) and `LlvmVersion` (`llvm_version.dfy`).

## Model

| member | source | states |
|---|---|---|
| `VersionPattern.DigitRunLength` | scripts/get_llvm_version.py:7 | The length of the maximal digit run at the start of a string: every character before it is a digit, and the character at it, if there is one, is not. |
| `VersionPattern.MatchAtSpec` | scripts/get_llvm_version.py:7 | The one-position test finds exactly the matches of `set(NAME ` + digits + `)` at that position, in both directions. The group it returns is the whole digit run between the space and the `)`, never a proper prefix of it. |
| `VersionPattern.OccurrenceUnique` | scripts/get_llvm_version.py:7 | At most one digit group matches at a given position: the group is determined by where the match starts. |
| `VersionPattern.SearchFrom` | scripts/get_llvm_version.py:8 | The left-to-right scan from position `i` returns a match whose start is at or after `i`, with no match at any earlier position from `i` on. If it finds nothing, no position from `i` to the end of the text starts a match. |
| `VersionPattern.Search` | scripts/get_llvm_version.py:8 | `r.search(text)`: a result is the leftmost match of the whole text. No result means that no position 0..len(text) matches. |
| `VersionPattern.ExtractVer` | scripts/get_llvm_version.py:6-12 | The result is either `default` or a non-empty run of decimal digits. A result other than `default` is the group of the leftmost match. When nothing matches, the result is `default`. |
| `VersionPattern.ExtractVerLeftmost` | scripts/get_llvm_version.py:8-10 | If the leftmost match starts at `p` with group `d`, the result is `d`. Later matches play no part. |
| `VersionPattern.ExtractVerDefaultIff` | scripts/get_llvm_version.py:9-12 | When the default is not a digit run (as `"x"` is not), the result equals the default exactly when no position matches. |
| `VersionPattern.ExtractVerAppend` | scripts/get_llvm_version.py:8-10 | Once a text holds a match for a well-formed name, appending any text leaves the result unchanged. |
| `VersionPattern.ExtractVerSkipPrefix` | scripts/get_llvm_version.py:8 | A prefix in which no match starts can be dropped without changing the result. |
| `VersionPattern.ExtractVerOwnLine` | scripts/get_llvm_version.py:7-10 | A text that starts with `set(NAME d)` yields `d` for `NAME`. |
| `VersionPattern.ExtractVerOtherLine` | scripts/get_llvm_version.py:19-21 | A leading `set(OTHER d)` of a different well-formed name can be dropped when searching for `NAME`. Each field depends only on the text and its own name. |
| `VersionPattern.ExtractVerSkipUnmatchedLine` | scripts/get_llvm_version.py:7-8 | A leading line that holds no match can be dropped, together with its newline, without changing the result. A match holds no newline, so none can start in that line and end after it. |
| `VersionPattern.CandidateSkipped` | scripts/get_llvm_version.py:7-8 | A candidate that starts as `set(NAME ` but fails does not hide a later valid `set(NAME d)`. It fails because its body is not a digit run closed by `)`. Its body may hold any text except `set(`. The result is `d`. |
| `VersionPattern.CandidateExamples` | scripts/get_llvm_version.py:7-8 | The failed candidates `set(NAME abc)`, `set(NAME )`, `set(NAME 12` (with no `)`) and `set(NAME $(V))` followed by a newline are each skipped, and the valid match after them is found. |
| `ConfigLines.ExtractVerFirstLine` | scripts/get_llvm_version.py:7-10 | A leading line that holds a match of the name decides the result: its own setting, or the leftmost match inside it. A leading line that holds none is skipped. |
| `ConfigLines.ExtractVerRender` | scripts/get_llvm_version.py:7-10 | Over text made of lines, the result for a name is the value of the first line that holds a match of it, or the default if no line does. |
| `ConfigLines.FirstSettingInsert` | scripts/get_llvm_version.py:19-21 | Inserting, anywhere, a line that gives a name no value leaves that name's first setting unchanged. |
| `ConfigLines.FirstSettingReorder` | scripts/get_llvm_version.py:19-21 | If every line that holds a match of a name gives it the same digits, a permutation of the lines has the same first setting for that name. |
| `LlvmVersion.GetLlvmVersion` | scripts/get_llvm_version.py:15-28 | The result is `Ok` exactly when each of the three names has a match in the text. The reported string is three dot-separated digit runs exactly when the result is `Ok`. |
| `LlvmVersion.SplitJoin` | scripts/get_llvm_version.py:24-26 | Splitting the dot-joined string at its dots gives back the three fields, when none contains a dot. The dot-joined string therefore determines the fields. |
| `LlvmVersion.SentinelPlacement` | scripts/get_llvm_version.py:15-26 | The reported string has exactly three dot-separated tokens. Token k is `"x"` exactly when field k has no match. Otherwise token k is the group of that field's leftmost match. |
| `LlvmVersion.GetLlvmVersionLeftmost` | scripts/get_llvm_version.py:19-24 | With the leftmost match of each of the three fields known, the result is `Ok` of their digits joined by dots. |
| `LlvmVersion.GetLlvmVersionOfLines` | scripts/get_llvm_version.py:19-26 | Over text made of lines, the result is `Ok` exactly when some line holds a match of each of the three names. The reported tokens are the first settings, with `"x"` for any name that no line holds a match of. |
| `LlvmVersion.ReorderLines` | scripts/get_llvm_version.py:19-21 | Reordering the lines leaves the result unchanged, provided that each field is set consistently. |
| `LlvmVersion.InsertOtherLine` | scripts/get_llvm_version.py:19-21 | Inserting, anywhere among the lines, a line that holds no match of the three names leaves the result unchanged. The line may hold any other text, `set(` of other names included. |
| `LlvmVersion.ExampleComplete` | scripts/get_llvm_version.py:23-24 | The lines `set(LLVM_VERSION_MAJOR 18)`, `set(LLVM_VERSION_MINOR 1)` and `set(LLVM_VERSION_PATCH 0)` give `Ok("18.1.0")`. |
| `LlvmVersion.ExampleMajorOnly` | scripts/get_llvm_version.py:25-26 | A text that only sets the major field gives `Fail("18.x.x")`. |

## Left out

- Opening and reading the file (lines 17-18) and the existence check `os.path.exists` (line 38) are file-system I/O. The model takes the file's text as its input.
- `print` and `exit(-1)` (lines 26-28, 33-35, 39-40, 42) are output and process termination. The failed outcome is the `Fail` result, which carries the string printed first. The fixed error text and the exit status are not modelled.
- The check of the argument count on `sys.argv` (lines 32-35) is command-line handling and is not modelled.
- General regular expressions are not modelled. Only this fixed pattern is, with `ver_str` read as literal characters. The source splices `ver_str` into the pattern without escaping it. The lemmas that compare positions (`ExtractVerAppend`, `ExtractVerOtherLine`, `CandidateSkipped` and those built on them) require names made of letters and underscores, as the three names the script uses are. `ExtractVer` itself accepts any name.
- `ExtractVer`: its digits are ASCII `'0'..'9'`. Python 3's `\d` on a `str` also matches other Unicode decimal digits, and the model does not.
- `CandidateSkipped` requires that the failed candidate's body holds no `set(`. A body that holds `set(` could itself hold the leftmost match, which would then decide the result. That general case is stated by `ExtractVerSkipPrefix` and `ExtractVerLeftmost`.
- `ConfigLines` treats the file as newline-terminated lines. The text in a single line is arbitrary, but text without a final newline is only covered by the general lemmas of `VersionPattern`.
- `ReorderLines` assumes that each field is given the same digits by every line that holds a match of it. When a field is set twice with different digits, its first occurrence decides, so reordering those lines does change the result (see `ExtractVerLeftmost`).
