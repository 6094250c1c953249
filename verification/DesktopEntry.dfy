/** The `[Desktop Entry]` group of a session file: line handling and the field map. */
module DesktopEntry {
  import opened Text
  import opened DesktopValue

  function TrimStart(s: string): string {
    if s != "" && IsWhitespace(s[0]) then TrimStart(s[1..]) else s
  }

  function TrimEnd(s: string): string {
    if s != "" && IsWhitespace(s[|s| - 1]) then TrimEnd(s[..|s| - 1]) else s
  }

  function Trim(s: string): string {
    TrimEnd(TrimStart(s))
  }

  datatype Reading = Reading(inEntry: bool, fields: map<string, string>)

  /** One line of the file; None is a malformed entry. */
  function ReadLine(raw: string, s: Reading): (r: Option<Reading>) {
    var line := Trim(raw);
    if line == "" || line[0] == '#' || line[0] == ';' then Some(s)
    else if line[0] == '[' && line[|line| - 1] == ']' then Some(s.(inEntry := line == "[Desktop Entry]"))
    else if !s.inEntry then Some(s)
    else match Assignment(line)
      case None => None
      case Some((key, value)) => Some(s.(fields := s.fields[key := value]))
  }

  function ReadLines(lines: seq<string>, s: Reading): (r: Option<Reading>) {
    if lines == [] then Some(s)
    else
      var next := ReadLine(lines[0], s);
      if next.None? then None else ReadLines(lines[1..], next.value)
  }

  const UNREAD := Reading(false, map[])

  function Fields(raw: string): (r: Option<map<string, string>>) {
    var s := ReadLines(Lines(raw), UNREAD);
    if s.None? then None else Some(s.value.fields)
  }

  /** The assignment on a line of the group: its key and decoded value, or None when malformed. */
  function Assignment(line: string): (r: Option<(string, string)>) {
    var k := IndexOf(line, '=');
    if k == |line| then None
    else
      var key, value := Trim(line[..k]), Decoded(Trim(line[k + 1..]));
      if key == "" || value.None? then None else Some((key, value.value))
  }

  method ReadAssignment(line: string) returns (r: Option<(string, string)>)
    ensures r == Assignment(line)
  {
    var k := IndexOf(line, '=');
    if k == |line| {
      return None;
    }
    var key := Trim(line[..k]);
    if key == "" {
      return None;
    }
    var value := DecodeValue(Trim(line[k + 1..]));
    if value.None? {
      return None;
    }
    return Some((key, value.value));
  }

  method DesktopEntryFields(raw: string) returns (r: Option<map<string, string>>)
    ensures r == Fields(raw)
  {
    var fields: map<string, string> := map[];
    var inDesktopEntry := false;
    var lines := Lines(raw);
    var i := 0;
    while i < |lines|
      invariant 0 <= i <= |lines|
      invariant ReadLines(lines, UNREAD) == ReadLines(lines[i..], Reading(inDesktopEntry, fields))
    {
      assert lines[i..][1..] == lines[i + 1..];
      var line := Trim(lines[i]);
      i := i + 1;
      if line == "" || line[0] == '#' || line[0] == ';' {
        continue;
      }
      if line[0] == '[' && line[|line| - 1] == ']' {
        inDesktopEntry := line == "[Desktop Entry]";
        continue;
      }
      if !inDesktopEntry {
        continue;
      }
      var assignment := ReadAssignment(line);
      if assignment.None? {
        return None;
      }
      fields := fields[assignment.value.0 := assignment.value.1];
    }
    return Some(fields);
  }

  /** A field that must be present: trimmed, and absent when nothing is left. */
  function RequiredField(fields: map<string, string>, key: string): (r: Option<string>) {
    if key !in fields || Trim(fields[key]) == "" then None else Some(Trim(fields[key]))
  }

  // ---------------------------------------------------------------- appending a line to a file

  /** A trimmed line inside the group that assigns a decodable value to a non-empty key. */
  lemma AssignmentIsRead(line: string, k: nat, value: string, s: Reading)
    requires s.inEntry && Trim(line) == line && k < |line| && IndexOf(line, '=') == k
    requires line[0] != '#' && line[0] != ';' && line[0] != '['
    requires Trim(line[..k]) != "" && Decoded(Trim(line[k + 1..])) == Some(value)
    ensures ReadLine(line, s) == Some(s.(fields := s.fields[Trim(line[..k]) := value]))
  {
  }

  lemma TrimKeeps(s: string)
    requires s == "" || (!IsWhitespace(s[0]) && !IsWhitespace(s[|s| - 1]))
    ensures Trim(s) == s
  {
  }

  lemma CutAppended(s: string, t: string, k: nat)
    requires k < |s|
    ensures (s + t)[..k] == s[..k] && (s + t)[k + 1..] == s[k + 1..] + t
  {
  }

  /** A text of complete lines, each ended by its newline. */
  predicate Terminated(text: string) {
    text == "" || text[|text| - 1] == '\n'
  }

  /** The first newline cuts a text into its first line and the rest. */
  lemma LinesCut(raw: string, k: nat)
    requires k < |raw| && raw[k] == '\n' && '\n' !in raw[..k]
    ensures Lines(raw) == [Chomp(raw[..k])] + Lines(raw[k + 1..])
  {
    assert forall i | 0 <= i < k :: raw[..k][i] == raw[i];
    assert IndexOf(raw, '\n') == k;
  }

  lemma LinesOne(line: string)
    requires line != "" && '\n' !in line
    ensures Lines(line) == [line]
  {
    assert IndexOf(line, '\n') == |line|;
  }

  lemma Regroup(whole: seq<string>, lines: seq<string>, first: string, rest: seq<string>, line: string)
    requires whole == [first] + (rest + [line]) && lines == [first] + rest
    ensures whole == lines + [line]
  {
  }

  lemma LinesOfAppendStep(text: string, line: string, k: nat)
    requires k < |text| && text[k] == '\n' && '\n' !in text[..k]
    requires Lines(text[k + 1..] + line) == Lines(text[k + 1..]) + [line]
    ensures Lines(text + line) == Lines(text) + [line]
  {
    CutAppended(text, line, k);
    LinesCut(text, k);
    LinesCut(text + line, k);
    Regroup(Lines(text + line), Lines(text), Chomp(text[..k]), Lines(text[k + 1..]), line);
  }

  /** The first newline of a text of complete lines. */
  lemma FirstNewline(text: string) returns (k: nat)
    requires Terminated(text) && text != ""
    ensures k < |text| && text[k] == '\n' && '\n' !in text[..k] && Terminated(text[k + 1..])
  {
    k := IndexOf(text, '\n');
    var rest := text[k + 1..];
    assert rest != "" ==> rest[|rest| - 1] == text[|text| - 1];
  }

  lemma {:induction false} LinesOfAppend(text: string, line: string)
    requires Terminated(text) && line != "" && '\n' !in line
    ensures Lines(text + line) == Lines(text) + [line]
    decreases |text|
  {
    if text == "" {
      assert text + line == line;
      LinesOne(line);
    } else {
      var k := FirstNewline(text);
      LinesOfAppend(text[k + 1..], line);
      LinesOfAppendStep(text, line, k);
    }
  }

  lemma {:induction false} ReadLinesOfAppend(lines: seq<string>, more: seq<string>, s: Reading)
    ensures ReadLines(lines + more, s) ==
      if ReadLines(lines, s).None? then None else ReadLines(more, ReadLines(lines, s).value)
  {
    if lines == [] {
      assert lines + more == more;
    } else {
      assert (lines + more)[1..] == lines[1..] + more;
      var next := ReadLine(lines[0], s);
      if next.Some? {
        ReadLinesOfAppend(lines[1..], more, next.value);
      }
    }
  }

  const MAX_DESKTOP_ENTRY_BYTES := 64 * 1024

  /** The fields of a session file, which is refused unread when it is too large. */
  function FileFields(raw: string): Option<map<string, string>> {
    if Bytes(raw) > MAX_DESKTOP_ENTRY_BYTES then None else Fields(raw)
  }

  /** A line appended to a text is read after everything the text held. */
  lemma ReadAfter(text: string, line: string)
    requires Terminated(text) && line != "" && '\n' !in line
    requires ReadLines(Lines(text), UNREAD).Some?
    ensures ReadLines(Lines(text + line), UNREAD) == ReadLine(line, ReadLines(Lines(text), UNREAD).value)
  {
    LinesOfAppend(text, line);
    ReadLinesOfAppend(Lines(text), [line], UNREAD);
  }

  // ---------------------------------------------------------------- lines, groups and comments

  predicate AllWhitespace(s: string) {
    forall i | 0 <= i < |s| :: IsWhitespace(s[i])
  }

  lemma {:induction false} TrimStartSplits(s: string) returns (before: string)
    ensures s == before + TrimStart(s) && AllWhitespace(before)
    ensures TrimStart(s) != "" ==> !IsWhitespace(TrimStart(s)[0])
  {
    if s != "" && IsWhitespace(s[0]) {
      var rest := TrimStartSplits(s[1..]);
      before := [s[0]] + rest;
    } else {
      before := "";
    }
  }

  lemma {:induction false} TrimEndSplits(s: string) returns (after: string)
    ensures s == TrimEnd(s) + after && AllWhitespace(after) && TrimEnd(s) <= s
    ensures TrimEnd(s) != "" ==> !IsWhitespace(TrimEnd(s)[|TrimEnd(s)| - 1])
  {
    if s != "" && IsWhitespace(s[|s| - 1]) {
      var rest := TrimEndSplits(s[..|s| - 1]);
      after := rest + [s[|s| - 1]];
      assert s == s[..|s| - 1] + [s[|s| - 1]];
    } else {
      after := "";
    }
  }

  /** Trimming takes white space off both ends, all of it and nothing else. */
  lemma TrimSplits(s: string) returns (before: string, after: string)
    ensures s == before + Trim(s) + after && AllWhitespace(before) && AllWhitespace(after)
    ensures Trim(s) != "" ==> !IsWhitespace(Trim(s)[0]) && !IsWhitespace(Trim(s)[|Trim(s)| - 1])
  {
    before := TrimStartSplits(s);
    after := TrimEndSplits(TrimStart(s));
    assert before + (Trim(s) + after) == before + Trim(s) + after;
  }

  /** A required field is what is left of its value without white space around it, if anything is. */
  lemma RequiredFieldExactly(fields: map<string, string>, key: string) returns (before: string, after: string)
    ensures RequiredField(fields, key) == None <==> key !in fields || AllWhitespace(fields[key])
    ensures RequiredField(fields, key).Some? ==>
      var v := RequiredField(fields, key).value;
      && key in fields && fields[key] == before + v + after && AllWhitespace(before) && AllWhitespace(after)
      && v != "" && !IsWhitespace(v[0]) && !IsWhitespace(v[|v| - 1])
  {
    before, after := "", "";
    if key in fields {
      before, after := TrimSplits(fields[key]);
      var v := Trim(fields[key]);
      assert v != "" ==> fields[key][|before|] == v[0];
    }
  }

  /** The header of the entry group opens it, and the header of any other group closes it. */
  lemma HeadersExactly(name: string, s: Reading)
    ensures ReadLine("[" + name + "]", s) == Some(s.(inEntry := name == "Desktop Entry"))
  {
    var line := "[" + name + "]";
    TrimKeeps(line);
    if line == "[Desktop Entry]" {
      assert name == line[1..|line| - 1] && "[Desktop Entry]"[1..14] == "Desktop Entry";
    }
    if name == "Desktop Entry" {
      assert line == "[Desktop Entry]";
    }
  }

  /** A comment, of either kind, and a blank line change nothing, wherever they stand. */
  lemma CommentsAreSkipped(text: string, s: Reading)
    requires text == "" || !IsWhitespace(text[|text| - 1])
    ensures ReadLine("#" + text, s) == Some(s) && ReadLine(";" + text, s) == Some(s) && ReadLine("", s) == Some(s)
  {
    TrimKeeps("#" + text);
    TrimKeeps(";" + text);
  }

  /** Outside the entry group, and short of a header, every line is skipped, however malformed. */
  lemma OtherGroupsAreSkipped(line: string, s: Reading)
    requires !s.inEntry && line != "" && line[0] != '[' && !IsWhitespace(line[0]) && !IsWhitespace(line[|line| - 1])
    ensures ReadLine(line, s) == Some(s)
  {
    TrimKeeps(line);
  }

  /** Inside it, a line without an equals sign or with an empty key refuses the file. */
  lemma MalformedLinesAreRefused(line: string, s: Reading)
    requires s.inEntry && line != "" && line[0] != '[' && line[0] != '#' && line[0] != ';'
    requires !IsWhitespace(line[0]) && !IsWhitespace(line[|line| - 1])
    requires '=' !in line || line[0] == '='
    ensures ReadLine(line, s) == None
  {
    TrimKeeps(line);
  }

  /** Lines, each with its terminator. */
  function Joined(lines: seq<string>, end: string): string {
    if lines == [] then "" else lines[0] + end + Joined(lines[1..], end)
  }

  predicate IsLine(line: string) {
    '\n' !in line && (line == "" || line[|line| - 1] != '\r')
  }

  lemma FirstLineReadsBack(line: string, end: string, rest: string)
    requires (end == "\n" || end == "\r\n") && IsLine(line)
    ensures Lines(line + end + rest) == [line] + Lines(rest)
  {
    hide Lines, IndexOf;
    var text := line + end + rest;
    var k := |line| + |end| - 1;
    assert text[k] == '\n' && text[k + 1..] == rest;
    if end == "\n" {
      assert text[..k] == line;
    } else {
      assert text[..k] == line + "\r" && (line + "\r")[..|line|] == line;
    }
    LinesCut(text, k);
  }

  /** Terminated lines read back as they were, with either line ending. */
  lemma {:induction false} LinesReadBack(lines: seq<string>, end: string)
    requires end == "\n" || end == "\r\n"
    requires forall i | 0 <= i < |lines| :: IsLine(lines[i])
    ensures Lines(Joined(lines, end)) == lines
  {
    hide IndexOf;
    if lines != [] {
      FirstLineReadsBack(lines[0], end, Joined(lines[1..], end));
      LinesReadBack(lines[1..], end);
    }
  }
}
