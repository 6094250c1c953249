/** Writing an argument vector into an Exec key, and why reading it back returns the same vector. */
module ExecQuoting {
  import opened Text
  import opened DesktopValue
  import opened DesktopEntry
  import opened ExecParser

  function EscapeChar(c: char): string {
    if Escapable(c) then "\\" + [c] else if c == '%' then "%%" else [c]
  }

  function EscapeArg(arg: string): (r: string) {
    if arg == "" then "" else EscapeChar(arg[0]) + EscapeArg(arg[1..])
  }

  function Quote(arg: string): string {
    "\"" + EscapeArg(arg) + "\""
  }

  /** Every argument quoted, separated by single spaces. */
  function QuoteArgv(argv: seq<string>): (r: string) {
    if argv == [] then "" else if |argv| == 1 then Quote(argv[0]) else Quote(argv[0]) + " " + QuoteArgv(argv[1..])
  }

  ghost predicate AllControlFree(argv: seq<string>) {
    forall i | 0 <= i < |argv| :: ControlFree(argv[i])
  }

  // ---------------------------------------------------------------- the scanner undoes quoting

  lemma ScanChar(c: char, rest: string, s: Scan)
    requires s.quoted && !IsControl(c)
    ensures Run(EscapeChar(c) + rest, s) == Run(rest, s.(token := s.token + [c], started := true))
  {
    var whole := EscapeChar(c) + rest;
    if Escapable(c) || c == '%' {
      assert whole[2..] == rest && whole[1] == c;
    } else {
      assert whole[1..] == rest;
    }
  }

  lemma {:induction false} ScanInsideQuotes(arg: string, tail: string, argv: seq<string>, token: string)
    requires ControlFree(arg)
    ensures Run(EscapeArg(arg) + ("\"" + tail), Scan(argv, token, true, true)) ==
      Run(tail, Scan(argv, token + arg, false, true))
  {
    if arg == "" {
      assert EscapeArg(arg) + ("\"" + tail) == "\"" + tail;
      assert token + arg == token;
      assert ("\"" + tail)[1..] == tail;
    } else {
      hide Run, EscapeChar;
      var rest := EscapeArg(arg[1..]) + ("\"" + tail);
      assert EscapeArg(arg) + ("\"" + tail) == EscapeChar(arg[0]) + rest;
      ScanChar(arg[0], rest, Scan(argv, token, true, true));
      ScanInsideQuotes(arg[1..], tail, argv, token + [arg[0]]);
      assert token + [arg[0]] + arg[1..] == token + arg;
    }
  }

  lemma ScanOverQuote(arg: string, tail: string, argv: seq<string>)
    requires ControlFree(arg)
    ensures Run(Quote(arg) + tail, Scan(argv, "", false, false)) == Run(tail, Scan(argv, arg, false, true))
  {
    var rest := EscapeArg(arg) + ("\"" + tail);
    assert Quote(arg) + tail == "\"" + rest;
    assert ("\"" + rest)[1..] == rest;
    ScanInsideQuotes(arg, tail, argv, "");
    assert "" + arg == arg;
  }

  lemma ScanOverSpace(rest: string, arg: string, argv: seq<string>)
    requires Fits(argv, arg)
    ensures Run(" " + rest, Scan(argv, arg, false, true)) == Run(rest, Scan(argv + [arg], "", false, false))
  {
    assert (" " + rest)[1..] == rest;
  }

  /** A quoted argument and the space after it. */
  lemma ScanOverFirst(arg: string, rest: string, argv: seq<string>)
    requires ControlFree(arg) && Fits(argv, arg)
    ensures Run(Quote(arg) + (" " + rest), Scan(argv, "", false, false)) ==
      Run(rest, Scan(argv + [arg], "", false, false))
  {
    var tail := " " + rest;
    ScanOverQuote(arg, tail, argv);
    ScanOverSpace(rest, arg, argv);
  }

  lemma QuoteArgvSplits(args: seq<string>)
    requires |args| > 1
    ensures QuoteArgv(args) == Quote(args[0]) + (" " + QuoteArgv(args[1..]))
  {
  }

  lemma ScanOverLast(args: seq<string>, argv: seq<string>)
    requires |args| == 1 && ControlFree(args[0])
    ensures Run(QuoteArgv(args), Scan(argv, "", false, false)) == Some(Scan(argv, args[0], false, true))
  {
    ScanOverQuote(args[0], "", argv);
    assert Quote(args[0]) + "" == Quote(args[0]);
  }

  lemma ScanOverNext(args: seq<string>, argv: seq<string>)
    requires |args| > 1 && ControlFree(args[0]) && Fits(argv, args[0])
    ensures Run(QuoteArgv(args), Scan(argv, "", false, false)) ==
      Run(QuoteArgv(args[1..]), Scan(argv + [args[0]], "", false, false))
  {
    QuoteArgvSplits(args);
    ScanOverFirst(args[0], QuoteArgv(args[1..]), argv);
  }

  lemma FirstFits(args: seq<string>, argv: seq<string>)
    requires args != [] && Bounded(args) && |argv| + |args| <= MAX_ARGC
    ensures Fits(argv, args[0]) && Bounded(args[1..])
  {
  }

  /** The state a scan of quoted arguments ends in: all pushed but the last, which is the open token. */
  function AfterArgs(args: seq<string>, argv: seq<string>): Scan
    requires args != []
  {
    Scan(argv + args[..|args| - 1], args[|args| - 1], false, true)
  }

  lemma AfterArgsStep(args: seq<string>, argv: seq<string>)
    requires args != []
    ensures |args| == 1 ==> AfterArgs(args, argv) == Scan(argv, args[0], false, true)
    ensures |args| > 1 ==> AfterArgs(args[1..], argv + [args[0]]) == AfterArgs(args, argv)
  {
    if |args| > 1 {
      assert argv + [args[0]] + args[1..][..|args| - 2] == argv + args[..|args| - 1];
    } else {
      assert argv + args[..0] == argv;
    }
  }

  lemma {:induction false} ScanOverArgv(args: seq<string>, argv: seq<string>)
    requires args != [] && AllControlFree(args) && Bounded(args) && |argv| + |args| <= MAX_ARGC
    ensures Run(QuoteArgv(args), Scan(argv, "", false, false)) == Some(AfterArgs(args, argv))
    decreases |args|
  {
    AfterArgsStep(args, argv);
    if |args| == 1 {
      ScanOverLast(args, argv);
    } else {
      FirstFits(args, argv);
      ScanOverNext(args, argv);
      ScanOverArgv(args[1..], argv + [args[0]]);
    }
  }

  lemma {:induction false} EscapeControlFree(arg: string)
    requires ControlFree(arg)
    ensures ControlFree(EscapeArg(arg))
  {
    if arg != "" {
      EscapeControlFree(arg[1..]);
    }
  }

  lemma {:induction false} QuoteControlFree(argv: seq<string>)
    requires AllControlFree(argv)
    ensures ControlFree(QuoteArgv(argv))
  {
    if argv != [] {
      EscapeControlFree(argv[0]);
      QuoteControlFree(argv[1..]);
    }
  }

  /** What a caller can check before writing a vector: its own limits and the length of its quoted form. */
  ghost predicate Representable(argv: seq<string>) {
    argv != [] && AllControlFree(argv) && Bounded(argv) && Bytes(QuoteArgv(argv)) <= MAX_EXEC_BYTES
  }

  lemma VectorOfAll(argv: seq<string>)
    requires argv != []
    ensures Vector(AfterArgs(argv, [])) == argv
  {
    assert [] + argv[..|argv| - 1] + [argv[|argv| - 1]] == argv;
  }

  lemma FinishLast(argv: seq<string>)
    requires argv != [] && Bounded(argv) && ArgvBytes(argv) < MAX_ARGV_BYTES
    ensures Finish(AfterArgs(argv, [])) == Some(argv)
  {
    VectorOfAll(argv);
  }

  lemma QuotedIsPlain(argv: seq<string>)
    requires argv != [] && AllControlFree(argv)
    ensures QuoteArgv(argv) != "" && '\0' !in QuoteArgv(argv)
  {
    QuoteControlFree(argv);
  }

  lemma ParseQuoted(argv: seq<string>)
    requires Representable(argv)
    ensures Parsed(QuoteArgv(argv)) == Some(argv)
  {
    QuotedIsPlain(argv);
    ScanOverArgv(argv, []);
    ArgvLimitIsRedundant(QuoteArgv(argv));
    VectorOfAll(argv);
    FinishLast(argv);
  }

  /** Parsing undoes quoting exactly on the representable vectors. */
  lemma ParseUndoesQuoting(argv: seq<string>)
    ensures Parsed(QuoteArgv(argv)) == Some(argv) <==> Representable(argv)
  {
    if Representable(argv) {
      ParseQuoted(argv);
    } else {
      AcceptedArguments(QuoteArgv(argv));
    }
  }

  function Letters(n: nat): string {
    seq(n, _ => 'a')
  }

  lemma {:induction false} LettersBytes(n: nat)
    ensures Bytes(Letters(n)) == n && ControlFree(Letters(n))
  {
    if n > 0 {
      assert Letters(n)[1..] == Letters(n - 1);
      LettersBytes(n - 1);
    }
  }

  lemma {:induction false} EscapeNeverShrinks(arg: string)
    ensures |arg| <= |EscapeArg(arg)|
  {
    if arg != "" {
      EscapeNeverShrinks(arg[1..]);
    }
  }

  /** The failing input: two arguments at their limit, each fine by itself, are too long once quoted. */
  lemma QuotedFormTooLong()
    ensures var argv := [Letters(MAX_ARG_BYTES), Letters(MAX_ARG_BYTES)];
      AllControlFree(argv) && Bounded(argv) && Parsed(QuoteArgv(argv)) != Some(argv)
  {
    var arg := Letters(MAX_ARG_BYTES);
    LettersBytes(MAX_ARG_BYTES);
    EscapeNeverShrinks(arg);
    QuoteArgvSplits([arg, arg]);
    assert |QuoteArgv([arg, arg])| > |Quote(arg)| + MAX_ARG_BYTES by {
      assert [arg, arg][1..] == [arg] && QuoteArgv([arg]) == Quote(arg);
    }
    ParseUndoesQuoting([arg, arg]);
  }

  // ---------------------------------------------------------------- the decoder below the scanner

  /** A character of a quoted argument after one decoding: an escaped backslash has become a bare one. */
  function OnceChar(c: char): string {
    if c == '\\' then "\\" else EscapeChar(c)
  }

  function OnceDecoded(arg: string): (r: string) {
    if arg == "" then "" else OnceChar(arg[0]) + OnceDecoded(arg[1..])
  }

  lemma DecodePercents(tail: string)
    ensures Decoded("%%" + tail) == Prepend("%%", Decoded(tail))
  {
    DecodePlain('%', tail);
    DecodePlain('%', "%" + tail);
    PrependTwice("%", "%", Decoded(tail));
    assert "%%" + tail == "%" + ("%" + tail) && "%" + "%" == "%%";
  }

  lemma DecodeChar(c: char, tail: string)
    ensures Decoded(EscapeChar(c) + tail) == Prepend(OnceChar(c), Decoded(tail))
  {
    if Escapable(c) {
      DecodeEscape(c, tail);
      assert Escape(c).value == OnceChar(c);
    } else if c == '%' {
      DecodePercents(tail);
    } else {
      DecodePlain(c, tail);
    }
  }

  lemma EscapedHead(arg: string, tail: string)
    requires arg != ""
    ensures EscapeArg(arg) + tail == EscapeChar(arg[0]) + (EscapeArg(arg[1..]) + tail)
  {
  }

  lemma {:induction false} DecodeEscaped(arg: string, tail: string)
    ensures Decoded(EscapeArg(arg) + tail) == Prepend(OnceDecoded(arg), Decoded(tail))
  {
    if arg == "" {
      assert EscapeArg(arg) + tail == tail;
      assert Decoded(tail).Some? ==> "" + Decoded(tail).value == Decoded(tail).value;
    } else {
      DecodeEscaped(arg[1..], tail);
      DecodeChar(arg[0], EscapeArg(arg[1..]) + tail);
      PrependTwice(OnceChar(arg[0]), OnceDecoded(arg[1..]), Decoded(tail));
      EscapedHead(arg, tail);
    }
  }

  lemma DecodeQuote(arg: string, tail: string)
    ensures Decoded(Quote(arg) + tail) == Prepend("\"" + OnceDecoded(arg) + "\"", Decoded(tail))
  {
    var rest := EscapeArg(arg) + ("\"" + tail);
    assert Quote(arg) + tail == "\"" + rest;
    DecodePlain('\"', rest);
    DecodeEscaped(arg, "\"" + tail);
    DecodePlain('\"', tail);
    PrependTwice(OnceDecoded(arg), "\"", Decoded(tail));
    PrependTwice("\"", OnceDecoded(arg) + "\"", Decoded(tail));
    assert "\"" + (OnceDecoded(arg) + "\"") == "\"" + OnceDecoded(arg) + "\"";
  }

  lemma {:induction false} OnceDecodedLength(arg: string)
    ensures |OnceDecoded(arg)| <= |EscapeArg(arg)|
    ensures |OnceDecoded(arg)| == |EscapeArg(arg)| <==> '\\' !in arg
    ensures '\\' !in arg ==> OnceDecoded(arg) == EscapeArg(arg)
  {
    if arg != "" {
      OnceDecodedLength(arg[1..]);
      assert '\\' in arg <==> arg[0] == '\\' || '\\' in arg[1..];
    }
  }

  ghost predicate NoBackslash(argv: seq<string>) {
    forall i | 0 <= i < |argv| :: '\\' !in argv[i]
  }

  function OnceDecodedArgv(argv: seq<string>): (r: string) {
    if argv == [] then ""
    else "\"" + OnceDecoded(argv[0]) + "\"" + if |argv| == 1 then "" else " " + OnceDecodedArgv(argv[1..])
  }

  lemma {:induction false} DecodeQuoted(argv: seq<string>)
    ensures Decoded(QuoteArgv(argv)) == Some(OnceDecodedArgv(argv))
  {
    if |argv| == 1 {
      DecodeQuote(argv[0], "");
      assert Quote(argv[0]) + "" == Quote(argv[0]);
    } else if |argv| > 1 {
      DecodeQuoted(argv[1..]);
      DecodePlain(' ', QuoteArgv(argv[1..]));
      DecodeQuote(argv[0], " " + QuoteArgv(argv[1..]));
      assert QuoteArgv(argv) == Quote(argv[0]) + (" " + QuoteArgv(argv[1..]));
    }
  }

  lemma {:induction false} OnceDecodedArgvLength(argv: seq<string>)
    ensures |OnceDecodedArgv(argv)| <= |QuoteArgv(argv)|
    ensures |OnceDecodedArgv(argv)| == |QuoteArgv(argv)| <==> NoBackslash(argv)
    ensures NoBackslash(argv) ==> OnceDecodedArgv(argv) == QuoteArgv(argv)
  {
    if argv != [] {
      OnceDecodedLength(argv[0]);
      OnceDecodedArgvLength(argv[1..]);
      SplitBackslash(argv);
    }
  }

  lemma SplitBackslash(argv: seq<string>)
    requires argv != []
    ensures NoBackslash(argv) <==> '\\' !in argv[0] && NoBackslash(argv[1..])
  {
    assert forall i | 1 <= i < |argv| :: argv[i] == argv[1..][i - 1];
  }

  /** Without the doubling, a quoted vector survives the decoder exactly when no argument has a backslash. */
  lemma DecodeKeepsQuotedForm(argv: seq<string>)
    ensures Decoded(QuoteArgv(argv)) == Some(QuoteArgv(argv)) <==> NoBackslash(argv)
  {
    DecodeQuoted(argv);
    OnceDecodedArgvLength(argv);
  }

  // ---------------------------------------------------------------- the whole file

  /** The line that records an argument vector in a session file. */
  function ExecLine(argv: seq<string>): string {
    "Exec=" + DoubleBackslashes(QuoteArgv(argv))
  }

  lemma {:induction false} DoublingKeepsEnds(s: string)
    requires s != "" && s[0] == '\"' && s[|s| - 1] == '\"' && ControlFree(s)
    ensures var d := DoubleBackslashes(s); d != "" && d[0] == '\"' && d[|d| - 1] == '\"' && '\n' !in d
  {
    DoublingEnd(s);
  }

  lemma {:induction false} DoublingEnd(s: string)
    requires s != "" && s[|s| - 1] != '\\' && ControlFree(s)
    ensures var d := DoubleBackslashes(s); d != "" && d[|d| - 1] == s[|s| - 1] && '\n' !in d
  {
    if |s| > 1 {
      DoublingEnd(s[1..]);
    }
  }

  lemma {:induction false} QuotedEnds(argv: seq<string>)
    requires argv != []
    ensures var q := QuoteArgv(argv); |q| >= 2 && q[0] == '\"' && q[|q| - 1] == '\"'
  {
    if |argv| > 1 {
      QuotedEnds(argv[1..]);
    }
  }

  lemma ExecLineIsRead(argv: seq<string>, s: Reading)
    requires argv != [] && AllControlFree(argv) && s.inEntry
    ensures '\n' !in ExecLine(argv)
    ensures ReadLine(ExecLine(argv), s) == Some(s.(fields := s.fields["Exec" := QuoteArgv(argv)]))
  {
    var q := QuoteArgv(argv);
    QuotedEnds(argv);
    QuoteControlFree(argv);
    DoublingKeepsEnds(q);
    DecodeUndoesDoubling(q);
    ExecFieldIsRead(DoubleBackslashes(q), q, s);
  }

  lemma ExecFieldIsRead(d: string, value: string, s: Reading)
    requires s.inEntry && d != "" && d[0] == '\"' && d[|d| - 1] == '\"' && '\n' !in d && Decoded(d) == Some(value)
    ensures '\n' !in "Exec=" + d
    ensures ReadLine("Exec=" + d, s) == Some(s.(fields := s.fields["Exec" := value]))
  {
    ExecLineSplits(d);
    AssignmentIsRead("Exec=" + d, 4, value, s);
  }

  lemma ExecLineSplits(d: string)
    requires d != "" && d[0] == '\"' && d[|d| - 1] == '\"'
    ensures var line := "Exec=" + d;
      && Trim(line) == line && IndexOf(line, '=') == 4 && line[0] == 'E'
      && Trim(line[..4]) == "Exec" && Trim(line[5..]) == d
  {
    var line := "Exec=" + d;
    TrimKeeps(line);
    assert line[..4] == "Exec" && line[5..] == d;
    assert line[4] == '=' && forall i | 0 <= i < 4 :: line[i] != '=';
    TrimKeeps("Exec");
    TrimKeeps(d);
  }

  /**
   * The whole path of a session file: whatever complete lines the file held before, as long as they
   * are well formed and end inside its `[Desktop Entry]` group, a line written for a representable
   * vector makes the Exec field read back and parse as that vector and changes no other field, if and
   * only if the file is not too large afterwards.
   */
  lemma SessionFileRoundTrip(text: string, argv: seq<string>)
    requires Terminated(text)
    requires ReadLines(Lines(text), UNREAD).Some? && ReadLines(Lines(text), UNREAD).value.inEntry
    requires Representable(argv)
    ensures var before := ReadLines(Lines(text), UNREAD).value.fields;
      var after := FileFields(text + ExecLine(argv));
      if Bytes(text + ExecLine(argv)) > MAX_DESKTOP_ENTRY_BYTES then after == None
      else
        && after == Some(before["Exec" := QuoteArgv(argv)])
        && RequiredField(after.value, "Exec") == Some(QuoteArgv(argv))
        && Parsed(RequiredField(after.value, "Exec").value) == Some(argv)
  {
    var s := ReadLines(Lines(text), UNREAD).value;
    ExecLineIsRead(argv, s);
    ReadAfter(text, ExecLine(argv));
    QuotedEnds(argv);
    TrimKeeps(QuoteArgv(argv));
    ParseUndoesQuoting(argv);
  }
}
