/**
 * Exec lines as people write them: words of unquoted and quoted stretches between blanks. The scanner
 * returns exactly the words that were written, and refuses every malformed continuation.
 */
module ExecWords {
  import opened Text
  import opened ExecParser
  import opened ExecQuoting

  /** A stretch of a word: written as it is, with percent signs doubled, or between double quotes. */
  datatype Piece = Bare(text: string) | Quoted(text: string)

  /** A character that stands for itself outside quotes. */
  predicate IsPlain(c: char) {
    !IsControl(c) && c != ' ' && c != '\"' && c != '\\'
  }

  predicate Writable(p: Piece) {
    match p
    case Bare(text) => forall i | 0 <= i < |text| :: IsPlain(text[i])
    case Quoted(text) => ControlFree(text)
  }

  function WriteBare(text: string): string {
    if text == "" then "" else PlainChar(text[0]) + WriteBare(text[1..])
  }

  function WritePiece(p: Piece): string {
    match p
    case Bare(text) => WriteBare(text)
    case Quoted(text) => Quote(text)
  }

  function WritePieces(pieces: seq<Piece>): string {
    if pieces == [] then "" else WritePiece(pieces[0]) + WritePieces(pieces[1..])
  }

  /** What the stretches of a word say together. */
  function Value(pieces: seq<Piece>): string {
    if pieces == [] then "" else pieces[0].text + Value(pieces[1..])
  }

  /** A word is there once it has a character or a pair of quotes. */
  predicate IsWord(pieces: seq<Piece>) {
    exists i | 0 <= i < |pieces| :: pieces[i].Quoted? || pieces[i].text != ""
  }

  function Blanks(n: nat): string {
    seq(n, _ => ' ')
  }

  /** A word and the number of blanks after it. */
  datatype Word = Word(pieces: seq<Piece>, gap: nat)

  function Written(words: seq<Word>): string {
    if words == [] then "" else WritePieces(words[0].pieces) + (Blanks(words[0].gap) + Written(words[1..]))
  }

  function Values(words: seq<Word>): (r: seq<string>)
    ensures |r| == |words| && forall i | 0 <= i < |words| :: r[i] == Value(words[i].pieces)
  {
    if words == [] then [] else [Value(words[0].pieces)] + Values(words[1..])
  }

  predicate WritableWord(w: Word) {
    IsWord(w.pieces) && forall i | 0 <= i < |w.pieces| :: Writable(w.pieces[i])
  }

  predicate AllWritable(words: seq<Word>) {
    forall i | 0 <= i < |words| :: WritableWord(words[i])
  }

  /** All words but the last are followed by a blank. */
  predicate Separated(words: seq<Word>) {
    forall i | 0 <= i < |words| - 1 :: words[i].gap > 0
  }

  // ---------------------------------------------------------------- scanning

  /** Reading `text` takes the scanner from `s` to `t`, whatever follows. */
  ghost predicate Leads(text: string, s: Scan, t: Scan) {
    forall tail: string :: Run(text + tail, s) == Run(tail, t)
  }

  lemma LeadsNowhere(s: Scan)
    ensures Leads("", s, s)
  {
    assert forall tail: string :: "" + tail == tail;
  }

  lemma LeadsOn(x: string, y: string, s: Scan, t: Scan, u: Scan)
    requires Leads(x, s, t) && Leads(y, t, u)
    ensures Leads(x + y, s, u)
  {
    hide Run;
    forall tail: string ensures Run(x + y + tail, s) == Run(tail, u) {
      assert x + y + tail == x + (y + tail);
      assert Run(x + (y + tail), s) == Run(y + tail, t);
    }
  }

  lemma LeadsToEnd(text: string, s: Scan, t: Scan)
    requires Leads(text, s, t)
    ensures Run(text, s) == Some(t)
  {
    assert text + "" == text;
    assert Run(text + "", s) == Run("", t);
  }

  function PlainChar(c: char): string {
    if c == '%' then "%%" else [c]
  }

  lemma PlainLeads(c: char, s: Scan)
    requires IsPlain(c) && !s.quoted
    ensures Leads(PlainChar(c), s, s.(token := s.token + [c], started := true))
  {
    forall tail: string ensures Run(PlainChar(c) + tail, s) == Run(tail, s.(token := s.token + [c], started := true)) {
      PlainScans(c, tail, s);
    }
  }

  lemma PlainScans(c: char, tail: string, s: Scan)
    requires IsPlain(c) && !s.quoted
    ensures Run(PlainChar(c) + tail, s) == Run(tail, s.(token := s.token + [c], started := true))
  {
    var whole := PlainChar(c) + tail;
    if c == '%' {
      assert whole[2..] == tail;
    } else {
      assert whole[1..] == tail && c != '\t';
    }
  }

  lemma {:induction false} BareLeads(text: string, s: Scan)
    requires Writable(Bare(text)) && !s.quoted
    ensures Leads(WriteBare(text), s, s.(token := s.token + text, started := s.started || text != ""))
    decreases |text|
  {
    hide Run;
    if text == "" {
      assert s.token + text == s.token;
      LeadsNowhere(s);
    } else {
      var next := s.(token := s.token + [text[0]], started := true);
      PlainLeads(text[0], s);
      BareLeads(text[1..], next);
      assert s.token + [text[0]] + text[1..] == s.token + text;
      LeadsOn(PlainChar(text[0]), WriteBare(text[1..]), s, next, s.(token := s.token + text, started := true));
    }
  }

  lemma QuotedLeads(text: string, s: Scan)
    requires ControlFree(text) && !s.quoted
    ensures Leads(Quote(text), s, s.(token := s.token + text, started := true))
  {
    forall tail: string ensures Run(Quote(text) + tail, s) == Run(tail, s.(token := s.token + text, started := true)) {
      QuotedScans(text, tail, s);
    }
  }

  lemma QuotedScans(text: string, tail: string, s: Scan)
    requires ControlFree(text) && !s.quoted
    ensures Run(Quote(text) + tail, s) == Run(tail, s.(token := s.token + text, started := true))
  {
    var rest := EscapeArg(text) + ("\"" + tail);
    assert Quote(text) + tail == "\"" + rest;
    assert ("\"" + rest)[1..] == rest;
    ScanInsideQuotes(text, tail, s.argv, s.token);
  }

  lemma SplitIsWord(pieces: seq<Piece>)
    requires pieces != []
    ensures IsWord(pieces) <==> pieces[0].Quoted? || pieces[0].text != "" || IsWord(pieces[1..])
  {
    var rest := pieces[1..];
    if IsWord(rest) {
      var i :| 0 <= i < |rest| && (rest[i].Quoted? || rest[i].text != "");
      assert pieces[i + 1] == rest[i];
    }
    if IsWord(pieces) {
      var i :| 0 <= i < |pieces| && (pieces[i].Quoted? || pieces[i].text != "");
      assert i > 0 ==> rest[i - 1] == pieces[i];
    }
  }

  function AfterPieces(pieces: seq<Piece>, s: Scan): Scan {
    s.(token := s.token + Value(pieces), started := s.started || IsWord(pieces))
  }

  lemma PieceLeads(p: Piece, s: Scan)
    requires Writable(p) && !s.quoted
    ensures Leads(WritePiece(p), s, s.(token := s.token + p.text, started := s.started || p.Quoted? || p.text != ""))
  {
    hide Run;
    if p.Bare? {
      BareLeads(p.text, s);
    } else {
      QuotedLeads(p.text, s);
    }
  }

  lemma AfterFirstPiece(pieces: seq<Piece>, s: Scan)
    requires pieces != []
    ensures var p := pieces[0];
      AfterPieces(pieces[1..], s.(token := s.token + p.text, started := s.started || p.Quoted? || p.text != ""))
        == AfterPieces(pieces, s)
  {
    SplitIsWord(pieces);
    assert s.token + pieces[0].text + Value(pieces[1..]) == s.token + Value(pieces);
  }

  /** The stretches of a word are added to the open token, whatever was in it. */
  lemma {:induction false} PiecesLead(pieces: seq<Piece>, s: Scan)
    requires (forall i | 0 <= i < |pieces| :: Writable(pieces[i])) && !s.quoted
    ensures Leads(WritePieces(pieces), s, AfterPieces(pieces, s))
    decreases |pieces|
  {
    hide Run, WritePiece, IsWord;
    if pieces == [] {
      assert s.token + Value(pieces) == s.token;
      NoPiecesNoWord();
      LeadsNowhere(s);
    } else {
      var p := pieces[0];
      var next := s.(token := s.token + p.text, started := s.started || p.Quoted? || p.text != "");
      PieceLeads(p, s);
      PiecesLead(pieces[1..], next);
      AfterFirstPiece(pieces, s);
      LeadsOn(WritePiece(p), WritePieces(pieces[1..]), s, next, AfterPieces(pieces, s));
    }
  }

  lemma NoPiecesNoWord()
    ensures !IsWord([])
  {
  }

  lemma BlankScans(tail: string, argv: seq<string>, token: string)
    ensures Run(" " + tail, Scan(argv, "", false, false)) == Run(tail, Scan(argv, "", false, false))
    ensures Fits(argv, token) ==>
      Run(" " + tail, Scan(argv, token, false, true)) == Run(tail, Scan(argv + [token], "", false, false))
  {
    assert (" " + tail)[1..] == tail;
  }

  lemma BlankLeads(argv: seq<string>, token: string)
    ensures Leads(" ", Scan(argv, "", false, false), Scan(argv, "", false, false))
    ensures Fits(argv, token) ==> Leads(" ", Scan(argv, token, false, true), Scan(argv + [token], "", false, false))
  {
    forall tail: string {
      BlankScans(tail, argv, token);
    }
  }

  lemma {:induction false} BlanksLead(n: nat, argv: seq<string>)
    ensures Leads(Blanks(n), Scan(argv, "", false, false), Scan(argv, "", false, false))
  {
    hide Run;
    var s := Scan(argv, "", false, false);
    if n == 0 {
      LeadsNowhere(s);
      assert Blanks(0) == "";
    } else {
      BlankLeads(argv, "");
      BlanksLead(n - 1, argv);
      LeadsOn(" ", Blanks(n - 1), s, s, s);
      assert " " + Blanks(n - 1) == Blanks(n);
    }
  }

  /** A blank closes the open token, and more blanks change nothing. */
  lemma GapLeads(n: nat, argv: seq<string>, token: string)
    requires n > 0 && Fits(argv, token)
    ensures Leads(Blanks(n), Scan(argv, token, false, true), Scan(argv + [token], "", false, false))
  {
    hide Run;
    var after := Scan(argv + [token], "", false, false);
    BlankLeads(argv, token);
    BlanksLead(n - 1, argv + [token]);
    LeadsOn(" ", Blanks(n - 1), Scan(argv, token, false, true), after, after);
    assert " " + Blanks(n - 1) == Blanks(n);
  }

  lemma WordLeads(w: Word, argv: seq<string>)
    requires WritableWord(w) && w.gap > 0 && Fits(argv, Value(w.pieces))
    ensures Leads(WritePieces(w.pieces) + Blanks(w.gap), Scan(argv, "", false, false),
                  Scan(argv + [Value(w.pieces)], "", false, false))
  {
    hide Run;
    var value := Value(w.pieces);
    PiecesLead(w.pieces, Scan(argv, "", false, false));
    assert "" + value == value;
    GapLeads(w.gap, argv, value);
    LeadsOn(WritePieces(w.pieces), Blanks(w.gap), Scan(argv, "", false, false), Scan(argv, value, false, true),
      Scan(argv + [value], "", false, false));
  }

  predicate WordFits(w: Word) {
    Bytes(Value(w.pieces)) <= MAX_ARG_BYTES
  }

  predicate AllFit(words: seq<Word>) {
    forall i | 0 <= i < |words| :: WordFits(words[i])
  }

  lemma BoundedMeansFit(words: seq<Word>)
    requires Bounded(Values(words))
    ensures |words| <= MAX_ARGC && AllFit(words)
  {
    hide Values, Value, Bytes;
    forall i | 0 <= i < |words| ensures WordFits(words[i]) {
      assert Bytes(Values(words)[i]) <= MAX_ARG_BYTES;
    }
  }

  lemma FirstWordSplits(words: seq<Word>, argv: seq<string>)
    requires words != []
    ensures argv + [Value(words[0].pieces)] + Values(words[1..]) == argv + Values(words)
    ensures Written(words) == WritePieces(words[0].pieces) + Blanks(words[0].gap) + Written(words[1..])
  {
    hide Value, WritePieces;
    assert Values(words) == [Value(words[0].pieces)] + Values(words[1..]);
  }

  /** Words that are all followed by a blank are pushed one by one. */
  lemma WordsLeadStep(words: seq<Word>, argv: seq<string>)
    requires words != [] && WritableWord(words[0]) && words[0].gap > 0 && Fits(argv, Value(words[0].pieces))
    requires var more := argv + [Value(words[0].pieces)];
      Leads(Written(words[1..]), Scan(more, "", false, false), Scan(more + Values(words[1..]), "", false, false))
    ensures Leads(Written(words), Scan(argv, "", false, false), Scan(argv + Values(words), "", false, false))
  {
    hide Run, Value, Values, Written, WritePieces;
    var w := words[0];
    var more := argv + [Value(w.pieces)];
    WordLeads(w, argv);
    FirstWordSplits(words, argv);
    LeadsOn(WritePieces(w.pieces) + Blanks(w.gap), Written(words[1..]), Scan(argv, "", false, false),
      Scan(more, "", false, false), Scan(argv + Values(words), "", false, false));
  }

  lemma {:induction false} WordsLead(words: seq<Word>, argv: seq<string>)
    requires AllWritable(words) && (forall i | 0 <= i < |words| :: words[i].gap > 0)
    requires AllFit(words) && |argv| + |words| <= MAX_ARGC
    ensures Leads(Written(words), Scan(argv, "", false, false), Scan(argv + Values(words), "", false, false))
    decreases |words|
  {
    hide Run, Value;
    if words == [] {
      assert argv + Values(words) == argv;
      LeadsNowhere(Scan(argv, "", false, false));
    } else {
      assert WordFits(words[0]);
      WordsLead(words[1..], argv + [Value(words[0].pieces)]);
      WordsLeadStep(words, argv);
    }
  }

  /** Where a line of words ends: the last word is still open, or was pushed by a blank behind it. */
  function EndOfLine(words: seq<Word>): Scan
    requires words != []
  {
    var n := |words| - 1;
    if words[n].gap > 0 then Scan(Values(words), "", false, false)
    else Scan(Values(words[..n]), Value(words[n].pieces), false, true)
  }

  lemma LineLeads(words: seq<Word>)
    requires words != [] && AllWritable(words) && Separated(words) && Bounded(Values(words))
    ensures Leads(Written(words), START, EndOfLine(words))
  {
    hide Run, Value, Values, Written;
    var n := |words| - 1;
    BoundedMeansFit(words);
    if words[n].gap > 0 {
      WordsLead(words, []);
      assert [] + Values(words) == Values(words);
    } else {
      WordsLead(words[..n], []);
      OpenLineLeads(words[..n], words[n]);
      assert words[..n] + [words[n]] == words;
    }
  }

  lemma OpenLineLeads(front: seq<Word>, last: Word)
    requires WritableWord(last) && last.gap == 0
    requires Leads(Written(front), START, Scan([] + Values(front), "", false, false))
    ensures Leads(Written(front + [last]), START, Scan(Values(front), Value(last.pieces), false, true))
  {
    hide Run, Value, Values, Written, WritePieces;
    var open := Scan(Values(front), "", false, false);
    assert [] + Values(front) == Values(front) && "" + Value(last.pieces) == Value(last.pieces);
    WrittenSplits(front, last);
    PiecesLead(last.pieces, open);
    LeadsOn(Written(front), WritePieces(last.pieces), START, open,
      Scan(Values(front), Value(last.pieces), false, true));
  }

  lemma ValuesOfFront(words: seq<Word>)
    requires words != []
    ensures Values(words[..|words| - 1]) + [Value(words[|words| - 1].pieces)] == Values(words)
  {
    hide Value, Values;
    var n := |words| - 1;
    var both := Values(words[..n]) + [Value(words[n].pieces)];
    forall i | 0 <= i < |words| ensures both[i] == Values(words)[i] {
      if i < n {
        assert both[i] == Values(words[..n])[i] && words[..n][i] == words[i];
      }
    }
  }

  /** Such an end yields the words. */
  lemma EndOfLineFinishes(words: seq<Word>)
    requires words != [] && Bounded(Values(words))
    ensures Vector(EndOfLine(words)) == Values(words)
    ensures ArgvBytes(Values(words)) <= MAX_ARGV_BYTES ==> Finish(EndOfLine(words)) == Some(Values(words))
  {
    hide Value, Values, Bytes, ArgvBytes;
    ValuesOfFront(words);
    BoundedMeansFit(words);
    assert WordFits(words[|words| - 1]);
  }

  lemma {:induction false} WrittenSplits(front: seq<Word>, last: Word)
    requires last.gap == 0
    ensures Written(front + [last]) == Written(front) + WritePieces(last.pieces)
  {
    if front == [] {
      assert front + [last] == [last] && [last][1..] == [] && Blanks(0) == "";
    } else {
      assert (front + [last])[1..] == front[1..] + [last];
      WrittenSplits(front[1..], last);
    }
  }

  // ---------------------------------------------------------------- parsing

  /** A line of words, with blanks in front. */
  function Line(lead: nat, words: seq<Word>): string {
    Blanks(lead) + Written(words)
  }

  lemma {:induction false} PiecesArePlain(pieces: seq<Piece>)
    requires forall i | 0 <= i < |pieces| :: Writable(pieces[i])
    ensures '\0' !in WritePieces(pieces)
    ensures IsWord(pieces) ==> WritePieces(pieces) != ""
  {
    if pieces != [] {
      SplitIsWord(pieces);
      PiecesArePlain(pieces[1..]);
      if pieces[0].Bare? {
        BareIsPlain(pieces[0].text);
      } else {
        EscapeControlFree(pieces[0].text);
      }
    }
  }

  lemma {:induction false} BareIsPlain(text: string)
    requires Writable(Bare(text))
    ensures '\0' !in WriteBare(text) && |text| <= |WriteBare(text)|
  {
    if text != "" {
      BareIsPlain(text[1..]);
    }
  }

  lemma {:induction false} WrittenIsPlain(words: seq<Word>)
    requires AllWritable(words)
    ensures '\0' !in Written(words) && (words != [] ==> Written(words) != "")
  {
    if words != [] {
      PiecesArePlain(words[0].pieces);
      WrittenIsPlain(words[1..]);
    }
  }

  lemma LineIsParsed(lead: nat, words: seq<Word>)
    requires words != [] && AllWritable(words) && Separated(words)
    requires Bounded(Values(words)) && Bytes(Line(lead, words)) <= MAX_EXEC_BYTES
    ensures Parsed(Line(lead, words)) == Some(Values(words))
  {
    hide Run, Value, Values, Written, Bytes, EndOfLine, Finish, Vector;
    WrittenIsPlain(words);
    BlanksLead(lead, []);
    LineLeads(words);
    LeadsOn(Blanks(lead), Written(words), START, START, EndOfLine(words));
    LeadsToEnd(Line(lead, words), START, EndOfLine(words));
    ArgvLimitIsRedundant(Line(lead, words));
    EndOfLineFinishes(words);
  }

  /**
   * Words of any unquoted and quoted stretches, any blanks in front, between and behind: the line
   * parses to exactly the words that were written, if and only if there is a word, every word is
   * within the argument limits and the line within its own.
   */
  lemma LineParsesToItsWords(lead: nat, words: seq<Word>)
    requires AllWritable(words) && Separated(words)
    ensures Parsed(Line(lead, words)) == Some(Values(words)) <==>
      words != [] && Bounded(Values(words)) && Bytes(Line(lead, words)) <= MAX_EXEC_BYTES
  {
    hide Run, Value, Written, Bytes;
    if words != [] && Bounded(Values(words)) && Bytes(Line(lead, words)) <= MAX_EXEC_BYTES {
      LineIsParsed(lead, words);
    } else {
      AcceptedArguments(Line(lead, words));
    }
  }

  /** Unquoted words, each followed by its own number of blanks. */
  function PlainWords(args: seq<string>, gaps: seq<nat>): (r: seq<Word>)
    requires |args| == |gaps|
    ensures |r| == |args| && forall i | 0 <= i < |args| :: r[i] == Word([Bare(args[i])], gaps[i])
  {
    if args == [] then [] else [Word([Bare(args[0])], gaps[0])] + PlainWords(args[1..], gaps[1..])
  }

  predicate IsPlainWord(arg: string) {
    arg != "" && forall i | 0 <= i < |arg| :: IsPlain(arg[i]) && arg[i] != '%'
  }

  lemma {:induction false} BareStaysItself(text: string)
    requires forall i | 0 <= i < |text| :: text[i] != '%'
    ensures WriteBare(text) == text
  {
    if text != "" {
      BareStaysItself(text[1..]);
    }
  }

  /** The arguments as they stand, with blanks after each. */
  function Spaced(args: seq<string>, gaps: seq<nat>): string
    requires |args| == |gaps|
  {
    if args == [] then "" else args[0] + (Blanks(gaps[0]) + Spaced(args[1..], gaps[1..]))
  }

  lemma {:induction false} PlainWordsAreWritten(args: seq<string>, gaps: seq<nat>)
    requires |args| == |gaps| && forall i | 0 <= i < |args| :: IsPlainWord(args[i])
    ensures Written(PlainWords(args, gaps)) == Spaced(args, gaps)
    ensures AllWritable(PlainWords(args, gaps)) && Values(PlainWords(args, gaps)) == args
  {
    var words := PlainWords(args, gaps);
    if args != [] {
      PlainWordsAreWritten(args[1..], gaps[1..]);
      assert words[1..] == PlainWords(args[1..], gaps[1..]);
      BareStaysItself(args[0]);
      assert WritePieces([Bare(args[0])]) == WriteBare(args[0]) + "" by {
        assert [Bare(args[0])][1..] == [];
      }
    }
    forall i | 0 <= i < |words| ensures WritableWord(words[i]) && Value(words[i].pieces) == args[i] {
      assert words[i].pieces[0] == Bare(args[i]) && [Bare(args[i])][1..] == [];
      assert args[i] + "" == args[i];
    }
  }

  /** The form most session files use: plain words between blanks parse to those words. */
  lemma PlainWordsParse(args: seq<string>, gaps: seq<nat>)
    requires |args| == |gaps| && args != [] && Bounded(args) && Bytes(Spaced(args, gaps)) <= MAX_EXEC_BYTES
    requires (forall i | 0 <= i < |args| :: IsPlainWord(args[i])) && forall i | 0 <= i < |args| - 1 :: gaps[i] > 0
    ensures Parsed(Spaced(args, gaps)) == Some(args)
  {
    PlainWordsAreWritten(args, gaps);
    LineParsesToItsWords(0, PlainWords(args, gaps));
    assert Line(0, PlainWords(args, gaps)) == Spaced(args, gaps);
  }

  // ---------------------------------------------------------------- refusals

  /** A malformed rest outside quotes: a control, a backslash, a lone percent sign, a bad or open quote. */
  predicate BadRest(rest: string) {
    rest != "" &&
    (|| IsControl(rest[0]) || rest[0] == '\\'
     || (rest[0] == '%' && (|rest| == 1 || rest[1] != '%'))
     || (rest[0] == '\"' && BadInside(rest[1..])))
  }

  /** The same inside quotes, where the quote may also be missing. */
  predicate BadInside(rest: string)
    decreases |rest|
  {
    || rest == "" || IsControl(rest[0])
    || (rest[0] == '%' && (|rest| == 1 || rest[1] != '%' || BadInside(rest[2..])))
    || (rest[0] == '\\' && (|rest| == 1 || rest[1] !in "\"`$\\" || BadInside(rest[2..])))
    || (rest[0] !in "%\\\"" && BadInside(rest[1..]))
  }

  lemma {:induction false} BadInsideIsRefused(rest: string, s: Scan)
    requires s.quoted && BadInside(rest)
    ensures Run(rest, s).None? || Run(rest, s).value.quoted
    decreases |rest|
  {
    if rest != "" && Run(rest, s).Some? {
      assert rest[0] in "%\\\"" <==> rest[0] == '%' || rest[0] == '\\' || rest[0] == '\"';
      if rest[0] == '%' || rest[0] == '\\' {
        BadInsideIsRefused(rest[2..], s.(token := s.token + [rest[1]], started := true));
      } else {
        BadInsideIsRefused(rest[1..], s.(token := s.token + [rest[0]], started := true));
      }
    }
  }

  lemma BadRestIsRefused(rest: string, argv: seq<string>)
    requires BadRest(rest)
    ensures var r := Run(rest, Scan(argv, "", false, false)); r.None? || r.value.quoted
  {
    if rest[0] == '\"' {
      BadInsideIsRefused(rest[1..], Scan(argv, "", true, true));
    }
  }

  /** After any well-written words, a malformed rest refuses the whole line. */
  lemma MalformedRestIsRefused(lead: nat, words: seq<Word>, rest: string)
    requires AllWritable(words) && (forall i | 0 <= i < |words| :: words[i].gap > 0) && BadRest(rest)
    requires |words| <= MAX_ARGC && Bounded(Values(words))
    ensures Parsed(Line(lead, words) + rest).None?
  {
    hide Run, Value, Values, Written;
    var after := Scan(Values(words), "", false, false);
    BlanksLead(lead, []);
    BoundedMeansFit(words);
    WordsLead(words, []);
    assert [] + Values(words) == Values(words);
    LeadsOn(Blanks(lead), Written(words), START, START, after);
    assert Run(Line(lead, words) + rest, START) == Run(rest, after);
    BadRestIsRefused(rest, Values(words));
  }
}
