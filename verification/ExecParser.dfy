/** The Exec key of a session entry: the quoting state machine and its byte limits. */
module ExecParser {
  import opened Text

  const MAX_EXEC_BYTES := 8 * 1024
  const MAX_ARGC := 64
  const MAX_ARG_BYTES := 4 * 1024
  const MAX_ARGV_BYTES := 16 * 1024

  /** The scanner's variables: arguments pushed so far, the open token, and the two flags. */
  datatype Scan = Scan(argv: seq<string>, token: string, quoted: bool, started: bool)

  const START := Scan([], "", false, false)

  predicate Fits(argv: seq<string>, token: string) {
    Bytes(token) <= MAX_ARG_BYTES && |argv| < MAX_ARGC
  }

  predicate Escapable(c: char) {
    c == '\"' || c == '`' || c == '$' || c == '\\'
  }

  /** The scan of a whole suffix; None is the one error the source reports. */
  function Run(rest: string, s: Scan): (r: Option<Scan>)
    decreases |rest|
  {
    if rest == "" then Some(s)
    else
      var c := rest[0];
      if IsControl(c) then None
      else if s.quoted && c == '\"' then
        Run(rest[1..], s.(quoted := false, started := true))
      else if c == '%' || (s.quoted && c == '\\') then
        if |rest| > 1 && (if c == '%' then rest[1] == '%' else Escapable(rest[1])) then
          Run(rest[2..], s.(token := s.token + [rest[1]], started := true))
        else
          None
      else if s.quoted then
        Run(rest[1..], s.(token := s.token + [c], started := true))
      else if c == ' ' || c == '\t' then
        if !s.started then Run(rest[1..], s)
        else if !Fits(s.argv, s.token) then None
        else Run(rest[1..], Scan(s.argv + [s.token], "", false, false))
      else if c == '\"' then
        Run(rest[1..], s.(quoted := true, started := true))
      else if c == '\\' then None
      else Run(rest[1..], s.(token := s.token + [c], started := true))
  }

  /** Bytes of an argument vector as the kernel counts them: one terminator per argument. */
  function ArgvBytes(argv: seq<string>): nat {
    if argv == [] then 0 else Bytes(argv[0]) + 1 + ArgvBytes(argv[1..])
  }

  /** The arguments once the open token, if any, is closed. */
  function Vector(s: Scan): seq<string> {
    if s.started then s.argv + [s.token] else s.argv
  }

  /** What is left to do after the scan. */
  function Finish(s: Scan): (r: Option<seq<string>>) {
    if s.quoted || (!s.started && s.argv == []) || (s.started && !Fits(s.argv, s.token)) then None
    else
      var argv := Vector(s);
      if ArgvBytes(argv) > MAX_ARGV_BYTES then None else Some(argv)
  }

  function Parsed(value: string): (r: Option<seq<string>>) {
    if value == "" || Bytes(value) > MAX_EXEC_BYTES || '\0' in value then None
    else
      var s := Run(value, START);
      if s.None? then None else Finish(s.value)
  }

  /** The loop of the source over its mutable variables, with `rest` as the character iterator. */
  method ParseExec(value: string) returns (r: Option<seq<string>>)
    ensures r == Parsed(value)
  {
    if value == "" || Bytes(value) > MAX_EXEC_BYTES || '\0' in value {
      return None;
    }
    var argv: seq<string> := [];
    var token := "";
    var quoted := false;
    var tokenStarted := false;
    var rest := value;
    while rest != ""
      invariant Run(value, START) == Run(rest, Scan(argv, token, quoted, tokenStarted))
      decreases |rest|
    {
      var character := rest[0];
      if IsControl(character) {
        return None;
      }
      ghost var before := rest;
      rest := rest[1..];
      if quoted {
        if character == '\"' {
          quoted := false;
        } else if character == '\\' {
          if rest == "" || !Escapable(rest[0]) {
            return None;
          }
          token := token + [rest[0]];
          rest := rest[1..];
        } else if character == '%' {
          if rest == "" || rest[0] != '%' {
            return None;
          }
          token := token + ['%'];
          rest := rest[1..];
        } else {
          token := token + [character];
        }
        tokenStarted := true;
        continue;
      }
      if character == ' ' || character == '\t' {
        if tokenStarted {
          if !Fits(argv, token) {
            return None;
          }
          argv := argv + [token];
          token := "";
          tokenStarted := false;
        }
      } else if character == '\"' {
        quoted := true;
        tokenStarted := true;
      } else if character == '%' {
        if rest == "" || rest[0] != '%' {
          return None;
        }
        token := token + ['%'];
        rest := rest[1..];
        tokenStarted := true;
      } else if character == '\\' {
        return None;
      } else {
        token := token + [character];
        tokenStarted := true;
      }
    }
    if quoted || (!tokenStarted && argv == []) {
      return None;
    }
    if tokenStarted {
      if !Fits(argv, token) {
        return None;
      }
      argv := argv + [token];
    }
    if argv == [] {
      return None;
    }
    var total := ArgvBytes(argv);
    if total > MAX_ARGV_BYTES {
      return None;
    }
    return Some(argv);
  }

  // ---------------------------------------------------------------- what the scan conserves

  lemma {:induction false} ArgvBytesOfAppend(argv: seq<string>, arg: string)
    ensures ArgvBytes(argv + [arg]) == ArgvBytes(argv) + Bytes(arg) + 1
  {
    if argv == [] {
      assert argv + [arg] == [arg];
    } else {
      assert (argv + [arg])[1..] == argv[1..] + [arg];
      ArgvBytesOfAppend(argv[1..], arg);
    }
  }

  /** Bytes already committed to arguments, the open token included. */
  function Committed(s: Scan): nat {
    ArgvBytes(s.argv) + Bytes(s.token)
  }

  /** A token holds characters only after something started it. */
  predicate Coherent(s: Scan) {
    (!s.started ==> s.token == "") && (s.quoted ==> s.started)
  }

  ghost predicate Clean(s: Scan) {
    ControlFree(s.token) && (forall i | 0 <= i < |s.argv| :: ControlFree(s.argv[i]))
  }

  ghost predicate Bounded(argv: seq<string>) {
    |argv| <= MAX_ARGC && forall i | 0 <= i < |argv| :: Bytes(argv[i]) <= MAX_ARG_BYTES
  }

  lemma BytesOfPush(token: string, c: char)
    ensures Bytes(token + [c]) == Bytes(token) + Width(c)
  {
    BytesOfConcat(token, [c]);
    assert [c][1..] == "";
  }

  /**
   * Every scan keeps the flags coherent, stays control-free and within the per-argument limits,
   * and never commits more bytes than it reads.
   */
  lemma {:induction false} RunConserves(rest: string, s: Scan)
    requires Coherent(s) && Clean(s) && Bounded(s.argv)
    ensures var r := Run(rest, s);
      r.Some? ==>
        && Coherent(r.value) && Clean(r.value) && Bounded(r.value.argv)
        && Committed(r.value) <= Committed(s) + Bytes(rest)
    decreases |rest|
  {
    if rest != "" && Run(rest, s).Some? {
      var c := rest[0];
      if c == '%' || (s.quoted && c == '\\') {
        BytesOfPush(s.token, rest[1]);
        assert Bytes(rest) == Width(c) + (Width(rest[1]) + Bytes(rest[2..])) by {
          assert rest[1..][1..] == rest[2..];
        }
        RunConserves(rest[2..], s.(token := s.token + [rest[1]], started := true));
      } else if c == '\"' {
        RunConserves(rest[1..], s.(quoted := !s.quoted, started := true));
      } else if !s.quoted && c == ' ' {
        if s.started {
          ArgvBytesOfAppend(s.argv, s.token);
          RunConserves(rest[1..], Scan(s.argv + [s.token], "", false, false));
        } else {
          RunConserves(rest[1..], s);
        }
      } else {
        BytesOfPush(s.token, c);
        RunConserves(rest[1..], s.(token := s.token + [c], started := true));
      }
    }
  }

  /** The conservation law: the arguments and their terminators fit in the input plus one byte. */
  lemma ScanConservesBytes(value: string)
    ensures Run(value, START).Some? ==> ArgvBytes(Vector(Run(value, START).value)) <= Bytes(value) + 1
  {
    RunConserves(value, START);
    var r := Run(value, START);
    if r.Some? {
      ArgvBytesOfAppend(r.value.argv, r.value.token);
    }
  }

  /** After the input limit was checked, the limit on the whole vector can no longer fail. */
  lemma ArgvLimitIsRedundant(value: string)
    requires Bytes(value) <= MAX_EXEC_BYTES
    ensures Run(value, START).Some? ==> ArgvBytes(Vector(Run(value, START).value)) < MAX_ARGV_BYTES
  {
    ScanConservesBytes(value);
  }

  /** Every accepted vector is non-empty, within the limits, and free of NUL and other controls. */
  lemma AcceptedArguments(value: string)
    ensures Parsed(value).Some? ==>
      var argv := Parsed(value).value;
      argv != [] && Bounded(argv) && (forall i | 0 <= i < |argv| :: ControlFree(argv[i]))
  {
    RunConserves(value, START);
  }
}
