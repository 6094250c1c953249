/**
 * What systemd and the cgroup file system answer about one payload scope. Answers may change
 * between any two calls: an environment gives one world per instant, and each call of a proof reads
 * the world of its own instant.
 */
module ScopeWorld {
  import opened Text
  import opened ScopeIdentity

  datatype BackendError = NoSuchUnit | UnknownObject | BusDisconnected | ServiceOwnerChanged | Transport

  datatype ScopeError =
    | BusUnavailable | StartFailed | TimedOut | JobFailed | InvalidIdentity | CgroupMismatch | InvalidMembership
    | WorkerInsideBoundary | CleanupFailed | ObserverFailed | UnitReplaced | BoundaryNotEmpty | UnitNotTerminal
    | UnrefFailed | InvocationUnavailable | ServiceChanged | TransportFailure

  function MapError(e: BackendError): ScopeError {
    match e
    case NoSuchUnit => InvocationUnavailable
    case UnknownObject => InvocationUnavailable
    case BusDisconnected => BusUnavailable
    case ServiceOwnerChanged => ServiceChanged
    case Transport => TransportFailure
  }

  /** The properties of a unit object; the invocation is None when it is not sixteen bytes. */
  datatype UnitView = UnitView(
    id: string, invocation: Option<string>, controlGroup: string, slice: string, transient: bool,
    active: string, sub: string)

  datatype FileMeta = MetaMissing | MetaError | Regular | Irregular
  datatype FileText = TextMissing | TextError | Readable(text: string)
  datatype DirectoryStat = Absent | Exists | StatError

  /**
   * One instant. `bus` is an error every bus call meets at this instant. `live` and `populated` are
   * ground truth no code can read: whether the invocation still runs, and whether any process is
   * left in its cgroup or below it.
   */
  datatype World = World(
    bus: Option<BackendError>, resolved: Option<string>, units: map<string, UnitView>, eventsMeta: FileMeta,
    events: FileText, procs: FileText, directory: DirectoryStat, workerCgroup: Option<string>,
    launcherCgroup: Option<string>, live: bool, populated: bool)

  type Env = nat -> World

  datatype Lookup = Present(path: string) | Missing

  /** The lookup by invocation; the two errors that say there is no such unit are an answer. */
  function Resolve(w: World): Result<Lookup, BackendError> {
    match w.bus
    case Some(NoSuchUnit) => Ok(Missing)
    case Some(UnknownObject) => Ok(Missing)
    case Some(e) => Err(e)
    case None => if w.resolved.Some? then Ok(Present(w.resolved.value)) else Ok(Missing)
  }

  function ReadUnit(w: World, path: string): Result<UnitView, BackendError> {
    if w.bus.Some? then Err(w.bus.value)
    else if path !in w.units then Err(UnknownObject)
    else Ok(w.units[path])
  }

  datatype Properties = Properties(
    id: string, invocationId: string, controlGroup: string, slice: string, transient: bool, active: string,
    sub: string)

  /** Seven property reads at seven instants: a reply mixes the worlds it was read in. */
  function ReadProperties(env: Env, t: nat, path: string): Result<Properties, BackendError> {
    var a, b, c, d := ReadUnit(env(t), path), ReadUnit(env(t + 1), path), ReadUnit(env(t + 2), path),
      ReadUnit(env(t + 3), path);
    var e, f, g := ReadUnit(env(t + 4), path), ReadUnit(env(t + 5), path), ReadUnit(env(t + 6), path);
    if a.Err? then Err(a.error)
    else if a.value.invocation.None? then Err(Transport)
    else if b.Err? then Err(b.error)
    else if c.Err? then Err(c.error)
    else if d.Err? then Err(d.error)
    else if e.Err? then Err(e.error)
    else if f.Err? then Err(f.error)
    else if g.Err? then Err(g.error)
    else Ok(Properties(b.value.id, a.value.invocation.value, c.value.controlGroup, d.value.slice, e.value.transient,
      f.value.active, g.value.sub))
  }

  // ---------------------------------------------------------------- the cgroup files

  const MAX_CGROUP_STATE_BYTES := 4096

  predicate IsAsciiSpace(c: char) {
    c == ' ' || c == '\t' || c == '\n' || c == '\r' || c as int == 0x0c
  }

  /** The fields of a line between ASCII white space. */
  function Fields(line: string): seq<string> {
    FieldsFrom(line, "")
  }

  function FieldsFrom(line: string, field: string): seq<string> {
    if line == "" then (if field == "" then [] else [field])
    else if IsAsciiSpace(line[0]) then (if field == "" then [] else [field]) + FieldsFrom(line[1..], "")
    else FieldsFrom(line[1..], field + [line[0]])
  }

  predicate AllDigits(s: string) {
    forall i | 0 <= i < |s| :: '0' <= s[i] <= '9'
  }

  function DigitsValue(s: string): nat
    requires AllDigits(s)
  {
    if s == "" then 0 else DigitsValue(s[..|s| - 1]) * 10 + (s[|s| - 1] as int - '0' as int)
  }

  /** An unsigned number of at most one, as the source's integer parser reads it. */
  function ParseFlag(s: string): Option<nat> {
    var digits := if s != "" && s[0] == '+' then s[1..] else s;
    if digits == "" || !AllDigits(digits) || DigitsValue(digits) > 1 then None else Some(DigitsValue(digits))
  }

  predicate NamesPopulated(line: string) {
    |Fields(line)| == 2 && Fields(line)[0] == "populated"
  }

  predicate Gives(line: string, v: nat) {
    NamesPopulated(line) && ParseFlag(Fields(line)[1]) == Some(v)
  }

  /** A line that says nothing about the flag: blank, or another key and its value. */
  predicate Skips(line: string) {
    Fields(line) == [] || (|Fields(line)| == 2 && Fields(line)[0] != "populated")
  }

  predicate AllSkip(lines: seq<string>) {
    forall j | 0 <= j < |lines| :: Skips(lines[j])
  }

  /** Exactly one line gives the flag, with value v, and all others say nothing about it. */
  ghost predicate SaysFlag(lines: seq<string>, v: nat) {
    exists i | 0 <= i < |lines| :: Gives(lines[i], v) && AllSkip(lines[..i]) && AllSkip(lines[i + 1..])
  }

  /** `cgroup.events` says `populated v`. */
  ghost predicate SaysPopulated(text: string, v: nat) {
    SaysFlag(Lines(text), v)
  }

  function ParseLines(lines: seq<string>, populated: Option<nat>): Option<nat> {
    if lines == [] then populated
    else
      var fields := Fields(lines[0]);
      if fields == [] then ParseLines(lines[1..], populated)
      else if |fields| != 2 then None
      else if fields[0] != "populated" then ParseLines(lines[1..], populated)
      else if populated.Some? || ParseFlag(fields[1]).None? then None
      else ParseLines(lines[1..], ParseFlag(fields[1]))
  }

  function Populated(text: string): Option<nat> {
    ParseLines(Lines(text), None)
  }

  method ParsePopulated(text: string) returns (r: Option<nat>)
    ensures r == Populated(text)
  {
    var populated: Option<nat> := None;
    var lines := Lines(text);
    var i := 0;
    while i < |lines|
      invariant 0 <= i <= |lines|
      invariant ParseLines(lines, None) == ParseLines(lines[i..], populated)
    {
      assert lines[i..][1..] == lines[i + 1..];
      var fields := Fields(lines[i]);
      i := i + 1;
      if fields == [] {
        continue;
      }
      if |fields| != 2 {
        return None;
      }
      if fields[0] == "populated" {
        if populated.Some? {
          return None;
        }
        populated := ParseFlag(fields[1]);
        if populated.None? {
          return None;
        }
      }
    }
    return populated;
  }

  lemma AllSkipAtFront(lines: seq<string>, k: nat)
    requires 0 < k <= |lines|
    ensures AllSkip(lines[..k]) <==> Skips(lines[0]) && AllSkip(lines[1..][..k - 1])
  {
    assert lines[1..][..k - 1] == lines[1..k];
    assert forall j | 1 <= j < k :: lines[..k][j] == lines[1..k][j - 1];
    assert AllSkip(lines[..k]) ==> Skips(lines[..k][0]);
  }

  lemma SaysFlagAtFront(lines: seq<string>, v: nat)
    requires lines != []
    ensures SaysFlag(lines, v) <==>
      (Skips(lines[0]) && SaysFlag(lines[1..], v)) || (Gives(lines[0], v) && AllSkip(lines[1..]))
  {
    var rest := lines[1..];
    if Gives(lines[0], v) && AllSkip(rest) {
      assert AllSkip(lines[..0]);
      assert SaysFlag(lines, v);
    }
    if Skips(lines[0]) && SaysFlag(rest, v) {
      var i :| 0 <= i < |rest| && Gives(rest[i], v) && AllSkip(rest[..i]) && AllSkip(rest[i + 1..]);
      AllSkipAtFront(lines, i + 1);
      assert rest[i + 1..] == lines[i + 2..];
      assert Gives(lines[i + 1], v) && AllSkip(lines[..i + 1]) && AllSkip(lines[i + 1 + 1..]);
    }
    if SaysFlag(lines, v) {
      var i :| 0 <= i < |lines| && Gives(lines[i], v) && AllSkip(lines[..i]) && AllSkip(lines[i + 1..]);
      if i > 0 {
        AllSkipAtFront(lines, i);
        assert rest[i..] == lines[i + 1..];
        assert Gives(rest[i - 1], v) && AllSkip(rest[..i - 1]) && AllSkip(rest[i - 1 + 1..]);
      }
    }
  }

  lemma ParseLine(lines: seq<string>, populated: Option<nat>)
    requires lines != []
    ensures Skips(lines[0]) ==> ParseLines(lines, populated) == ParseLines(lines[1..], populated)
    ensures !Skips(lines[0]) && populated.Some? ==> ParseLines(lines, populated) == None
    ensures !Skips(lines[0]) && populated.None? ==>
      if exists v: nat :: Gives(lines[0], v)
      then ParseLines(lines, None) == ParseLines(lines[1..], ParseFlag(Fields(lines[0])[1]))
      else ParseLines(lines, None) == None
  {
    if NamesPopulated(lines[0]) && ParseFlag(Fields(lines[0])[1]).Some? {
      assert Gives(lines[0], ParseFlag(Fields(lines[0])[1]).value);
    }
  }

  /** With the flag known, the other lines must say nothing about it. */
  lemma {:induction false} ParseWithFlag(lines: seq<string>, w: nat, v: nat)
    ensures ParseLines(lines, Some(w)) == Some(v) <==> w == v && AllSkip(lines)
  {
    if lines != [] {
      ParseLine(lines, Some(w));
      ParseWithFlag(lines[1..], w, v);
      AllSkipAtFront(lines, |lines|);
      assert lines[..|lines|] == lines && lines[1..][..|lines| - 1] == lines[1..];
    }
  }

  lemma {:induction false} ParseLinesAgrees(lines: seq<string>, v: nat)
    ensures ParseLines(lines, None) == Some(v) <==> SaysFlag(lines, v)
  {
    if lines != [] {
      SaysFlagAtFront(lines, v);
      ParseLine(lines, None);
      if Skips(lines[0]) {
        ParseLinesAgrees(lines[1..], v);
      } else if NamesPopulated(lines[0]) && ParseFlag(Fields(lines[0])[1]).Some? {
        assert Gives(lines[0], ParseFlag(Fields(lines[0])[1]).value);
        ParseWithFlag(lines[1..], ParseFlag(Fields(lines[0])[1]).value, v);
      }
    }
  }

  /** The parser accepts exactly the texts that say one value, and returns it. */
  lemma PopulatedIsWhatTheTextSays(text: string, v: nat)
    ensures Populated(text) == Some(v) <==> SaysPopulated(text, v)
  {
    ParseLinesAgrees(Lines(text), v);
  }

  lemma {:induction false} FieldsOfWord(word: string, rest: string, field: string)
    requires forall i | 0 <= i < |word| :: !IsAsciiSpace(word[i])
    ensures FieldsFrom(word + rest, field) == FieldsFrom(rest, field + word)
  {
    if word == "" {
      assert word + rest == rest && field + word == field;
    } else {
      assert (word + rest)[1..] == word[1..] + rest;
      assert field + [word[0]] + word[1..] == field + word;
      FieldsOfWord(word[1..], rest, field + [word[0]]);
    }
  }

  /** The line the kernel writes: the key, a space and the flag. */
  function FlagLine(flag: char): string {
    "populated" + (" " + [flag])
  }

  lemma FlagLineFields(flag: char)
    requires flag == '0' || flag == '1'
    ensures Fields(FlagLine(flag)) == ["populated", [flag]]
  {
    FieldsOfWord("populated", " " + [flag], "");
    assert "" + "populated" == "populated";
    assert (" " + [flag])[1..] == [flag] && [flag][1..] == "" && "" + [flag] == [flag];
    assert FieldsFrom([flag], "") == FieldsFrom("", [flag]);
    assert FieldsFrom(" " + [flag], "populated") == ["populated"] + FieldsFrom([flag], "");
  }

  /** The kernel's two texts, and what they mean. */
  lemma FlagLineMeans(flag: char)
    requires flag == '0' || flag == '1'
    ensures Populated(FlagLine(flag)) == Some(if flag == '0' then 0 else 1)
  {
    var line := FlagLine(flag);
    FlagLineFields(flag);
    assert IndexOf(line, '\n') == |line|;
    assert Lines(line) == [line];
    assert [flag][..0] == "" && DigitsValue([flag]) == flag as int - '0' as int;
    assert ParseLines([], ParseFlag([flag])) == ParseFlag([flag]);
    assert [line][1..] == [];
  }

  datatype CgroupState = CgroupAbsent | PresentEmpty

  predicate HasDotDot(path: string) {
    exists i | 0 <= i < |path| - 1 :: path[i] == '.' && path[i + 1] == '.'
  }

  predicate AllSpace(s: string) {
    forall i | 0 <= i < |s| :: IsWhitespace(s[i])
  }

  /** The bounded read of a cgroup file. */
  function ReadBounded(file: FileText): Option<string> {
    if file.Readable? && Bytes(file.text) <= MAX_CGROUP_STATE_BYTES then Some(file.text) else None
  }

  /** The cgroup check at three instants: metadata, then events or the directory, then members. */
  function ReadCgroupState(env: Env, t: nat, controlGroup: string): Result<CgroupState, ScopeError> {
    if controlGroup == "" || controlGroup[0] != '/' || HasDotDot(controlGroup) then Err(InvalidIdentity)
    else match env(t).eventsMeta
      case MetaError => Err(InvalidMembership)
      case Irregular => Err(InvalidMembership)
      case MetaMissing => if env(t + 1).directory.Absent? then Ok(CgroupAbsent) else Err(InvalidMembership)
      case Regular =>
        var events := ReadBounded(env(t + 1).events);
        if events.None? || Populated(events.value).None? then Err(InvalidMembership)
        else if Populated(events.value).value != 0 then Err(BoundaryNotEmpty)
        else
          var procs := ReadBounded(env(t + 2).procs);
          if procs.None? then Err(InvalidMembership)
          else if !AllSpace(procs.value) then Err(BoundaryNotEmpty)
          else Ok(PresentEmpty)
  }

  // ---------------------------------------------------------------- what a cgroup read answers

  lemma FlagIsZeroOrOne(text: string, v: nat)
    requires Populated(text) == Some(v)
    ensures v <= 1 && SaysPopulated(text, v)
  {
    PopulatedIsWhatTheTextSays(text, v);
    var lines := Lines(text);
    var i :| 0 <= i < |lines| && Gives(lines[i], v) && AllSkip(lines[..i]) && AllSkip(lines[i + 1..]);
  }

  /** A file that can be read, is small enough and says the flag has this value. */
  ghost predicate Says(file: FileText, v: nat) {
    file.Readable? && Bytes(file.text) <= 4096 && SaysPopulated(file.text, v)
  }

  predicate PathIsSafe(path: string) {
    path != "" && path[0] == '/' && !HasDotDot(path)
  }

  lemma EventsExactly(file: FileText, v: nat)
    requires v <= 1
    ensures Says(file, v) <==> ReadBounded(file).Some? && Populated(ReadBounded(file).value) == Some(v)
  {
    if ReadBounded(file).Some? {
      PopulatedIsWhatTheTextSays(file.text, v);
    }
  }

  /**
   * Every answer of the cgroup read, exactly: absent, empty, still populated (by the flag or by a
   * member), an unsafe path; anything else is an invalid membership.
   */
  lemma CgroupReadExactly(env: Env, t: nat, path: string)
    ensures var r, events, procs := ReadCgroupState(env, t, path), env(t + 1).events, env(t + 2).procs;
      var regular := PathIsSafe(path) && env(t).eventsMeta == Regular;
      && (r == Ok(CgroupAbsent) <==>
            PathIsSafe(path) && env(t).eventsMeta == MetaMissing && env(t + 1).directory == Absent)
      && (r == Ok(PresentEmpty) <==>
            regular && Says(events, 0) && procs.Readable? && Bytes(procs.text) <= 4096 && AllSpace(procs.text))
      && (r == Err(BoundaryNotEmpty) <==>
            regular && (Says(events, 1) ||
              (Says(events, 0) && procs.Readable? && Bytes(procs.text) <= 4096 && !AllSpace(procs.text))))
      && (r == Err(InvalidIdentity) <==> !PathIsSafe(path))
      && (r.Err? ==> r.error == BoundaryNotEmpty || r.error == InvalidIdentity || r.error == InvalidMembership)
  {
    hide SaysPopulated, Populated, Bytes;
    var events := env(t + 1).events;
    EventsExactly(events, 0);
    EventsExactly(events, 1);
    if ReadBounded(events).Some? && Populated(events.text).Some? {
      FlagIsZeroOrOne(events.text, Populated(events.text).value);
    }
  }

  /** The decimal digits of a number read back as that number. */
  lemma {:induction false} DecimalReadsBack(n: nat)
    ensures AllDigits(Decimal(n)) && DigitsValue(Decimal(n)) == n
  {
    if n < 10 {
      assert Decimal(n)[..0] == "";
    } else {
      DecimalReadsBack(n / 10);
      assert Decimal(n)[..|Decimal(n)| - 1] == Decimal(n / 10);
    }
  }
}
