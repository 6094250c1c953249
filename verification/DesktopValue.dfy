/** Value strings of desktop entries: the decoder and the encoder it undoes. */
module DesktopValue {
  import opened Text

  /** What an escape introduced by a backslash stands for; None is a malformed value. */
  function Escape(c: char): (r: Option<string>) {
    match c
    case 's' => Some(" ")
    case 'n' => Some("\n")
    case 't' => Some("\t")
    case 'r' => Some("\r")
    case '\\' => Some("\\")
    case '\"' => Some("\\\"")
    case '$' => Some("\\$")
    case '`' => Some("\\`")
    case _ => None
  }

  function Prepend(prefix: string, r: Option<string>): Option<string> {
    if r.None? then None else Some(prefix + r.value)
  }

  /** The decoding relation as a recursive definition over the value. */
  function Decoded(value: string): (r: Option<string>)
  {
    if value == "" then Some("")
    else if value[0] != '\\' then Prepend([value[0]], Decoded(value[1..]))
    else if |value| == 1 || Escape(value[1]).None? then None
    else Prepend(Escape(value[1]).value, Decoded(value[2..]))
  }

  lemma PrependTwice(a: string, b: string, r: Option<string>)
    ensures Prepend(a, Prepend(b, r)) == Prepend(a + b, r)
  {
    if r.Some? {
      assert a + (b + r.value) == a + b + r.value;
    }
  }

  lemma DecodePlain(c: char, tail: string)
    requires c != '\\'
    ensures Decoded([c] + tail) == Prepend([c], Decoded(tail))
  {
    assert ([c] + tail)[1..] == tail;
  }

  lemma DecodeEscape(c: char, tail: string)
    requires Escape(c).Some?
    ensures Decoded("\\" + [c] + tail) == Prepend(Escape(c).value, Decoded(tail))
  {
    assert ("\\" + [c] + tail)[2..] == tail;
  }

  /** The single left-to-right pass of the source, with `rest` as its character iterator. */
  method DecodeValue(value: string) returns (r: Option<string>)
    ensures r == Decoded(value)
  {
    var decoded := "";
    var rest := value;
    assert Decoded(value).Some? ==> "" + Decoded(value).value == Decoded(value).value;
    while rest != ""
      invariant Decoded(value) == Prepend(decoded, Decoded(rest))
      decreases |rest|
    {
      var character := rest[0];
      rest := rest[1..];
      if character != '\\' {
        PrependTwice(decoded, [character], Decoded(rest));
        decoded := decoded + [character];
        continue;
      }
      if rest == "" {
        return None;
      }
      var next := Escape(rest[0]);
      if next.None? {
        return None;
      }
      rest := rest[1..];
      PrependTwice(decoded, next.value, Decoded(rest));
      decoded := decoded + next.value;
    }
    assert decoded + "" == decoded;
    return Some(decoded);
  }

  /** Writes every backslash twice. */
  function DoubleBackslashes(s: string): (r: string)
    ensures |s| <= |r|
  {
    if s == "" then "" else (if s[0] == '\\' then "\\\\" else [s[0]]) + DoubleBackslashes(s[1..])
  }

  /** Doubling is undone by the decoder, on every string. */
  lemma {:induction false} DecodeUndoesDoubling(s: string)
    ensures Decoded(DoubleBackslashes(s)) == Some(s)
  {
    if s != "" {
      DecodeUndoesDoubling(s[1..]);
      var tail := DoubleBackslashes(s[1..]);
      if s[0] == '\\' {
        DecodeEscape('\\', tail);
      } else {
        DecodePlain(s[0], tail);
      }
      assert [s[0]] + s[1..] == s;
    }
  }

  /** No decoded value is longer than what was written. */
  lemma {:induction false} DecodedNeverGrows(value: string)
    ensures Decoded(value).Some? ==> |Decoded(value).value| <= |value|
  {
    if value != "" {
      if value[0] != '\\' {
        DecodedNeverGrows(value[1..]);
      } else if |value| > 1 && Escape(value[1]).Some? {
        DecodedNeverGrows(value[2..]);
      }
    }
  }

  // ---------------------------------------------------------------- the escapes

  /** Every character that has an escape for itself, escaped. */
  function EscapeChar(c: char): string {
    match c
    case ' ' => "\\s"
    case '\n' => "\\n"
    case '\t' => "\\t"
    case '\r' => "\\r"
    case '\\' => "\\\\"
    case _ => [c]
  }

  function EscapeAll(s: string): string {
    if s == "" then "" else EscapeChar(s[0]) + EscapeAll(s[1..])
  }

  lemma DecodeEscapedChar(c: char, tail: string)
    ensures Decoded(EscapeChar(c) + tail) == Prepend([c], Decoded(tail))
  {
    match c
    case ' ' => DecodeEscape('s', tail);
    case '\n' => DecodeEscape('n', tail);
    case '\t' => DecodeEscape('t', tail);
    case '\r' => DecodeEscape('r', tail);
    case '\\' => DecodeEscape('\\', tail);
    case _ => DecodePlain(c, tail);
  }

  /** Decoding undoes the escaping of blanks, newlines, tabs, carriage returns and backslashes, for every string. */
  lemma {:induction false} DecodeUndoesEscaping(s: string)
    ensures Decoded(EscapeAll(s)) == Some(s)
  {
    if s != "" {
      DecodeUndoesEscaping(s[1..]);
      DecodeEscapedChar(s[0], EscapeAll(s[1..]));
      assert [s[0]] + s[1..] == s;
    }
  }

  lemma {:induction false} DecodeAfterEscaped(s: string, tail: string)
    ensures Decoded(EscapeAll(s) + tail) == Prepend(s, Decoded(tail))
  {
    if s == "" {
      assert EscapeAll(s) + tail == tail;
      assert Decoded(tail).Some? ==> "" + Decoded(tail).value == Decoded(tail).value;
    } else {
      assert EscapeAll(s) + tail == EscapeChar(s[0]) + (EscapeAll(s[1..]) + tail);
      DecodeAfterEscaped(s[1..], tail);
      DecodeEscapedChar(s[0], EscapeAll(s[1..]) + tail);
      PrependTwice([s[0]], s[1..], Decoded(tail));
      assert [s[0]] + s[1..] == s;
    }
  }

  /** Three escapes keep their backslash; any unknown escape, and a last lone backslash, refuse the value. */
  lemma EscapesExactly(s: string, c: char, tail: string)
    ensures Decoded(EscapeAll(s) + "\\").None?
    ensures c !in "sntr\\\"$`" ==> Decoded(EscapeAll(s) + ("\\" + [c] + tail)).None?
    ensures c in "\"$`" ==> Decoded(EscapeAll(s) + ("\\" + [c] + tail)) == Prepend(s + "\\" + [c], Decoded(tail))
  {
    DecodeAfterEscaped(s, "\\");
    DecodeAfterEscaped(s, "\\" + [c] + tail);
    var known := "sntr\\\"$`";
    assert c in known <==> c in "sntr\\" || c in "\"$`";
    if c in "\"$`" {
      assert c == '\"' || c == '$' || c == '`';
      DecodeEscape(c, tail);
      assert Escape(c).value == "\\" + [c];
      PrependTwice(s, "\\" + [c], Decoded(tail));
      assert s + ("\\" + [c]) == s + "\\" + [c];
    } else if c !in known {
      UnknownEscape(c, tail);
    }
  }

  lemma UnknownEscape(c: char, tail: string)
    requires c !in "sntr\\\"$`"
    ensures Decoded("\\" + [c] + tail).None?
  {
    var known := "sntr\\\"$`";
    assert known[0] == 's' && known[1] == 'n' && known[2] == 't' && known[3] == 'r';
    assert known[4] == '\\' && known[5] == '\"' && known[6] == '$' && known[7] == '`';
    assert Escape(c).None?;
  }
}
