/**
 * `json_escape` and the string reading it is meant to be undone by. The server
 * escapes `"`, `\` and the five control characters backspace, form feed, newline,
 * carriage return and tab, and copies every other character.
 */
module Json {
  import opened Wrappers

  const Backspace: char := '\U{8}'
  const FormFeed: char := '\U{C}'

  /** The characters `json_escape` rewrites. */
  predicate Special(c: char)
  {
    c == '"' || c == '\\' || c == Backspace || c == FormFeed || c == '\n' || c == '\r' || c == '\t'
  }

  predicate IsControlEscaped(c: char)
  {
    c == Backspace || c == FormFeed || c == '\n' || c == '\r' || c == '\t'
  }

  /** One arm of the `switch` in `json_escape`. */
  function EscapeChar(c: char): string
  {
    match c
    case '"' => "\\\""
    case '\\' => "\\\\"
    case '\n' => "\\n"
    case '\r' => "\\r"
    case '\t' => "\\t"
    case _ =>
      if c == Backspace then "\\b"
      else if c == FormFeed then "\\f"
      else [c]
  }

  /** What `json_escape(s)` returns. */
  function Escaped(s: string): string
  {
    if s == [] then "" else EscapeChar(s[0]) + Escaped(s[1..])
  }

  function CountSpecial(s: string): nat
  {
    if s == [] then 0 else (if Special(s[0]) then 1 else 0) + CountSpecial(s[1..])
  }

  /** `json_escape`: appends the escape of each character in turn. */
  method JsonEscape(s: string) returns (result: string)
    ensures result == Escaped(s)
  {
    result := "";
    for i := 0 to |s|
      invariant result == Escaped(s[..i])
    {
      EscapedAppend(s[..i], [s[i]]);
      assert s[..i] + [s[i]] == s[..i + 1];
      result := result + EscapeChar(s[i]);
    }
    assert s[..|s|] == s;
  }

  lemma {:induction false} EscapedAppend(a: string, b: string)
    ensures Escaped(a + b) == Escaped(a) + Escaped(b)
  {
    if a != [] {
      EscapedAppend(a[1..], b);
      assert (a + b)[0] == a[0] && (a + b)[1..] == a[1..] + b;
      assert Escaped(a + b) == EscapeChar(a[0]) + Escaped(a[1..] + b);
    } else {
      assert a + b == b;
    }
  }

  /** The output is longer than the input by one character per special character. */
  lemma {:induction false} EscapedLength(s: string)
    ensures |Escaped(s)| == |s| + CountSpecial(s)
  {
    if s != [] {
      EscapedLength(s[1..]);
    }
  }

  /** No raw backspace, form feed, newline, carriage return or tab survives escaping. */
  lemma {:induction false} EscapedHasNoControl(s: string)
    ensures forall i :: 0 <= i < |Escaped(s)| ==> !IsControlEscaped(Escaped(s)[i])
  {
    if s != [] {
      EscapedHasNoControl(s[1..]);
      var e := EscapeChar(s[0]);
      forall i | 0 <= i < |Escaped(s)|
        ensures !IsControlEscaped(Escaped(s)[i])
      {
        if i >= |e| {
          assert Escaped(s)[i] == Escaped(s[1..])[i - |e|];
        }
      }
    }
  }

  /** A string with no special character is its own escape. */
  lemma {:induction false} EscapedPlain(s: string)
    requires forall i :: 0 <= i < |s| ==> !Special(s[i])
    ensures Escaped(s) == s
  {
    if s != [] {
      EscapedPlain(s[1..]);
      assert s == [s[0]] + s[1..];
    }
  }

  /** The character a JSON reader puts for `\c`. */
  function UnescapeChar(c: char): char
  {
    match c
    case 'b' => Backspace
    case 'f' => FormFeed
    case 'n' => '\n'
    case 'r' => '\r'
    case 't' => '\t'
    case _ => c
  }

  /**
   * Reads the contents of a JSON string whose opening quote has been consumed:
   * characters up to the first unescaped `"`, with `\c` pairs decoded; returns
   * the decoded text and what follows the closing quote, or `None` when the
   * string is not terminated.
   */
  function ReadString(s: string): (r: Option<(string, string)>)
    ensures r.Some? ==> |r.value.1| < |s|
    decreases |s|
  {
    if s == [] then None
    else if s[0] == '"' then Some(("", s[1..]))
    else if s[0] == '\\' then
      if |s| < 2 then None
      else match ReadString(s[2..])
        case None => None
        case Some(p) => Some(([UnescapeChar(s[1])] + p.0, p.1))
    else match ReadString(s[1..])
      case None => None
      case Some(p) => Some(([s[0]] + p.0, p.1))
  }

  /** Escaping then reading back up to the closing quote gives the original text. */
  lemma {:induction false} EscapedRoundTrip(s: string, rest: string)
    ensures ReadString(Escaped(s) + "\"" + rest) == Some((s, rest))
  {
    if s == [] {
      assert Escaped(s) + "\"" + rest == "\"" + rest;
    } else {
      EscapedRoundTrip(s[1..], rest);
      var tail := Escaped(s[1..]) + "\"" + rest;
      var c := s[0];
      assert Escaped(s) == EscapeChar(c) + Escaped(s[1..]);
      Regroup(EscapeChar(c), Escaped(s[1..]), "\"", rest);
      if Special(c) {
        var x := EscapePair(c);
        ReadEscapePair(x, tail);
      } else {
        ReadPlainChar(c, tail);
      }
      assert s == [c] + s[1..];
    }
  }

  lemma Regroup(a: string, b: string, q: string, r: string)
    ensures a + b + q + r == a + (b + q + r)
  {
  }

  /** A special character is written as a backslash and the character that reads back as it. */
  lemma EscapePair(c: char) returns (x: char)
    requires Special(c)
    ensures EscapeChar(c) == ['\\', x] && UnescapeChar(x) == c
  {
    x := EscapeChar(c)[1];
  }

  lemma ReadEscapePair(x: char, tail: string)
    ensures ReadString(['\\', x] + tail) ==
      match ReadString(tail)
      case None => None
      case Some(p) => Some(([UnescapeChar(x)] + p.0, p.1))
  {
    assert (['\\', x] + tail)[2..] == tail;
  }

  lemma ReadPlainChar(c: char, tail: string)
    requires c != '"' && c != '\\'
    ensures ReadString([c] + tail) ==
      match ReadString(tail)
      case None => None
      case Some(p) => Some(([c] + p.0, p.1))
  {
    assert ([c] + tail)[1..] == tail;
  }

  /** Has neither a quote nor a backslash: can be written between quotes without escaping. */
  predicate Plain(s: string)
  {
    forall i :: 0 <= i < |s| ==> s[i] != '"' && s[i] != '\\'
  }

  /** A plain string written unescaped still reads back as itself. */
  lemma {:induction false} PlainRoundTrip(s: string, rest: string)
    requires Plain(s)
    ensures ReadString(s + "\"" + rest) == Some((s, rest))
  {
    if s == [] {
      assert s + "\"" + rest == "\"" + rest;
    } else {
      PlainRoundTrip(s[1..], rest);
      assert s + "\"" + rest == [s[0]] + (s[1..] + "\"" + rest);
      ReadPlainChar(s[0], s[1..] + "\"" + rest);
      assert s == [s[0]] + s[1..];
    }
  }
}
