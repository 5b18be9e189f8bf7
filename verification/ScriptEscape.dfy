/** Escaping of RouterOS script strings (internal/rosfmt/escape.go). */
module ScriptEscape {
  import opened Sequences
  import opened Wrappers

  /** The replacement of one character: the table of the strings.Replacer. */
  function EscapeChar(c: char): (e: string)
    ensures e != ""
  {
    match c
    case '\\' => "\\\\"
    case '"' => "\\\""
    case '$' => "\\$"
    case '\n' => "\\n"
    case '\r' => "\\r"
    case _ => [c]
  }

  function EscapeScriptString(s: string): string {
    if s == "" then "" else EscapeChar(s[0]) + EscapeScriptString(s[1..])
  }

  function QuoteScriptString(s: string): string {
    "\"" + EscapeScriptString(s) + "\""
  }

  // ---------------------------------------------------------------- how a script reads it

  /** The character an escape letter stands for. */
  function Meaning(c: char): Option<char> {
    match c
    case '\\' => Some('\\')
    case '"' => Some('"')
    case '$' => Some('$')
    case 'n' => Some('\n')
    case 'r' => Some('\r')
    case _ => None
  }

  function Then(c: char, later: Option<string>): Option<string> {
    if later.Some? then Some([c] + later.value) else None
  }

  /** One pass from left to right; nothing for a backslash that escapes nothing. */
  function Unescape(t: string): Option<string> {
    if t == "" then Some("")
    else if t[0] != '\\' then Then(t[0], Unescape(t[1..]))
    else if |t| == 1 || Meaning(t[1]).None? then None
    else Then(Meaning(t[1]).value, Unescape(t[2..]))
  }

  predicate Special(c: char) {
    c == '\\' || c == '"' || c == '$' || c == '\n' || c == '\r'
  }

  /** No special character stands outside an escape. */
  predicate NothingBare(t: string) {
    if t == "" then true
    else if t[0] != '\\' then !Special(t[0]) && NothingBare(t[1..])
    else |t| >= 2 && NothingBare(t[2..])
  }

  /** The position of the first quote that is not escaped, scanning from `i`; the length if there is none. */
  function ClosingQuote(t: string, i: nat): (j: nat)
    requires i <= |t|
    ensures i <= j <= |t|
    decreases |t| - i
  {
    if i == |t| || t[i] == '"' then i
    else if t[i] == '\\' && i + 1 < |t| then ClosingQuote(t, i + 2)
    else ClosingQuote(t, i + 1)
  }

  // ---------------------------------------------------------------- escaping and reading back

  lemma HeadIsRead(c: char, t: string)
    ensures Unescape(EscapeChar(c) + t) == Then(c, Unescape(t))
    ensures NothingBare(EscapeChar(c) + t) == NothingBare(t)
  {
    var e := EscapeChar(c);
    assert (e + t)[|e|..] == t;
  }

  /** Reading an escaped string gives the string back, whatever it contains. */
  lemma {:induction false} EscapeRoundTrip(s: string)
    ensures Unescape(EscapeScriptString(s)) == Some(s)
  {
    if s != "" {
      EscapeRoundTrip(s[1..]);
      HeadIsRead(s[0], EscapeScriptString(s[1..]));
      assert [s[0]] + s[1..] == s;
    }
  }

  /** Different strings are escaped differently. */
  lemma EscapeInjective(s: string, t: string)
    ensures EscapeScriptString(s) == EscapeScriptString(t) <==> s == t
  {
    EscapeRoundTrip(s);
    EscapeRoundTrip(t);
  }

  lemma {:induction false} EscapeLeavesNothingBare(s: string)
    ensures NothingBare(EscapeScriptString(s))
  {
    if s != "" {
      EscapeLeavesNothingBare(s[1..]);
      HeadIsRead(s[0], EscapeScriptString(s[1..]));
    }
  }

  /** A text that can be read is the escape of what it reads as exactly when it has no bare special character. */
  lemma {:induction false} EscapedTexts(t: string)
    requires Unescape(t).Some?
    ensures EscapeScriptString(Unescape(t).value) == t <==> NothingBare(t)
  {
    var s := Unescape(t).value;
    if NothingBare(t) {
      UnescapeRoundTrip(t);
    } else {
      EscapeLeavesNothingBare(s);
    }
  }

  lemma {:induction false} UnescapeRoundTrip(t: string)
    requires Unescape(t).Some? && NothingBare(t)
    ensures EscapeScriptString(Unescape(t).value) == t
  {
    if t != "" {
      var n := if t[0] == '\\' then 2 else 1;
      UnescapeRoundTrip(t[n..]);
      var s := Unescape(t).value;
      assert s[1..] == Unescape(t[n..]).value;
      assert EscapeChar(s[0]) == t[..n];
      assert t == t[..n] + t[n..];
    }
  }

  lemma {:induction false} EscapeHasNoBreaks(s: string)
    ensures '\n' !in EscapeScriptString(s) && '\r' !in EscapeScriptString(s)
  {
    if s != "" {
      EscapeHasNoBreaks(s[1..]);
    }
  }

  // ---------------------------------------------------------------- the closing quote

  lemma ScanOverChar(t: string, i: nat, c: char)
    requires i + |EscapeChar(c)| <= |t| && t[i..i + |EscapeChar(c)|] == EscapeChar(c)
    ensures ClosingQuote(t, i) == ClosingQuote(t, i + |EscapeChar(c)|)
  {
    assert t[i] == EscapeChar(c)[0];
  }

  lemma {:induction false} ScanOver(t: string, i: nat, s: string, k: nat)
    requires i <= k <= |t| && t[i..k] == EscapeScriptString(s)
    ensures ClosingQuote(t, i) == ClosingQuote(t, k)
    decreases |s|
  {
    if s != "" {
      var e, later := EscapeChar(s[0]), EscapeScriptString(s[1..]);
      assert k == i + |e| + |later|;
      SlicesOfTwo(t, i, e, later);
      ScanOverChar(t, i, s[0]);
      ScanOver(t, i + |e|, s[1..], k);
    }
  }

  /** A scanner that starts after the opening quote stops at the closing one, whatever the text and whatever follows. */
  lemma QuoteCloses(s: string, rest: string)
    ensures ClosingQuote(QuoteScriptString(s) + rest, 1) == |QuoteScriptString(s)| - 1
    ensures Unescape((QuoteScriptString(s) + rest)[1..|QuoteScriptString(s)| - 1]) == Some(s)
  {
    var e := EscapeScriptString(s);
    var t := QuoteScriptString(s) + rest;
    assert t[1..1 + |e|] == e;
    assert t[1 + |e|] == '"';
    ScanOver(t, 1, s, 1 + |e|);
    EscapeRoundTrip(s);
  }
}
