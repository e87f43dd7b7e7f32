/** The escaper for the copy buttons of code blocks. The decoded text of a
    code block is escaped and placed between backticks in the button's
    `onclick` handler, so it is read back as a JavaScript template literal
    (ECMAScript 2024, section 13.2.8, template literals, and section
    12.9.6, their cooked values). `Cook` below is that reading. */
module Escape {
  import opened Protocol

  /** The number of occurrences of `c` in `s`. */
  function Count(s: string, c: char): nat
  {
    if s == [] then 0 else (if s[0] == c then 1 else 0) + Count(s[1..], c)
  }

  /** `s.replace(/c/g, '\\' + c)`: every `c` prefixed with a backslash. */
  function PrefixAll(s: string, c: char): (r: string)
    ensures |r| == |s| + Count(s, c)
  {
    if s == [] then [] else (if s[0] == c then ['\\', c] else [s[0]]) + PrefixAll(s[1..], c)
  }

  lemma {:induction false} CountAppend(a: string, b: string, c: char)
    ensures Count(a + b, c) == Count(a, c) + Count(b, c)
  {
    if a == [] {
      assert a + b == b;
    } else {
      assert (a + b)[0] == a[0] && (a + b)[1..] == a[1..] + b;
      CountAppend(a[1..], b, c);
    }
  }

  lemma {:induction false} PrefixAllAppend(a: string, b: string, c: char)
    ensures PrefixAll(a + b, c) == PrefixAll(a, c) + PrefixAll(b, c)
  {
    if a == [] {
      assert a + b == b;
    } else {
      assert (a + b)[0] == a[0] && (a + b)[1..] == a[1..] + b;
      PrefixAllAppend(a[1..], b, c);
    }
  }

  /** Prefixing one character leaves the count of another as it was. */
  lemma {:induction false} PrefixAllKeepsCount(s: string, c: char, d: char)
    requires c != d && d != '\\'
    ensures Count(PrefixAll(s, c), d) == Count(s, d)
  {
    if s != [] {
      var head := if s[0] == c then ['\\', c] else [s[0]];
      CountAppend(head, PrefixAll(s[1..], c), d);
      PrefixAllKeepsCount(s[1..], c, d);
      assert head == [head[0]] + head[1..];
      if s[0] == c {
        assert Count(head, d) == 0 by {
          assert head[1..][1..] == [];
        }
      } else {
        assert head[1..] == [];
      }
    }
  }

  /** `escapeForAttribute` as written: backticks, then dollar signs, are
      prefixed with a backslash; nothing else is touched. */
  function EscapeForAttribute(str: string): (r: string)
    ensures |r| == |str| + Count(str, '`') + Count(str, '$')
  {
    PrefixAllKeepsCount(str, '`', '$');
    PrefixAll(PrefixAll(str, '`'), '$')
  }

  /** How `EscapeForAttribute` writes one character. */
  function AttributeUnit(c: char): string
  {
    if c == '`' || c == '$' then ['\\', c] else [c]
  }

  /** The same escaping, written character by character. */
  function EscapeEach(s: string): string
  {
    if s == [] then [] else AttributeUnit(s[0]) + EscapeEach(s[1..])
  }

  /** The two passes together escape each character on its own: every
      backtick and dollar sign gets one backslash in front, every other
      character is kept, in order. */
  lemma {:induction false} EscapeForAttributeCharwise(s: string)
    ensures EscapeForAttribute(s) == EscapeEach(s)
  {
    if s != [] {
      EscapeForAttributeCharwise(s[1..]);
      var c := s[0];
      assert s == [c] + s[1..];
      PrefixAllAppend([c], s[1..], '`');
      var once := PrefixAll([c], '`');
      assert [c][1..] == [];
      PrefixAllAppend(once, PrefixAll(s[1..], '`'), '$');
      if c == '`' {
        assert once == ['\\'] + ['`'];
        PrefixAllAppend(['\\'], ['`'], '$');
        assert ['`'][1..] == [] && ['\\'][1..] == [];
      } else {
        assert [c][1..] == [];
      }
    }
  }

  // ---------------------------------------------------------------------
  // Reading the escaped text back as a template literal
  // ---------------------------------------------------------------------

  function Prepend(c: char, rest: Option<string>): Option<string>
  {
    if rest.Some? then Some([c] + rest.value) else None
  }

  predicate IsDecimalDigit(c: char)
  {
    '0' <= c <= '9'
  }

  /** The single escape characters and what they stand for. */
  predicate IsSingleEscape(c: char)
  {
    c in "'\"\\bfnrtv"
  }

  function SingleEscapeValue(c: char): char
    requires IsSingleEscape(c)
  {
    match c
    case 'b' => '\U{8}'
    case 'f' => '\U{C}'
    case 'n' => '\n'
    case 'r' => '\r'
    case 't' => '\t'
    case 'v' => '\U{B}'
    case _ => c
  }

  /** The cooked value of the text between the backticks of an untagged
      template: `None` when that text is not one whole template body (an
      unescaped backtick ends it early, `${` opens a substitution, a lone
      final backslash) or holds an escape this model does not decode
      (`\x`, `\u` and decimal escapes other than `\0`). Escaped line
      terminators vanish; CR and CR LF read as LF. */
  function Cook(t: string): Option<string>
    decreases |t|
  {
    if t == [] then Some([])
    else if t[0] == '`' then None
    else if t[0] == '$' && |t| > 1 && t[1] == '{' then None
    else if t[0] == '\r' then
      if |t| > 1 && t[1] == '\n' then Prepend('\n', Cook(t[2..])) else Prepend('\n', Cook(t[1..]))
    else if t[0] == '\\' then
      if |t| == 1 then None
      else
        var e := t[1];
        if e == '\r' then
          if |t| > 2 && t[2] == '\n' then Cook(t[3..]) else Cook(t[2..])
        else if e == '\n' || e == '\U{2028}' || e == '\U{2029}' then Cook(t[2..])
        else if IsSingleEscape(e) then Prepend(SingleEscapeValue(e), Cook(t[2..]))
        else if e == '0' && !(|t| > 2 && IsDecimalDigit(t[2])) then Prepend('\0', Cook(t[2..]))
        else if IsDecimalDigit(e) || e == 'x' || e == 'u' then None
        else Prepend(e, Cook(t[2..]))
    else Prepend(t[0], Cook(t[1..]))
  }

  /** As written, the escaper does bring text back unchanged as long as it
      holds no backslash and no carriage return. */
  lemma {:induction false} EscapeForAttributeRoundTrip(s: string)
    requires '\\' !in s && '\r' !in s
    ensures Cook(EscapeForAttribute(s)) == Some(s)
  {
    EscapeForAttributeCharwise(s);
    EscapeEachRoundTrip(s);
  }

  lemma {:induction false} EscapeEachRoundTrip(s: string)
    requires '\\' !in s && '\r' !in s
    ensures Cook(EscapeEach(s)) == Some(s)
  {
    if s != [] {
      assert '\\' !in s[1..] && '\r' !in s[1..] by {
        assert forall x :: x in s[1..] ==> x in s;
      }
      EscapeEachRoundTrip(s[1..]);
      CookAttributeUnit(s[0], EscapeEach(s[1..]));
      assert [s[0]] + s[1..] == s;
    }
  }

  /** Reading back one escaped character other than a backslash or a
      carriage return gives that character. */
  lemma CookAttributeUnit(c: char, rest: string)
    requires c != '\\' && c != '\r'
    ensures Cook(AttributeUnit(c) + rest) == Prepend(c, Cook(rest))
  {
    var t := AttributeUnit(c) + rest;
    if c == '`' || c == '$' {
      assert t[0] == '\\' && t[1] == c && t[2..] == rest;
    } else {
      assert t[0] == c && t[1..] == rest;
    }
  }

  /** The text `\n` (a backslash then the letter n) in a code block comes
      back from the copy button as a single line feed. */
  lemma BackslashNCopiedAsNewline()
    ensures EscapeForAttribute("\\n") == "\\n"
    ensures Cook(EscapeForAttribute("\\n")) == Some("\n")
  {
    EscapeForAttributeCharwise("\\n");
    assert "\\n"[1..][1..] == [];
    assert EscapeEach("\\n") == "\\n";
    var t := "\\n";
    assert t[0] == '\\' && t[1] == 'n' && t[2..] == [];
    assert IsSingleEscape('n') && SingleEscapeValue('n') == '\n';
    assert Cook(t) == Prepend('\n', Cook([]));
    assert ['\n'] + [] == "\n";
  }

  /** A backslash before a character with no escape meaning, as in the
      regular expression `\d`, passes the escaper and is dropped when read
      back. */
  lemma BackslashDDropped()
    ensures EscapeForAttribute("\\d") == "\\d"
    ensures Cook(EscapeForAttribute("\\d")) == Some("d")
  {
    EscapeForAttributeCharwise("\\d");
    assert "\\d"[1..][1..] == [];
    assert EscapeEach("\\d") == "\\d";
    var t := "\\d";
    assert t[0] == '\\' && t[1] == 'd' && t[2..] == [];
    assert !IsSingleEscape('d') && !IsDecimalDigit('d');
    assert Cook(t) == Prepend('d', Cook([]));
    assert ['d'] + [] == "d";
  }

  /** A backslash just before a backtick escapes the backslash instead, and
      the backtick then ends the template early. */
  lemma BackslashBacktickBreaksTemplate()
    ensures Cook(EscapeForAttribute("\\`")) == None
  {
    EscapeForAttributeCharwise("\\`");
    assert "\\`"[1..][1..] == [];
    var t := EscapeEach("\\`");
    assert t == "\\\\`";
    assert t[2..] == "`";
  }

  // ---------------------------------------------------------------------
  // The escaper the copy button needs
  // ---------------------------------------------------------------------

  /** How the corrected escaper writes one character: backslash, backtick
      and dollar sign are prefixed with a backslash, and a carriage return
      is written as `\r` so that it is not read back as a line feed. */
  function TemplateUnit(c: char): (u: string)
    ensures 1 <= |u| <= 2
  {
    if c == '\\' || c == '`' || c == '$' then ['\\', c]
    else if c == '\r' then ['\\', 'r']
    else [c]
  }

  /** The corrected escaper. */
  function EscapeForTemplate(s: string): (r: string)
    ensures |s| <= |r| <= 2 * |s|
  {
    if s == [] then [] else TemplateUnit(s[0]) + EscapeForTemplate(s[1..])
  }

  /** Whatever the code block holds, the copy button gets exactly it
      back. */
  lemma {:induction false} EscapeForTemplateRoundTrip(s: string)
    ensures Cook(EscapeForTemplate(s)) == Some(s)
  {
    if s != [] {
      EscapeForTemplateRoundTrip(s[1..]);
      CookTemplateUnit(s[0], EscapeForTemplate(s[1..]));
      assert [s[0]] + s[1..] == s;
    }
  }

  /** Reading back any one escaped character gives that character. */
  lemma CookTemplateUnit(c: char, rest: string)
    ensures Cook(TemplateUnit(c) + rest) == Prepend(c, Cook(rest))
  {
    var t := TemplateUnit(c) + rest;
    if c == '\\' || c == '`' || c == '$' || c == '\r' {
      assert t[0] == '\\' && t[1] == TemplateUnit(c)[1] && t[2..] == rest;
    } else {
      assert t[0] == c && t[1..] == rest;
    }
  }

  /** The two escapers agree on text without backslashes and carriage
      returns. */
  lemma {:induction false} EscapersAgree(s: string)
    requires '\\' !in s && '\r' !in s
    ensures EscapeForTemplate(s) == EscapeForAttribute(s)
  {
    EscapeForAttributeCharwise(s);
    EscapeEachAgrees(s);
  }

  lemma {:induction false} EscapeEachAgrees(s: string)
    requires '\\' !in s && '\r' !in s
    ensures EscapeForTemplate(s) == EscapeEach(s)
  {
    if s != [] {
      assert '\\' !in s[1..] && '\r' !in s[1..] by {
        assert forall x :: x in s[1..] ==> x in s;
      }
      EscapeEachAgrees(s[1..]);
    }
  }
}
