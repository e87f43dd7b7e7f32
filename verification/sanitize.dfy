/** The server's two text clean-ups: `cleanResponse`, applied to a whole
    chat answer before it is stored and sent as `fullResponse`, and the
    title clean-up chain applied to a generated title. */
module Sanitize {
  import opened Text

  // ---------------------------------------------------------------------
  // cleanResponse: .replace(/<\|[^|]+\|>/g, '').replace(/<\/s>/g, '')
  //                .replace(/<s>/g, '').trim()
  // ---------------------------------------------------------------------

  /** A whole match of `<\|[^|]+\|>`: `<|`, a non-empty run without `|`,
      then `|>`. */
  predicate IsMarker(t: string)
  {
    && |t| >= 5
    && t[0] == '<' && t[1] == '|'
    && t[|t| - 2] == '|' && t[|t| - 1] == '>'
    && forall i :: 2 <= i < |t| - 2 ==> t[i] != '|'
  }

  /** The number of leading characters of `s` other than `|`. */
  function NonBarRun(s: string): (n: nat)
    ensures n <= |s|
    ensures forall i :: 0 <= i < n ==> s[i] != '|'
    ensures n == |s| || s[n] == '|'
  {
    if s != [] && s[0] != '|' then 1 + NonBarRun(s[1..]) else 0
  }

  /** The length of the marker that starts `s`, or 0 when none does. */
  function MarkerLength(s: string): (n: nat)
    ensures n == 0 || (n <= |s| && IsMarker(s[..n]))
  {
    if |s| >= 2 && s[0] == '<' && s[1] == '|' then
      var k := NonBarRun(s[2..]);
      if 1 <= k && k + 3 < |s| && s[k + 3] == '>' then k + 4 else 0
    else 0
  }

  /** The regular expression matches at the start of `s` exactly when a
      marker is there, and then only one length can match. */
  lemma MarkerLengthExact(s: string, m: nat)
    requires m <= |s| && IsMarker(s[..m])
    ensures MarkerLength(s) == m
  {
    var k := NonBarRun(s[2..]);
    assert s[..m][m - 2] == s[m - 2] == '|';
    assert forall i :: 2 <= i < m - 2 ==> s[..m][i] == s[i] && s[2..][i - 2] == s[i];
  }

  /** The global replace of every marker by nothing, scanning left to right
      and resuming after each removed marker. */
  function StripMarkers(s: string): (r: string)
    ensures |r| <= |s|
  {
    if s == [] then []
    else
      var n := MarkerLength(s);
      if n > 0 then StripMarkers(s[n..]) else [s[0]] + StripMarkers(s[1..])
  }

  /** The global replace of every occurrence of the literal `pat` by nothing. */
  function RemoveAll(s: string, pat: string): (r: string)
    requires pat != []
    ensures |r| <= |s|
  {
    if s == [] then []
    else if StartsWith(s, pat) then RemoveAll(s[|pat|..], pat)
    else [s[0]] + RemoveAll(s[1..], pat)
  }

  /** The three removals of `cleanResponse`, before the trim. */
  function Unmark(text: string): (r: string)
    ensures |r| <= |text|
  {
    RemoveAll(RemoveAll(StripMarkers(text), "</s>"), "<s>")
  }

  /** `cleanResponse`: no longer than its input and never starting or ending
      with a space. */
  function CleanResponse(text: string): (r: string)
    ensures |r| <= |text|
    ensures r == [] || (!IsSpace(r[0]) && !IsSpace(r[|r| - 1]))
  {
    TrimShape(Unmark(text));
    Trim(Unmark(text))
  }

  lemma {:induction false} StripMarkersWithoutAngle(s: string)
    requires '<' !in s
    ensures StripMarkers(s) == s
  {
    if s != [] {
      assert s[0] != '<';
      assert '<' !in s[1..] by { assert forall c :: c in s[1..] ==> c in s; }
      StripMarkersWithoutAngle(s[1..]);
    }
  }

  lemma {:induction false} RemoveAllWithoutFirst(s: string, pat: string)
    requires pat != [] && pat[0] !in s
    ensures RemoveAll(s, pat) == s
  {
    if s != [] {
      assert s[0] != pat[0];
      assert pat[0] !in s[1..] by { assert forall c :: c in s[1..] ==> c in s; }
      RemoveAllWithoutFirst(s[1..], pat);
    }
  }

  /** Text without `<` holds no marker: cleaning it is plain trimming. */
  lemma CleanResponseWithoutAngle(text: string)
    requires '<' !in text
    ensures CleanResponse(text) == Trim(text)
  {
    StripMarkersWithoutAngle(text);
    RemoveAllWithoutFirst(text, "</s>");
    RemoveAllWithoutFirst(text, "<s>");
  }

  /** Text before the first `<` passes through the marker removal as is. */
  lemma {:induction false} StripMarkersPlainPrefix(p: string, q: string)
    requires '<' !in p
    ensures StripMarkers(p + q) == p + StripMarkers(q)
  {
    if p != [] {
      assert (p + q)[0] == p[0] != '<';
      assert (p + q)[1..] == p[1..] + q;
      assert '<' !in p[1..] by { assert forall c :: c in p[1..] ==> c in p; }
      StripMarkersPlainPrefix(p[1..], q);
    } else {
      assert p + q == q;
    }
  }

  /** A marker between two pieces of text without `<` (for instance the
      fragments `Hel` and `lo<|end|>`) is removed and the pieces are joined. */
  lemma CleanResponseDropsMarker(a: string, inner: string, b: string)
    requires '<' !in a && '<' !in b
    requires inner != [] && '|' !in inner
    ensures CleanResponse(a + "<|" + inner + "|>" + b) == Trim(a + b)
  {
    var m := "<|" + inner + "|>";
    assert IsMarker(m) by {
      forall i | 2 <= i < |m| - 2 ensures m[i] != '|' {
        assert m[i] == inner[i - 2];
      }
    }
    assert (m + b)[..|m|] == m;
    MarkerLengthExact(m + b, |m|);
    assert (m + b)[|m|..] == b;
    StripMarkersWithoutAngle(b);
    assert StripMarkers(m + b) == b;
    assert a + "<|" + inner + "|>" + b == a + (m + b);
    StripMarkersPlainPrefix(a, m + b);
    assert '<' !in a + b;
    RemoveAllWithoutFirst(a + b, "</s>");
    RemoveAllWithoutFirst(a + b, "<s>");
  }

  /** `<||>` has an empty inner run, so it is not a marker and survives. */
  lemma CleanResponseKeepsEmptyMarker()
    ensures CleanResponse("<||>") == "<||>"
  {
    StripMarkersKeepsEmptyMarker();
    CleanResponseOfUnmarked("<||>");
  }

  lemma StripMarkersKeepsEmptyMarker()
    ensures StripMarkers("<||>") == "<||>"
  {
    var s := "<||>";
    assert MarkerLength(s) == 0 by {
      assert s[2..][0] == '|';
    }
    var t := s[1..];
    assert t[0] == '|' && t[1] == '|' && t[2] == '>' && |t| == 3;
    assert '<' !in t;
    StripMarkersWithoutAngle(t);
    assert [s[0]] + t == s;
  }

  /** Text that holds no marker, no `/` and no `s`, and has no space at
      either end, comes out of cleaning unchanged. */
  lemma CleanResponseOfUnmarked(x: string)
    requires StripMarkers(x) == x && '/' !in x && 's' !in x
    requires x == [] || (!IsSpace(x[0]) && !IsSpace(x[|x| - 1]))
    ensures CleanResponse(x) == x
  {
    RemoveAllWithout(x, "</s>", 1);
    RemoveAllWithout(x, "<s>", 1);
    TrimOfTrimmed(x);
  }

  /** Text without `|` holds no marker. */
  lemma {:induction false} StripMarkersWithoutBar(s: string)
    requires '|' !in s
    ensures StripMarkers(s) == s
  {
    if s != [] {
      assert MarkerLength(s) == 0 by {
        if |s| >= 2 { assert s[1] in s; }
      }
      assert '|' !in s[1..] by { assert forall c :: c in s[1..] ==> c in s; }
      StripMarkersWithoutBar(s[1..]);
    }
  }

  /** A pattern with a character the text lacks is never found in it. */
  lemma {:induction false} RemoveAllWithout(s: string, pat: string, i: nat)
    requires i < |pat| && pat[i] !in s
    ensures RemoveAll(s, pat) == s
  {
    if s != [] {
      assert !StartsWith(s, pat) by {
        if |pat| <= |s| {
          assert s[i] in s;
          assert s[..|pat|][i] != pat[i];
        }
      }
      assert pat[i] !in s[1..] by { assert forall c :: c in s[1..] ==> c in s; }
      RemoveAllWithout(s[1..], pat, i);
    }
  }

  lemma RemoveStartTagNested()
    ensures RemoveAll("<<s>s>", "<s>") == "<s>"
  {
    var s := "<<s>s>";
    assert !StartsWith(s, "<s>") by { assert s[..3][1] == '<'; }
    assert s[1..] == "<s>s>";
    assert StartsWith(s[1..], "<s>") by { assert s[1..][..3] == "<s>"; }
    assert s[1..][3..] == "s>";
    RemoveAllWithout("s>", "<s>", 0);
  }

  /** Without `|` and `/`, only the `<s>` removal can change the text. */
  lemma UnmarkWithoutBarOrSlash(x: string)
    requires '|' !in x && '/' !in x
    ensures Unmark(x) == RemoveAll(x, "<s>")
  {
    StripMarkersWithoutBar(x);
    RemoveAllWithout(x, "</s>", 1);
  }

  lemma UnmarkNested()
    ensures Unmark("<<s>s>") == "<s>"
  {
    UnmarkWithoutBarOrSlash("<<s>s>");
    RemoveStartTagNested();
  }

  lemma UnmarkStart()
    ensures Unmark("<s>") == ""
  {
    UnmarkWithoutBarOrSlash("<s>");
    var s := "<s>";
    assert StartsWith(s, "<s>") && s[3..] == [];
  }

  /** Cleaning is not idempotent: removing `<s>` from `<<s>s>` forms a new
      `<s>`, which a second cleaning removes. */
  lemma CleanResponseNotIdempotent()
    ensures CleanResponse("<<s>s>") == "<s>"
    ensures CleanResponse(CleanResponse("<<s>s>")) == ""
  {
    var once := "<<s>s>";
    UnmarkNested();
    CleanResponseOfTrimmed(once);
    UnmarkStart();
    CleanResponseOfTrimmed("<s>");
  }

  /** When the removals leave nothing to trim, cleaning is the removals. */
  lemma CleanResponseOfTrimmed(text: string)
    requires var u := Unmark(text); u == [] || (!IsSpace(u[0]) && !IsSpace(u[|u| - 1]))
    ensures CleanResponse(text) == Unmark(text)
  {
    TrimOfTrimmed(Unmark(text));
  }

  // ---------------------------------------------------------------------
  // Title clean-up: .trim().replace(/^["']|["']$/g, '')
  //                 .replace(/[.!?]$/g, '').substring(0, 50)
  // ---------------------------------------------------------------------

  predicate IsQuote(c: char)
  {
    c == '"' || c == '\''
  }

  predicate IsEndPunct(c: char)
  {
    c == '.' || c == '!' || c == '?'
  }

  const TitleMaxLength: nat := 50

  /** `.replace(/^["']|["']$/g, '')`: a quote in the first position and a
      quote in the last position are removed independently. A lone quote is
      matched once, by the first alternative. */
  function StripQuotes(s: string): string
  {
    var a := if |s| > 0 && IsQuote(s[0]) then 1 else 0;
    var b := if |s| > a && IsQuote(s[|s| - 1]) then |s| - 1 else |s|;
    s[a..b]
  }

  /** `.replace(/[.!?]$/g, '')`: at most one final punctuation mark. */
  function StripEndPunct(s: string): string
  {
    if |s| > 0 && IsEndPunct(s[|s| - 1]) then s[..|s| - 1] else s
  }

  /** `.substring(0, n)`. */
  function Substring(s: string, n: nat): string
  {
    if |s| <= n then s else s[..n]
  }

  /** The offset of the first character kept from the trimmed title: 1 when
      it starts with a quote. */
  function QuoteOffset(t: string): nat
  {
    if |t| > 0 && IsQuote(t[0]) then 1 else 0
  }

  /** The steps of the title clean-up that follow the trim. */
  function ShapeTitle(t: string): (r: string)
    ensures |r| <= TitleMaxLength
  {
    Substring(StripEndPunct(StripQuotes(t)), TitleMaxLength)
  }

  /** The title clean-up chain; never longer than 50 characters. */
  function CleanTitle(raw: string): (r: string)
    ensures |r| <= TitleMaxLength
  {
    ShapeTitle(Trim(raw))
  }

  /** The cleaned title is a prefix of the trimmed text after its leading
      quote, if any; when it is shorter than 50, what was cut at the end is
      at most a punctuation mark followed by a quote. */
  lemma CleanTitleShape(raw: string)
    ensures var r, t := CleanTitle(raw), Trim(raw); var a := QuoteOffset(t);
      && a + |r| <= |t| && r == t[a..a + |r|]
      && (|r| < TitleMaxLength ==> IsQuotePunctTail(t[a + |r|..]))
  {
    ShapeTitleShape(Trim(raw));
  }

  /** Dropping a final mark from a slice of `t` leaves a shorter slice. */
  lemma StripEndPunctSlice(t: string, a: nat, b: nat)
    requires a <= b <= |t|
    ensures var c := if b > a && IsEndPunct(t[b - 1]) then b - 1 else b;
      StripEndPunct(t[a..b]) == t[a..c]
  {
    var u := t[a..b];
    if b > a {
      assert u[|u| - 1] == t[b - 1];
      assert u[..|u| - 1] == t[a..b - 1];
    }
  }

  lemma ShapeTitleShape(t: string)
    ensures var r, a := ShapeTitle(t), QuoteOffset(t);
      && a + |r| <= |t| && r == t[a..a + |r|]
      && (|r| < TitleMaxLength ==> IsQuotePunctTail(t[a + |r|..]))
  {
    var a := QuoteOffset(t);
    var b := if |t| > a && IsQuote(t[|t| - 1]) then |t| - 1 else |t|;
    var c := if b > a && IsEndPunct(t[b - 1]) then b - 1 else b;
    assert StripQuotes(t) == t[a..b];
    StripEndPunctSlice(t, a, b);
    var v := t[a..c];
    var r := ShapeTitle(t);
    assert r == Substring(v, TitleMaxLength);
    assert r == t[a..a + |r|] by {
      if |v| > TitleMaxLength { assert v[..TitleMaxLength] == t[a..a + TitleMaxLength]; }
    }
    if |r| < TitleMaxLength {
      var d := t[c..];
      assert |d| == |t| - c;
      if c < b {
        assert d[0] == t[b - 1];
      }
      if b < |t| {
        assert d[|d| - 1] == t[|t| - 1];
      }
    }
  }

  /** What the quote and punctuation steps may cut from the end: nothing, a
      quote, a mark, or a mark followed by a quote. */
  predicate IsQuotePunctTail(d: string)
  {
    || d == []
    || (|d| == 1 && (IsQuote(d[0]) || IsEndPunct(d[0])))
    || (|d| == 2 && IsEndPunct(d[0]) && IsQuote(d[1]))
  }

  /** A trimmed title with nothing to strip and at most 50 characters comes
      back unchanged. */
  lemma CleanTitleKeepsPlainTitle(raw: string)
    requires var t := Trim(raw);
      |t| <= TitleMaxLength
      && (|t| > 0 ==> !IsQuote(t[0]) && !IsQuote(t[|t| - 1]) && !IsEndPunct(t[|t| - 1]))
    ensures CleanTitle(raw) == Trim(raw)
  {
  }

  /** A title of at most 50 characters followed by one final mark loses
      that mark and nothing else (`Greeting Exchange.` gives
      `Greeting Exchange`, `Hi!!` gives `Hi!`). */
  lemma CleanTitleDropsFinalMark(raw: string, body: string, mark: char)
    requires Trim(raw) == body + [mark]
    requires IsEndPunct(mark)
    requires 0 < |body| <= TitleMaxLength
    requires !IsQuote(body[0]) && !IsQuote(body[|body| - 1])
    ensures CleanTitle(raw) == body
  {
    var t := body + [mark];
    assert t[..|t| - 1] == body;
  }

  /** A title between a pair of quotes loses both quotes (`"Hello"` gives
      `Hello`). */
  lemma CleanTitleDropsQuotePair(raw: string, body: string, open: char, close: char)
    requires Trim(raw) == [open] + body + [close]
    requires IsQuote(open) && IsQuote(close)
    requires |body| <= TitleMaxLength
    requires body != [] ==> !IsEndPunct(body[|body| - 1])
    ensures CleanTitle(raw) == body
  {
    var t := [open] + body + [close];
    assert t[1..|t| - 1] == body;
  }

  /** A lone quote is removed entirely. */
  lemma CleanTitleOfLoneQuote(raw: string, q: char)
    requires Trim(raw) == [q] && IsQuote(q)
    ensures CleanTitle(raw) == ""
  {
  }
}
