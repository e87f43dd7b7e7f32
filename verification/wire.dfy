/** How the client reads the server-sent event stream: each chunk it reads
    is split on `\n`, lines starting with `data: ` keep the text after that
    prefix, and that text is parsed as JSON. Parsing is a parameter of the
    model; a failed parse is `None` and the line is skipped. */
module Wire {
  import opened Text
  import opened Protocol

  /** `s.split('\n')`: never empty, and no piece holds a `\n`. */
  function SplitLines(s: string): (lines: seq<string>)
    ensures |lines| >= 1
    ensures forall i :: 0 <= i < |lines| ==> '\n' !in lines[i]
  {
    if s == [] then [""]
    else
      var rest := SplitLines(s[1..]);
      if s[0] == '\n' then [""] + rest
      else [[s[0]] + rest[0]] + rest[1..]
  }

  /** `lines.join('\n')`. */
  function JoinLines(lines: seq<string>): string
    requires |lines| >= 1
  {
    if |lines| == 1 then lines[0] else lines[0] + "\n" + JoinLines(lines[1..])
  }

  /** Splitting loses nothing: joining the lines gives back the chunk. */
  lemma {:induction false} JoinSplitLines(s: string)
    ensures JoinLines(SplitLines(s)) == s
  {
    if s != [] {
      var rest := SplitLines(s[1..]);
      JoinSplitLines(s[1..]);
      if s[0] == '\n' {
        assert ([""] + rest)[1..] == rest;
      } else {
        var lines := [[s[0]] + rest[0]] + rest[1..];
        if |rest| > 1 {
          assert lines[1..] == rest[1..];
          assert JoinLines(rest) == rest[0] + "\n" + JoinLines(rest[1..]);
        }
      }
    }
  }

  /** Splitting is exact: lines free of `\n`, once joined, split back into
      the same lines. */
  lemma {:induction false} SplitJoinLines(lines: seq<string>)
    requires |lines| >= 1
    requires forall i :: 0 <= i < |lines| ==> '\n' !in lines[i]
    ensures SplitLines(JoinLines(lines)) == lines
    decreases |JoinLines(lines)|
  {
    var s := JoinLines(lines);
    var first := lines[0];
    if first == [] {
      if |lines| > 1 {
        assert s == "\n" + JoinLines(lines[1..]);
        assert s[1..] == JoinLines(lines[1..]);
        SplitJoinLines(lines[1..]);
        assert [""] + lines[1..] == lines;
      }
    } else {
      var tail := [first[1..]] + lines[1..];
      assert '\n' !in first[1..] by { assert forall c :: c in first[1..] ==> c in first; }
      assert forall i :: 0 <= i < |tail| ==> '\n' !in tail[i] by {
        forall i | 0 <= i < |tail| ensures '\n' !in tail[i] {
          if i > 0 { assert tail[i] == lines[i]; }
        }
      }
      assert tail[1..] == lines[1..];
      assert JoinLines(tail) == s[1..] by {
        if |lines| > 1 {
          assert s == first + "\n" + JoinLines(lines[1..]);
        }
      }
      SplitJoinLines(tail);
      assert s[0] == first[0] && s[0] != '\n';
      assert [first[0]] + first[1..] == first;
      assert SplitLines(s) == [[first[0]] + tail[0]] + tail[1..];
      assert [first] + lines[1..] == lines;
    }
  }

  /** A chunk holding a line feed splits into at least two lines. */
  lemma {:induction false} SplitLinesNewline(s: string)
    requires '\n' in s
    ensures |SplitLines(s)| >= 2
  {
    if s[0] != '\n' {
      assert '\n' in s[1..] by {
        var k :| 0 <= k < |s| && s[k] == '\n';
        assert s[1..][k - 1] == '\n';
      }
      SplitLinesNewline(s[1..]);
    }
  }

  /** Replacing the first line, then dropping the last one and appending
      more lines, commutes. */
  lemma ReplaceFirstDropLast(h: string, l: seq<string>, more: seq<string>)
    requires |l| >= 2
    ensures var m := [h] + l[1..];
      m[..|m| - 1] + more == [h] + (l[..|l| - 1] + more)[1..]
  {
    var m := [h] + l[1..];
    assert m[..|m| - 1] == [h] + l[1..|l| - 1];
    assert (l[..|l| - 1] + more)[1..] == l[1..|l| - 1] + more;
  }

  /** Text read after a line feed starts a new line: splitting `x + y`,
      where `x` ends with a line feed, gives the lines of `x` without its
      final empty line, then the lines of `y`. */
  lemma {:induction false} SplitLinesAfterNewline(x: string, y: string)
    requires x != [] && x[|x| - 1] == '\n'
    ensures var lx := SplitLines(x);
      lx[|lx| - 1] == "" && SplitLines(x + y) == lx[..|lx| - 1] + SplitLines(y)
  {
    var c := x[0];
    var x' := x[1..];
    assert (x + y)[0] == c && (x + y)[1..] == x' + y;
    if x' == [] {
      assert x + y == [c] + y;
    } else {
      SplitLinesAfterNewline(x', y);
      var lx' := SplitLines(x');
      var ly := SplitLines(y);
      assert x'[|x'| - 1] == '\n';
      var joined := lx'[..|lx'| - 1] + ly;
      assert SplitLines(x' + y) == joined;
      if c != '\n' {
        SplitLinesNewline(x');
        assert joined[0] == lx'[0];
        ReplaceFirstDropLast([c] + lx'[0], lx', ly);
      } else {
        var lx := SplitLines(x);
        assert lx == [""] + lx';
        assert lx[..|lx| - 1] == [""] + lx'[..|lx'| - 1];
      }
    }
  }

  /** The field prefix the client looks for. */
  const DataPrefix: string := "data: "

  predicate IsDataLine(line: string)
  {
    StartsWith(line, DataPrefix)
  }

  /** `line.slice(6)` of every line that `startsWith('data: ')`, in order;
      other lines are ignored. */
  function DataFields(lines: seq<string>): seq<string>
  {
    if lines == [] then []
    else
      var last := lines[|lines| - 1];
      DataFields(lines[..|lines| - 1]) + (if IsDataLine(last) then [last[|DataPrefix|..]] else [])
  }

  /** Extraction works line by line: it distributes over the lines. */
  lemma {:induction false} DataFieldsAppend(a: seq<string>, b: seq<string>)
    ensures DataFields(a + b) == DataFields(a) + DataFields(b)
    decreases |b|
  {
    if b == [] {
      assert a + b == a;
    } else {
      var b' := b[..|b| - 1];
      assert (a + b)[..|a + b| - 1] == a + b';
      DataFieldsAppend(a, b');
    }
  }

  /** The payloads that parse, in order; the others are dropped. */
  function Decoded(fields: seq<string>, parse: string -> Option<Payload>): seq<Payload>
  {
    if fields == [] then []
    else
      var last := parse(fields[|fields| - 1]);
      Decoded(fields[..|fields| - 1], parse) + (if last.Some? then [last.value] else [])
  }

  lemma {:induction false} DecodedAppend(a: seq<string>, b: seq<string>, parse: string -> Option<Payload>)
    ensures Decoded(a + b, parse) == Decoded(a, parse) + Decoded(b, parse)
    decreases |b|
  {
    if b == [] {
      assert a + b == a;
    } else {
      var b' := b[..|b| - 1];
      assert (a + b)[..|a + b| - 1] == a + b';
      DecodedAppend(a, b', parse);
    }
  }

  /** What one line contributes: its parsed payload when it is a `data:`
      line whose field parses, nothing otherwise. */
  function LinePayload(line: string, parse: string -> Option<Payload>): seq<Payload>
  {
    if IsDataLine(line) then
      var data := parse(line[|DataPrefix|..]);
      if data.Some? then [data.value] else []
    else []
  }

  /** Reading lines one at a time: the first `j + 1` lines yield what the
      first `j` yield, then what line `j` yields. */
  lemma LinePayloads(lines: seq<string>, j: nat, parse: string -> Option<Payload>)
    requires j < |lines|
    ensures Decoded(DataFields(lines[..j + 1]), parse)
         == Decoded(DataFields(lines[..j]), parse) + LinePayload(lines[j], parse)
  {
    var prefix := lines[..j + 1];
    assert prefix[..|prefix| - 1] == lines[..j];
    assert prefix[|prefix| - 1] == lines[j];
    var fields := DataFields(lines[..j]);
    if IsDataLine(lines[j]) {
      var f := lines[j][|DataPrefix|..];
      assert DataFields(prefix) == fields + [f];
      DecodedAppend(fields, [f], parse);
      assert [f][..0] == [];
    } else {
      assert DataFields(prefix) == fields;
    }
  }

  /** The payloads the client acts on for one chunk it has read. */
  function ChunkPayloads(chunk: string, parse: string -> Option<Payload>): seq<Payload>
  {
    Decoded(DataFields(SplitLines(chunk)), parse)
  }

  /** The payloads the client acts on for a whole response body, read as a
      sequence of already-decoded chunks. */
  function StreamPayloads(chunks: seq<string>, parse: string -> Option<Payload>): seq<Payload>
  {
    if chunks == [] then []
    else StreamPayloads(chunks[..|chunks| - 1], parse) + ChunkPayloads(chunks[|chunks| - 1], parse)
  }

  /** Reading chunks one at a time. */
  lemma StreamPayloadsPrefix(chunks: seq<string>, i: nat, parse: string -> Option<Payload>)
    requires i < |chunks|
    ensures StreamPayloads(chunks[..i + 1], parse)
         == StreamPayloads(chunks[..i], parse) + ChunkPayloads(chunks[i], parse)
  {
    assert chunks[..i + 1][..i] == chunks[..i];
  }

  /** A chunk holding exactly one event frame yields exactly that frame's
      JSON text. */
  lemma FrameFields(json: string)
    requires '\n' !in json
    ensures DataFields(SplitLines(Frame(json))) == [json]
  {
    var lines := [DataPrefix + json, "", ""];
    assert '\n' !in DataPrefix + json;
    assert lines[1..][1..] == [""];
    assert JoinLines(lines[1..]) == "" + "\n" + "";
    assert JoinLines(lines) == Frame(json);
    SplitJoinLines(lines);
    var first := DataPrefix + json;
    assert IsDataLine(first) && first[|DataPrefix|..] == json;
    assert !IsDataLine("");
    assert [first][..0] == [];
    assert DataFields([first]) == [json];
    assert [first, ""][..1] == [first];
    assert DataFields([first, ""]) == [json];
    assert lines[..2] == [first, ""];
  }
}
