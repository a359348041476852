/** The lines of a streamed answer, from text chunks that can end anywhere. */
module LineFraming {

  const NEWLINE := '\n'

  /** `text.split("\n")`: at least one part, and no part has a newline. */
  function Split(text: string): (parts: seq<string>)
    ensures |parts| >= 1
  {
    if text == "" then [""]
    else
      var rest := Split(text[1..]);
      if text[0] == NEWLINE then [""] + rest else Prepend(text[0], rest)
  }

  function Prepend(c: char, parts: seq<string>): (longer: seq<string>)
    requires |parts| >= 1
    ensures |longer| == |parts|
  {
    parts[0 := [c] + parts[0]]
  }

  function Init<T>(s: seq<T>): seq<T>
    requires |s| >= 1
  {
    s[..|s| - 1]
  }

  function Last<T>(s: seq<T>): T
    requires |s| >= 1
  {
    s[|s| - 1]
  }

  function Join(parts: seq<string>): string
    requires |parts| >= 1
  {
    if |parts| == 1 then parts[0] else parts[0] + [NEWLINE] + Join(parts[1..])
  }

  function Concat(chunks: seq<string>): string {
    if chunks == [] then "" else Concat(chunks[..|chunks| - 1]) + chunks[|chunks| - 1]
  }

  predicate IsLine(line: string) { NEWLINE !in line }

  lemma JoinOfPrepend(c: char, parts: seq<string>)
    requires |parts| >= 1
    ensures Join(Prepend(c, parts)) == [c] + Join(parts)
  {
    if |parts| > 1 {
      assert Prepend(c, parts)[1..] == parts[1..];
    }
  }

  lemma {:induction false} JoinOfSplit(text: string)
    ensures Join(Split(text)) == text
  {
    if text != "" {
      JoinOfSplit(text[1..]);
      assert text == [text[0]] + text[1..];
      var rest := Split(text[1..]);
      if text[0] == NEWLINE {
        assert Split(text)[1..] == rest;
        assert Join(Split(text)) == "" + [NEWLINE] + Join(rest);
      } else {
        JoinOfPrepend(text[0], rest);
      }
    }
  }

  lemma {:induction false} PartsAreLines(text: string)
    ensures forall i :: 0 <= i < |Split(text)| ==> IsLine(Split(text)[i])
  {
    if text != "" {
      PartsAreLines(text[1..]);
    }
  }

  lemma {:induction false} SplitOfLine(line: string)
    requires IsLine(line)
    ensures Split(line) == [line]
  {
    if line != "" {
      assert line == [line[0]] + line[1..];
      assert line[0] in line;
      forall c <- line[1..] ensures c != NEWLINE {
        assert c in line;
      }
      SplitOfLine(line[1..]);
    }
  }

  /** Text after a split: the last part goes on. */
  lemma {:induction false} SplitOfConcat(a: string, b: string)
    ensures Split(a + b) == Init(Split(a)) + Split(Last(Split(a)) + b)
  {
    if a == "" {
      assert a + b == b && "" + b == b;
    } else {
      SplitOfConcat(a[1..], b);
      assert (a + b)[1..] == a[1..] + b && (a + b)[0] == a[0];
      if a[0] == NEWLINE {
        SplitAfterNewline(a, b);
      } else {
        SplitAfterChar(a, b);
      }
    }
  }

  lemma SplitAfterNewline(a: string, b: string)
    requires a != "" && a[0] == NEWLINE && (a + b)[1..] == a[1..] + b
    requires Split(a[1..] + b) == Init(Split(a[1..])) + Split(Last(Split(a[1..])) + b)
    ensures Split(a + b) == Init(Split(a)) + Split(Last(Split(a)) + b)
  {
    var rest := Split(a[1..]);
    assert Split(a) == [""] + rest;
    assert Init(Split(a)) == [""] + Init(rest) && Last(Split(a)) == Last(rest);
    assert (a + b)[0] == a[0];
    assert Split(a + b) == [""] + Split(a[1..] + b);
  }

  lemma SplitAfterChar(a: string, b: string)
    requires a != "" && a[0] != NEWLINE && (a + b)[1..] == a[1..] + b
    requires Split(a[1..] + b) == Init(Split(a[1..])) + Split(Last(Split(a[1..])) + b)
    ensures Split(a + b) == Init(Split(a)) + Split(Last(Split(a)) + b)
  {
    var rest := Split(a[1..]);
    assert (a + b)[0] == a[0];
    assert Split(a + b) == Prepend(a[0], Split(a[1..] + b));
    if |rest| == 1 {
      SplitOfFirst(a[0], rest[0], b);
      assert Last(Split(a)) == [a[0]] + rest[0];
    } else {
      assert Init(Split(a)) == Prepend(a[0], Init(rest)) && Last(Split(a)) == Last(rest);
    }
  }

  lemma SplitOfFirst(c: char, line: string, b: string)
    requires c != NEWLINE
    ensures Split(([c] + line) + b) == Prepend(c, Split(line + b))
  {
    var text := ([c] + line) + b;
    assert text[0] == c && text[1..] == line + b;
  }

  /**
   * Lines without newlines come back from their joined text, so the lines of a stream are exactly those that were sent.
   */
  lemma {:induction false} SplitOfJoin(parts: seq<string>)
    requires |parts| >= 1 && forall part <- parts :: IsLine(part)
    ensures Split(Join(parts)) == parts
  {
    if |parts| == 1 {
      SplitOfLine(parts[0]);
    } else {
      SplitOfJoin(parts[1..]);
      assert Join(parts) == parts[0] + ([NEWLINE] + Join(parts[1..]));
      SplitOfNewlineText(parts[0], Join(parts[1..]));
      assert parts == [parts[0]] + parts[1..];
    }
  }

  lemma {:induction false} SplitOfNewlineText(line: string, text: string)
    requires IsLine(line)
    ensures Split(line + ([NEWLINE] + text)) == [line] + Split(text)
  {
    var all := line + ([NEWLINE] + text);
    if line == "" {
      assert all[0] == NEWLINE && all[1..] == text;
    } else {
      assert line[0] in line && line == [line[0]] + line[1..];
      forall c <- line[1..] ensures c != NEWLINE {
        assert c in line;
      }
      SplitOfNewlineText(line[1..], text);
      assert all[0] == line[0] && all[1..] == line[1..] + ([NEWLINE] + text);
      assert Prepend(line[0], [line[1..]] + Split(text)) == [line] + Split(text);
    }
  }

  lemma InitAndLast<T>(s: seq<T>, x: T)
    ensures Init(s + [x]) == s && Last(s + [x]) == x
  {
  }

  lemma Reassemble<T>(s: seq<T>, t: seq<T>)
    requires |t| >= 1
    ensures s + Init(t) + [Last(t)] == s + t
  {
  }

  lemma NextChunk(lines: seq<string>, lastLine: string, text: string, chunk: string)
    requires lines + [lastLine] == Split(text)
    ensures var parts := Split(lastLine + chunk); lines + Init(parts) + [Last(parts)] == Split(text + chunk)
  {
    SplitOfConcat(text, chunk);
    InitAndLast(lines, lastLine);
    Reassemble(lines, Split(lastLine + chunk));
  }

  /** The lines of the stream, whatever the chunks are. The last line is what comes after the last newline. */
  method StreamLines(chunks: seq<string>) returns (lines: seq<string>)
    ensures lines == Split(Concat(chunks))
  {
    lines := [];
    var lastLine := "";
    for k := 0 to |chunks|
      invariant lines + [lastLine] == Split(Concat(chunks[..k]))
    {
      var parts := Split(lastLine + chunks[k]);
      assert chunks[..k + 1][..k] == chunks[..k];
      NextChunk(lines, lastLine, Concat(chunks[..k]), chunks[k]);
      lines := lines + Init(parts);
      lastLine := Last(parts);
    }
    assert chunks[..|chunks|] == chunks;
    lines := lines + [lastLine];
  }

  /**
   * The chunk bounds do not matter: 2 streams of the same text give the same lines, and the lines give the text back.
   */
  lemma LinesDependOnTextOnly(a: seq<string>, b: seq<string>, linesA: seq<string>, linesB: seq<string>)
    requires linesA == Split(Concat(a)) && linesB == Split(Concat(b))
    ensures linesA == linesB <==> Concat(a) == Concat(b)
  {
    JoinOfSplit(Concat(a));
    JoinOfSplit(Concat(b));
  }
}
